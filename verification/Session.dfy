/** The gateway with its buffers and flags in use: whole sequences of commands, and a machine that
    loads a segment from it. */
module Session {
  import opened Bytes
  import opened Packet
  import opened Names
  import opened Gateway
  import opened Gate
  import opened Cache
  import Duart
  import CrcTheory
  import opened Loader

  /** One command after another. */
  method Commands(d: Device, exchanges: seq<Exchange>, ghost remote: Remote)
    requires d.Valid() && Coherent(d.State(), remote) && Feasible(d.State(), exchanges, remote)
    modifies d, d.segmentBuffer, d.packetBuffer, d.port
    ensures d.State() == Serve(old(d.State()), exchanges, remote) && Coherent(d.State(), remote)
  {
    hide PacketRequest, Coherent, Served;
    AlwaysCoherent(d.State(), exchanges, remote);
    for i := 0 to |exchanges|
      invariant Feasible(d.State(), exchanges[i..], remote)
      invariant Serve(d.State(), exchanges[i..], remote) == Serve(old(d.State()), exchanges, remote)
    {
      var e := exchanges[i];
      d.port.Hear(e.heard);
      var done, ok := d.PacketRequest(e.segments, e.packets);
    }
  }

  /** The machine asks for the time. */
  method AskTime(d: Device, gaps: seq<nat>, ghost remote: Remote)
    requires d.Valid() && Coherent(d.State(), remote) && Prompt(gaps)
    modifies d, d.segmentBuffer, d.packetBuffer, d.port
    ensures Coherent(d.State(), remote)
    ensures forall segment :: Ready(d.State(), segment, remote) <==> Ready(old(d.State()), segment, remote)
  {
    hide PacketRequest, RequestOk, Coherent, CrcTheory.Sealed;
    ghost var g := d.State();
    TimeTurn(g, gaps, remote);
    d.port.Hear(Speech(Message(0x7f_ffff, 0), gaps));
    var done, ok := d.PacketRequest([], []);
    forall segment ensures Ready(d.State(), segment, remote) <==> Ready(g, segment, remote) {
      TimeLeaves(g, Answer(ok, d.State()), segment, remote);
    }
    TimeLeaves(g, Answer(ok, d.State()), 0, remote);
  }

  /** The machine asks for packet n and takes the reply apart. */
  method AskPacket(d: Device, segment: u32, n: u16, gaps: seq<nat>,
                   segments: seq<Callback>, packets: seq<Callback>, ghost remote: Remote)
    returns (last: bool, payload: seq<byte>)
    requires d.Valid() && Coherent(d.State(), remote) && Loadable(segment, remote) && Prompt(gaps)
    requires n < Count(|remote[SegmentName(segment)]|)
    requires Ready(d.State(), segment, remote) || (n == 0 && Serves(remote, SegmentName(segment), segments) && Ends(segments))
    modifies d, d.segmentBuffer, d.packetBuffer, d.port
    ensures var file := remote[SegmentName(segment)]; last == IsLast(|file|, n) && payload == Payload(file, n)
    ensures Ready(d.State(), segment, remote)
  {
    hide PacketRequest, RequestOk, Serves, Ends, SegmentName, Holds, Coherent, PacketOf, ReadPacket, Payload;
    ghost var g, file := d.State(), remote[SegmentName(segment)];
    var before := |d.port.out|;
    PacketTurn(g, segment, n, gaps, segments, packets, remote);
    d.port.Hear(Speech(Message(segment, n), gaps));
    var done, ok := d.PacketRequest(segments, packets);
    RepliedIsHeard(g, Answer(ok, d.State()), PacketOf(segment, n, file));
    ReadPacketOf(segment, n, file);
    var reply := ReadReply(d.port.out[before..]);
    var reading := ReadPacket(reply.packet);
    last, payload := reading.last, reading.payload;
  }

  /** Packet n and the ones after it, with questions for the time in between. */
  method LoadFrom(d: Device, segment: u32, n: u16, turns: seq<Turn>, ghost remote: Remote)
    returns (data: seq<byte>, asked: nat)
    requires d.Valid() && Coherent(d.State(), remote) && Loadable(segment, remote) && Willing(turns, segment, remote)
    requires n == 0 || Ready(d.State(), segment, remote)
    requires var file := remote[SegmentName(segment)]; n < Count(|file|) <= n + Asks(turns)
    modifies d, d.segmentBuffer, d.packetBuffer, d.port
    ensures var file := remote[SegmentName(segment)]; data == PayloadsFrom(file, n) && asked == Count(|file|) - n
    decreases |turns|
  {
    hide Serves, Ends, SegmentName, Holds, Coherent, Payload;
    assert turns[0] in turns;
    assert Willing(turns[1..], segment, remote);
    match turns[0] {
      case Time(gaps) =>
        AskTime(d, gaps, remote);
        data, asked := LoadFrom(d, segment, n, turns[1..], remote);
      case Next(gaps, segments, packets) =>
        var last, payload := AskPacket(d, segment, n, gaps, segments, packets, remote);
        if last {
          data, asked := payload, 1;
        } else {
          data, asked := LoadFrom(d, segment, n + 1, turns[1..], remote);
          data, asked := payload + data, asked + 1;
        }
    }
  }

  /** A gateway just switched on, any commands it can come through, and then a segment loaded: the
      machine has the file of the server. */
  method LoadAfter(exchanges: seq<Exchange>, segment: u32, turns: seq<Turn>, ghost remote: Remote)
    returns (data: seq<byte>, asked: nat)
    requires Feasible(Initial(Line([], [])), exchanges, remote)
    requires Loadable(segment, remote) && Willing(turns, segment, remote)
    requires Count(|remote[SegmentName(segment)]|) <= Asks(turns)
    ensures data == remote[SegmentName(segment)] && asked == Count(|data|)
  {
    hide Feasible, Willing, SegmentName, PayloadsFrom;
    var port := new Duart.Port([]);
    var d := new Device(port);
    Commands(d, exchanges, remote);
    data, asked := LoadFrom(d, segment, 0, turns, remote);
    SegmentPartition(segment, remote[SegmentName(segment)]);
  }
}
