/** The machine at the other end of the line loads a segment: it asks for packet after packet, takes
    each reply apart, and puts the payloads together until a packet says it is the last. */
module Loader {
  import opened Bytes
  import opened Frame
  import opened Duart
  import opened Crc
  import opened CrcTheory
  import opened Packet
  import opened Names
  import opened Gate
  import opened PakTool
  import opened Cache

  // ---------------------------------------------------------------- what the machine says

  function Quiet(k: nat): (p: seq<u16>)
    ensures |p| == k && forall i | 0 <= i < k :: p[i] == NOTHING
  {
    seq(k, _ => NOTHING)
  }

  /** The bytes of a message, each after some polls that find nothing. */
  function Speech(bytes: seq<u16>, gaps: seq<nat>): seq<u16>
    requires |gaps| == |bytes|
  {
    if bytes == [] then [] else Quiet(gaps[0]) + [bytes[0]] + Speech(bytes[1..], gaps[1..])
  }

  /** A request as it goes over the line: packet number, segment from the low byte up, and the 0x10
      0x06 that answers the gateway's 0x91. */
  function Message(segment: u32, n: u16): seq<u16>
    requires segment < 0x100_0000 && n < 0x100
  {
    [n, segment % 0x100, segment / 0x100 % 0x100, segment / 0x1_0000, 0x10, 0x06]
  }

  /** The machine is never slower than the gateway's patience with an acknowledgement. */
  predicate Prompt(gaps: seq<nat>) {
    |gaps| == 6 && forall k <- gaps :: k < ACK_POLLS
  }

  lemma PollSpeech(bytes: seq<u16>, gaps: seq<nat>, timeout: nat)
    requires |gaps| == |bytes| > 0 && bytes[0] < 0x100 && gaps[0] < timeout
    ensures PollByte(Speech(bytes, gaps), timeout) == (bytes[0], Speech(bytes[1..], gaps[1..]))
  {
    var s, k := Speech(bytes, gaps), gaps[0];
    PollFindsFirst(s, timeout, k);
    assert s[k + 1..] == Speech(bytes[1..], gaps[1..]);
  }

  /** The gateway puts the request together as it was meant, and hears the acknowledgement. */
  lemma MessageUnderstood(segment: u32, n: u16, gaps: seq<nat>)
    requires segment < 0x100_0000 && n < 0x100 && Prompt(gaps)
    ensures var (request, rest) := ReadRequest(Speech(Message(segment, n), gaps));
      && request == Some(segment * 0x100 + n)
      && forall out :: Acknowledged(Line(rest, out)) == (true, Line([], out))
  {
    hide PollByte, Speech;
    var m := Message(segment, n);
    assert forall i | 0 <= i < 6 :: gaps[i] in gaps;
    PollSpeech(m, gaps, REQUEST_POLLS);
    PollSpeech(m[1..], gaps[1..], REQUEST_POLLS);
    PollSpeech(m[2..], gaps[2..], REQUEST_POLLS);
    PollSpeech(m[3..], gaps[3..], REQUEST_POLLS);
    PollSpeech(m[4..], gaps[4..], ACK_POLLS);
    PollSpeech(m[5..], gaps[5..], ACK_POLLS);
    SpeechEnds(m[6..], gaps[6..]);
  }

  lemma SpeechEnds(bytes: seq<u16>, gaps: seq<nat>)
    requires |gaps| == |bytes| == 0
    ensures Speech(bytes, gaps) == []
  {
  }

  // ---------------------------------------------------------------- one turn

  const REPLY_HEAD: seq<byte> := [0x10, 0x06, 0xE4, 0x91]

  function Ask(g: Gate, segment: u32, n: u16, gaps: seq<nat>): Gate
    requires segment < 0x100_0000 && n < 0x100 && |gaps| == 6
  {
    Hearing(g, Speech(Message(segment, n), gaps))
  }

  /** A packet sent in answer to a request, as it leaves the gateway. */
  lemma ReplySent(g: Gate, segment: u32, n: u16, gaps: seq<nat>, packet: seq<byte>)
    requires segment < 0x100_0000 && n < 0x100 && Prompt(gaps)
    ensures SendPacket(Asked(Ask(g, segment, n, gaps)).line, packet)
         == (true, Line([], g.line.out + REPLY_HEAD + FrameOf(packet)))
  {
    hide Acknowledged, ReadRequest, Speech, FrameOf;
    MessageUnderstood(segment, n, gaps);
    var before := Asked(Ask(g, segment, n, gaps)).line;
    assert before.out + [0x91] == g.line.out + REPLY_HEAD;
  }

  /** The cache holds the segment. */
  ghost predicate Ready(g: Gate, segment: u32, remote: Remote) {
    Coherent(g, remote) && !g.packetMode && g.segment == segment
  }

  /** The server has the file, and it fits. */
  ghost predicate Loadable(segment: u32, remote: Remote) {
    && 0 < segment < 0x100_0000 && segment != 0x7f_ffff
    && SegmentName(segment) in remote && 0 < |remote[SegmentName(segment)]| < 0x1_0000
  }

  /** The packet is sent, and afterwards the cache holds the segment. */
  ghost predicate Replied(g: Gate, a: Answer, packet: seq<byte>) {
    a.Answer? && a.ok && a.gate.line.out == g.line.out + REPLY_HEAD + FrameOf(packet)
  }

  lemma PacketTurn(g: Gate, segment: u32, n: u16, gaps: seq<nat>, segments: seq<Callback>, packets: seq<Callback>, remote: Remote)
    requires Loadable(segment, remote) && Prompt(gaps) && Coherent(g, remote) && n < Count(|remote[SegmentName(segment)]|)
    requires Ready(g, segment, remote) || (n == 0 && Serves(remote, SegmentName(segment), segments) && Ends(segments))
    ensures n < 0x100 && RequestOk(Ask(g, segment, n, gaps))
    ensures var a := PacketRequest(Ask(g, segment, n, gaps), segments, packets);
      && Replied(g, a, PacketOf(segment, n, remote[SegmentName(segment)])) && Ready(a.gate, segment, remote)
      && a.gate.gets == g.gets + (if Ready(g, segment, remote) then [] else [SegmentName(segment)])
  {
    hide HandleRequest, Holds, SegmentName, Serves, SendPacket, PacketOf, ReadRequest, Speech;
    MessageUnderstood(segment, n, gaps);
    var request := segment * 0x100 + n;
    var h := Asked(Ask(g, segment, n, gaps));
    ReplySent(g, segment, n, gaps, PacketOf(segment, n, remote[SegmentName(segment)]));
    assert Coherent(h, remote);
    if Ready(g, segment, remote) {
      HitSends(h, request, segments, packets, remote);
    } else {
      FetchSends(h, request, segments, packets, remote);
    }
  }

  lemma TimeTurnAnywhere(g: Gate, gaps: seq<nat>)
    requires Prompt(gaps) && Sized(g)
    ensures RequestOk(Ask(g, 0x7f_ffff, 0, gaps))
    ensures var a := PacketRequest(Ask(g, 0x7f_ffff, 0, gaps), [], []);
      && Replied(g, a, Sealed(TIME_BODY)) && a.gate == g.(line := a.gate.line)
  {
    hide SendPacket, Sealed, ReadRequest, Speech, PacketizeSegment;
    MessageUnderstood(0x7f_ffff, 0, gaps);
    ReplySent(g, 0x7f_ffff, 0, gaps, Sealed(TIME_BODY));
  }

  lemma TimeTurn(g: Gate, gaps: seq<nat>, remote: Remote)
    requires Prompt(gaps) && Coherent(g, remote)
    ensures RequestOk(Ask(g, 0x7f_ffff, 0, gaps))
    ensures var a := PacketRequest(Ask(g, 0x7f_ffff, 0, gaps), [], []);
      && Replied(g, a, Sealed(TIME_BODY)) && a.gate == g.(line := a.gate.line)
  {
    hide Holds, SegmentName, PacketRequest, Sealed;
    TimeTurnAnywhere(g, gaps);
  }

  // ---------------------------------------------------------------- loading

  datatype Reply = Garbled | Reply(packet: seq<byte>)

  /** The machine reads a whole reply. */
  function ReadReply(s: seq<byte>): Reply {
    if !(REPLY_HEAD <= s) then Garbled
    else
      match Unstuff(s[|REPLY_HEAD|..])
      case Frame(packet, rest) => if rest == [] then Reply(packet) else Garbled
      case _ => Garbled
  }

  lemma ReplyRead(packet: seq<byte>)
    ensures ReadReply(REPLY_HEAD + FrameOf(packet)) == Reply(packet)
  {
    RoundTrip(packet, []);
    assert FrameOf(packet) + [] == FrameOf(packet);
    assert (REPLY_HEAD + FrameOf(packet))[|REPLY_HEAD|..] == FrameOf(packet);
  }

  /** What the gateway sent since g, read as a reply. */
  function Heard(g: Gate, a: Answer): Reply {
    if a.Answer? && g.line.out <= a.gate.line.out then ReadReply(a.gate.line.out[|g.line.out|..]) else Garbled
  }

  lemma RepliedIsHeard(g: Gate, a: Answer, packet: seq<byte>)
    requires Replied(g, a, packet)
    ensures Heard(g, a) == Reply(packet)
  {
    ReplyRead(packet);
    assert a.gate.line.out == g.line.out + (REPLY_HEAD + FrameOf(packet));
    assert a.gate.line.out[|g.line.out|..] == REPLY_HEAD + FrameOf(packet);
  }

  /** The time packet: the only packet of segment 0x7fffff, with the nine bytes of a clock. */
  predicate TellsTime(r: Reply) {
    && r.Reply? && |r.packet| == 27 && r.packet[..4] == [0x7f, 0xff, 0xff, 0x00] && r.packet[11..16] == [0x30, 0, 0, 0, 0]
    && ReadPacket(r.packet) == Reading(true, [0x02, 0x02, 0x02, 0x54, 0x01, 0x01, 0x00, 0x00, 0x00])
  }

  lemma TimePacketTellsTime()
    ensures TellsTime(Reply(Sealed(TIME_BODY)))
  {
    hide Accepts, CheckBytes;
    var p := Sealed(TIME_BODY);
    SealedAccepted(TIME_BODY);
    assert p == TIME_BODY + CheckBytes(TIME_BODY);
    assert p[16..25] == TIME_BODY[16..];
    assert p[11] == 0x30;
  }

  /** What the machine asks for next: the time, or the next packet of the segment. */
  datatype Turn =
    | Time(gaps: seq<nat>)
    | Next(gaps: seq<nat>, segments: seq<Callback>, packets: seq<Callback>)

  datatype Loading =
    | Loaded(data: seq<byte>, asked: nat, gate: Gate)
    | Failed
    | Unfinished

  function Then(payload: seq<byte>, l: Loading): Loading {
    match l
    case Loaded(data, asked, gate) => Loaded(payload + data, asked + 1, gate)
    case _ => l
  }

  /** Load the segment from packet n on, turn by turn, until a packet is marked as the last. */
  function Load(g: Gate, segment: u32, n: u16, turns: seq<Turn>): Loading
    requires segment < 0x100_0000 && forall t <- turns :: |t.gaps| == 6
    decreases |turns|
  {
    if turns == [] then Unfinished
    else
      assert turns[0] in turns;
      match turns[0]
      case Time(gaps) =>
        var h := Ask(g, 0x7f_ffff, 0, gaps);
        if !RequestOk(h) then Failed
        else
          var a := PacketRequest(h, [], []);
          if TellsTime(Heard(g, a)) then Load(a.gate, segment, n, turns[1..]) else Failed
      case Next(gaps, segments, packets) =>
        if n >= 0x100 || !RequestOk(Ask(g, segment, n, gaps)) then Failed
        else
          var a := PacketRequest(Ask(g, segment, n, gaps), segments, packets);
          match Heard(g, a)
          case Garbled => Failed
          case Reply(packet) =>
            match ReadPacket(packet)
            case Damaged => Failed
            case Reading(last, payload) =>
              if last then Loaded(payload, 1, a.gate) else Then(payload, Load(a.gate, segment, n + 1, turns[1..]))
  }

  /** A question for the time changes nothing. */
  lemma LoadPassesTime(g: Gate, segment: u32, n: u16, turns: seq<Turn>)
    requires segment < 0x100_0000 && (forall t <- turns :: |t.gaps| == 6) && Sized(g)
    requires turns != [] && turns[0].Time? && Prompt(turns[0].gaps)
    ensures RequestOk(Ask(g, 0x7f_ffff, 0, turns[0].gaps))
    ensures var a := PacketRequest(Ask(g, 0x7f_ffff, 0, turns[0].gaps), [], []);
      && Load(g, segment, n, turns) == Load(a.gate, segment, n, turns[1..])
      && a.gate == g.(line := a.gate.line)
  {
    hide PacketRequest, RequestOk, Ask, Sealed, Heard, TellsTime;
    var gaps := turns[0].gaps;
    TimeTurnAnywhere(g, gaps);
    var a := PacketRequest(Ask(g, 0x7f_ffff, 0, gaps), [], []);
    RepliedIsHeard(g, a, Sealed(TIME_BODY));
    TimePacketTellsTime();
  }

  /** A packet that arrives is taken apart. */
  lemma LoadTakesPacket(g: Gate, segment: u32, n: u16, turns: seq<Turn>, packet: seq<byte>, last: bool, payload: seq<byte>)
    requires segment < 0x100_0000 && n < 0x100 && forall t <- turns :: |t.gaps| == 6
    requires turns != [] && turns[0].Next? && RequestOk(Ask(g, segment, n, turns[0].gaps))
    requires Replied(g, PacketRequest(Ask(g, segment, n, turns[0].gaps), turns[0].segments, turns[0].packets), packet)
    requires ReadPacket(packet) == Reading(last, payload)
    ensures var a := PacketRequest(Ask(g, segment, n, turns[0].gaps), turns[0].segments, turns[0].packets);
      Load(g, segment, n, turns)
        == if last then Loaded(payload, 1, a.gate) else Then(payload, Load(a.gate, segment, n + 1, turns[1..]))
  {
    hide PacketRequest, RequestOk, Ask, ReadPacket, Heard;
    var a := PacketRequest(Ask(g, segment, n, turns[0].gaps), turns[0].segments, turns[0].packets);
    RepliedIsHeard(g, a, packet);
  }

  function Asks(turns: seq<Turn>): nat {
    if turns == [] then 0 else (if turns[0].Next? then 1 else 0) + Asks(turns[1..])
  }

  /** The machine is prompt, and should a fetch be needed, its transfer comes to an end. */
  ghost predicate Willing(turns: seq<Turn>, segment: u32, remote: Remote) {
    forall t <- turns ::
      Prompt(t.gaps) && (t.Next? ==> Serves(remote, SegmentName(segment), t.segments) && Ends(t.segments))
  }

  lemma {:induction false} LoadsRest(g: Gate, segment: u32, n: u16, turns: seq<Turn>, remote: Remote)
    requires Loadable(segment, remote) && Coherent(g, remote) && Willing(turns, segment, remote)
    requires n == 0 || Ready(g, segment, remote)
    requires var file := remote[SegmentName(segment)]; n < Count(|file|) <= n + Asks(turns)
    ensures var file := remote[SegmentName(segment)];
      var l := Load(g, segment, n, turns);
      && l.Loaded? && l.data == PayloadsFrom(file, n) && l.asked == Count(|file|) - n
      && Ready(l.gate, segment, remote)
      && l.gate.gets == g.gets + (if Ready(g, segment, remote) then [] else [SegmentName(segment)])
    decreases |turns|
  {
    hide PacketRequest, RequestOk, Ask, Serves, Ends, SegmentName, Holds, Coherent, PacketOf, ReadPacket, Payload, Load;
    var file := remote[SegmentName(segment)];
    assert turns[0] in turns;
    assert Willing(turns[1..], segment, remote);
    match turns[0] {
      case Time(gaps) =>
        TimeTurn(g, gaps, remote);
        CoherentIsSized(g, remote);
        LoadPassesTime(g, segment, n, turns);
        var a := PacketRequest(Ask(g, 0x7f_ffff, 0, gaps), [], []);
        TimeLeaves(g, a, segment, remote);
        LoadsRest(a.gate, segment, n, turns[1..], remote);
      case Next(gaps, segments, packets) =>
        PacketTurn(g, segment, n, gaps, segments, packets, remote);
        var a := PacketRequest(Ask(g, segment, n, gaps), segments, packets);
        ReadPacketOf(segment, n, file);
        LoadTakesPacket(g, segment, n, turns, PacketOf(segment, n, file), IsLast(|file|, n), Payload(file, n));
        if !IsLast(|file|, n) {
          LoadsRest(a.gate, segment, n + 1, turns[1..], remote);
        }
    }
  }

  lemma CoherentIsSized(g: Gate, remote: Remote)
    requires Coherent(g, remote)
    ensures Sized(g)
  {
  }

  lemma TimeLeaves(g: Gate, a: Answer, segment: u32, remote: Remote)
    requires Coherent(g, remote) && a.Answer? && a.gate == g.(line := a.gate.line)
    ensures Coherent(a.gate, remote) && (Ready(a.gate, segment, remote) <==> Ready(g, segment, remote))
  {
  }

  /** From every state the gateway can reach between requests, loading a segment of 1 to 65535 bytes
      gives exactly the file the server holds, in as many requests as it has packets, with at most
      one transfer, which is of that file, however often the time is asked for in between. */
  lemma LoadsFile(exchanges: seq<Exchange>, segment: u32, turns: seq<Turn>, remote: Remote)
    requires Feasible(Initial(Line([], [])), exchanges, remote)
    requires Loadable(segment, remote) && Willing(turns, segment, remote)
    requires Count(|remote[SegmentName(segment)]|) <= Asks(turns)
    ensures var g := Serve(Initial(Line([], [])), exchanges, remote);
      var file := remote[SegmentName(segment)];
      var l := Load(g, segment, 0, turns);
      && l.Loaded? && l.data == file && l.asked == Count(|file|)
      && l.gate.gets == g.gets + (if Hit(g, segment * 0x100) then [] else [SegmentName(segment)])
  {
    hide Feasible, Serve, Load, Willing, SegmentName, Holds;
    CoherentFromStart(exchanges, remote);
    LoadsRest(Serve(Initial(Line([], [])), exchanges, remote), segment, 0, turns, remote);
    SegmentPartition(segment, remote[SegmentName(segment)]);
  }

  // ---------------------------------------------------------------- every segment can be loaded

  /** n questions without delay, each with the same transfer should one be needed. */
  function Questions(n: nat, segments: seq<Callback>): (turns: seq<Turn>)
    ensures |turns| == n && forall t <- turns :: t == Next([0, 0, 0, 0, 0, 0], segments, [])
  {
    if n == 0 then [] else [Next([0, 0, 0, 0, 0, 0], segments, [])] + Questions(n - 1, segments)
  }

  lemma {:induction false} AsksAll(n: nat, segments: seq<Callback>)
    ensures Asks(Questions(n, segments)) == n
  {
    if n > 0 {
      AsksAll(n - 1, segments);
      assert Questions(n, segments)[1..] == Questions(n - 1, segments);
    }
  }

  /** For every loadable segment there are turns as LoadsFile asks for them, with a transfer that a
      run over the network brings about: from every reachable state the file can be had. */
  lemma EverySegmentLoads(exchanges: seq<Exchange>, segment: u32, remote: Remote) returns (turns: seq<Turn>)
    requires Feasible(Initial(Line([], [])), exchanges, remote) && Loadable(segment, remote)
    ensures Willing(turns, segment, remote)
    ensures var l := Load(Serve(Initial(Line([], [])), exchanges, remote), segment, 0, turns);
      l.Loaded? && l.data == remote[SegmentName(segment)]
  {
    hide Feasible, Serve, Load, SegmentName, Serves, Ends, WholeTransfer;
    var file := remote[SegmentName(segment)];
    SegmentNameFits(segment);
    WholeTransferServes(remote, SegmentName(segment));
    turns := Questions(Count(|file|), WholeTransfer(file));
    AsksAll(Count(|file|), WholeTransfer(file));
    LoadsFile(exchanges, segment, turns, remote);
  }

  // ---------------------------------------------------------------- prepared packets

  /** The server has, in place of the segment, the packets the tool made of data. */
  ghost predicate Prepared(segment: u32, data: seq<byte>, remote: Remote) {
    && 0 < segment < 0x100_0000 && segment != 0x7f_ffff && 0 < |data| <= MAX_SEGMENT
    && SegmentName(segment) !in remote
    && forall n: u16 | n < Count(|data|) ::
         var name := "/nabu/" + ToolName(segment, n);
         name in remote && remote[name] == PakOf(segment, n, data[n * 991..])
  }

  /** The machine is prompt, the server says that it does not have the segment, and the transfers of
      the packets come to an end. */
  ghost predicate WillingPaks(turns: seq<Turn>, segment: u32, n: u16, remote: Remote)
    decreases |turns|
  {
    turns == [] ||
      var t := turns[0];
      && Prompt(t.gaps)
      && (t.Next? ==>
            && Serves(remote, PacketName(segment * 0x100 + n), t.packets) && Ends(t.packets)
            && (n == 0 ==> t.segments == [Abort]))
      && WillingPaks(turns[1..], segment, if t.Next? then (n + 1) % 0x1_0000 else n, remote)
  }

  lemma PakPromptness(turns: seq<Turn>, segment: u32, n: u16, remote: Remote)
    requires WillingPaks(turns, segment, n, remote)
    ensures forall t <- turns :: |t.gaps| == 6
    decreases |turns|
  {
    hide Serves, Ends;
    if turns != [] {
      PakPromptness(turns[1..], segment, if turns[0].Next? then (n + 1) % 0x1_0000 else n, remote);
    }
  }

  /** The cache will not answer for the segment. */
  ghost predicate Elsewhere(g: Gate, segment: u32) {
    Sized(g) && (g.packetMode || g.segment != segment)
  }

  lemma PakTurn(g: Gate, segment: u32, n: u16, gaps: seq<nat>, segments: seq<Callback>, packets: seq<Callback>,
                data: seq<byte>, remote: Remote)
    requires Prepared(segment, data, remote) && n < Count(|data|) && Prompt(gaps) && Elsewhere(g, segment)
    requires Serves(remote, PacketName(segment * 0x100 + n), packets) && Ends(packets)
    requires n == 0 ==> segments == [Abort]
    ensures n < 0x100 && RequestOk(Ask(g, segment, n, gaps))
    ensures var a := PacketRequest(Ask(g, segment, n, gaps), segments, packets);
      Replied(g, a, PakOf(segment, n, data[n * 991..])) && Elsewhere(a.gate, segment)
  {
    hide HandleRequest, SegmentName, PacketName, Serves, PakOf, ReadRequest, Speech, ToolName, Ends;
    var request := segment * 0x100 + n;
    MessageUnderstood(segment, n, gaps);
    NamesAgree(segment, n);
    ServesCases(remote, PacketName(request), packets);
    var h := Asked(Ask(g, segment, n, gaps));
    var given := if n == 0 then segments else [];
    OnlyFirstAsksForSegment(h, request, segments, packets);
    AbortServes(remote, SegmentName(segment));
    PreparedPacketAnswer(h, request, given, packets, remote);
    EndsAtLeast(packets);
    PakFramed(g.line.out, PakOf(segment, n, data[n * 991..]));
  }

  lemma OnlyFirstAsksForSegment(h: Gate, request: u32, segments: seq<Callback>, packets: seq<Callback>)
    requires Sized(h) && !Hit(h, request) && request != TIME_REQUEST
    ensures NumberOf(request) != 0 ==> HandleRequest(h, request, segments, packets) == HandleRequest(h, request, [], packets)
  {
    hide FetchSegment, AfterSegment;
  }

  lemma AbortServes(remote: Remote, name: string)
    requires name !in remote
    ensures Serves(remote, name, []) && Serves(remote, name, [Abort]) && Breaks([Abort]) && !Ends([Abort]) && !Ends([])
  {
  }

  lemma EndsAtLeast(packets: seq<Callback>)
    requires Ends(packets)
    ensures packets != [] && packets != [Abort]
  {
  }

  lemma PakFramed(out: seq<byte>, packet: seq<byte>)
    ensures out + [0x10, 0x06, 0xE4] + [] + ([0x91] + Stuff(packet)) + [0x10, 0xE1] == out + REPLY_HEAD + FrameOf(packet)
  {
    hide Stuff;
  }

  lemma PaksPassTime(g: Gate, segment: u32, n: u16, turns: seq<Turn>, remote: Remote) returns (h: Gate)
    requires segment < 0x100_0000 && WillingPaks(turns, segment, n, remote) && Elsewhere(g, segment)
    requires turns != [] && turns[0].Time?
    ensures forall t <- turns :: |t.gaps| == 6
    ensures Load(g, segment, n, turns) == Load(h, segment, n, turns[1..])
    ensures Elsewhere(h, segment) && WillingPaks(turns[1..], segment, n, remote)
  {
    hide Load, PacketRequest, RequestOk, Ask;
    PakPromptness(turns, segment, n, remote);
    LoadPassesTime(g, segment, n, turns);
    h := PacketRequest(Ask(g, 0x7f_ffff, 0, turns[0].gaps), [], []).gate;
  }

  lemma WillingNext(turns: seq<Turn>, segment: u32, n: u16, remote: Remote)
    requires WillingPaks(turns, segment, n, remote) && turns != [] && turns[0].Next?
    ensures var t := turns[0];
      && Prompt(t.gaps) && Serves(remote, PacketName(segment * 0x100 + n), t.packets) && Ends(t.packets)
      && (n == 0 ==> t.segments == [Abort])
    ensures n < 0x100 ==> WillingPaks(turns[1..], segment, n + 1, remote)
  {
    hide Serves, Ends, PacketName;
  }

  lemma PaksTakePacket(g: Gate, segment: u32, n: u16, turns: seq<Turn>, data: seq<byte>, remote: Remote)
    returns (h: Gate)
    requires Prepared(segment, data, remote) && WillingPaks(turns, segment, n, remote) && Elsewhere(g, segment)
    requires turns != [] && turns[0].Next? && n < Count(|data|)
    ensures n < 0x100 && segment < 0x100_0000 && forall t <- turns :: |t.gaps| == 6
    ensures Load(g, segment, n, turns)
         == if IsLast(|data|, n) then Loaded(Payload(data, n), 1, h)
            else Then(Payload(data, n), Load(h, segment, n + 1, turns[1..]))
    ensures Elsewhere(h, segment) && WillingPaks(turns[1..], segment, n + 1, remote)
  {
    hide Load, PacketRequest, RequestOk, Ask, Prepared, Serves, Ends, PacketName, PakOf, ReadPacket, Payload, Replied;
    PakPromptness(turns, segment, n, remote);
    PreparedSize(segment, data, remote);
    var t := turns[0];
    WillingNext(turns, segment, n, remote);
    hide WillingPaks, Elsewhere;
    PakTurn(g, segment, n, t.gaps, t.segments, t.packets, data, remote);
    PakReads(segment, n, data);
    LoadTakesPacket(g, segment, n, turns, PakOf(segment, n, data[n * 991..]), IsLast(|data|, n), Payload(data, n));
    h := PacketRequest(Ask(g, segment, n, t.gaps), t.segments, t.packets).gate;
  }

  lemma {:induction false} LoadsPaksFrom(g: Gate, segment: u32, n: u16, turns: seq<Turn>, data: seq<byte>, remote: Remote)
    requires Prepared(segment, data, remote) && WillingPaks(turns, segment, n, remote) && Elsewhere(g, segment)
    requires n < Count(|data|) <= n + Asks(turns)
    ensures segment < 0x100_0000 && forall t <- turns :: |t.gaps| == 6
    ensures var l := Load(g, segment, n, turns);
      l.Loaded? && l.data == PayloadsFrom(data, n) && l.asked == Count(|data|) - n
    decreases |turns|
  {
    hide Prepared, WillingPaks, Payload, Load, Elsewhere;
    PakPromptness(turns, segment, n, remote);
    PreparedSize(segment, data, remote);
    if turns[0].Time? {
      var h := PaksPassTime(g, segment, n, turns, remote);
      LoadsPaksFrom(h, segment, n, turns[1..], data, remote);
    } else {
      var h := PaksTakePacket(g, segment, n, turns, data, remote);
      if !IsLast(|data|, n) {
        LoadsPaksFrom(h, segment, n + 1, turns[1..], data, remote);
      }
    }
  }

  lemma PreparedSize(segment: u32, data: seq<byte>, remote: Remote)
    requires Prepared(segment, data, remote)
    ensures 0 < segment < 0x100_0000 && 0 < |data| <= MAX_SEGMENT
  {
  }

  /** From every reachable state, a segment that is on the server only as the packets the tool made of
      it is loaded: the data are those the tool was given, up to all its 65536 bytes. */
  lemma LoadsPaks(exchanges: seq<Exchange>, segment: u32, turns: seq<Turn>, data: seq<byte>, remote: Remote)
    requires Feasible(Initial(Line([], [])), exchanges, remote)
    requires Prepared(segment, data, remote) && WillingPaks(turns, segment, 0, remote) && Count(|data|) <= Asks(turns)
    ensures segment < 0x100_0000 && forall t <- turns :: |t.gaps| == 6
    ensures var l := Load(Serve(Initial(Line([], [])), exchanges, remote), segment, 0, turns);
      l.Loaded? && l.data == data && l.asked == Count(|data|)
  {
    hide Feasible, Serve, Load, SegmentName, Holds, WillingPaks;
    CoherentFromStart(exchanges, remote);
    LoadsPaksFrom(Serve(Initial(Line([], [])), exchanges, remote), segment, 0, turns, data, remote);
    SegmentPartition(segment, data);
  }
}
