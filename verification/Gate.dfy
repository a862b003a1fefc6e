/** The gateway between the serial line and TFTP, as functions of its state: the segment cache and
    the transfer callbacks of wifi.c, the sending functions of packet.c, packetRequest of main.c. */
module Gate {
  import opened Bytes
  import opened Frame
  import opened Duart
  import opened CrcTheory
  import opened Packet
  import opened Names

  // ---------------------------------------------------------------- the serial line

  datatype Line = Line(polls: seq<u16>, out: seq<byte>) {
    function Plus(bytes: seq<byte>): Line {
      Line(polls, out + bytes)
    }
  }

  const ACK_POLLS: nat := 0x7FF_FFFF
  const REQUEST_POLLS: nat := 0x7FFF_FFFF

  /** Two bytes 0x10 0x06 are waited for, the second only if the first came. */
  function Acknowledged(line: Line): (bool, Line) {
    var (first, polls) := ExpectByte(line.polls, 0x10, ACK_POLLS);
    if first != 0 then (false, Line(polls, line.out))
    else
      var (second, rest) := ExpectByte(polls, 0x06, ACK_POLLS);
      (second == 0, Line(rest, line.out))
  }

  function SendProlog(line: Line): (bool, Line) {
    Acknowledged(line.Plus([0x91]))
  }

  function SendUnauthorized(line: Line): (bool, Line) {
    Acknowledged(line.Plus([0x90]))
  }

  /** sendPacketizedData */
  function SendPacket(line: Line, packet: seq<byte>): (bool, Line) {
    var (ok, heard) := SendProlog(line);
    if ok then (true, heard.Plus(FrameOf(packet))) else (false, heard)
  }

  // ---------------------------------------------------------------- the state

  datatype Gate = Gate(
    buffer: seq<byte>,      // SegmentBuffer
    written: u16,           // SegmentWritePtr
    packetMode: bool,
    prologSent: bool,
    segment: u32,           // SegmentNumber
    packetNumber: u16,
    packetOffset: u16,
    handling: bool,         // handling_request
    handled: bool,          // request_handled
    line: Line,
    gets: seq<string>)      // the files asked for over TFTP, in order

  predicate Sized(g: Gate) {
    |g.buffer| == MAX_SEGMENT
  }

  function Initial(line: Line): (g: Gate)
    ensures Sized(g)
  {
    Gate(seq(MAX_SEGMENT, _ => 0), 0, false, false, 0, 0, 0, false, false, line, [])
  }

  // ---------------------------------------------------------------- packet.c

  const TIME_BODY: seq<byte> := [
    0x7F, 0xFF, 0xFF, 0x00, 0x00, 0x7F, 0xFF, 0xFF, 0xFF, 0x7F, 0x80, 0x30, 0x00, 0x00, 0x00, 0x00,
    0x02, 0x02, 0x02, 0x54, 0x01, 0x01, 0x00, 0x00, 0x00]

  /** The packet sent for packetNumber lies within the buffer. */
  predicate Sendable(g: Gate) {
    Sized(g) && InBuffer(g.written, g.packetNumber)
  }

  function PacketizeSegment(g: Gate): (bool, Gate)
    requires Sendable(g)
  {
    if g.segment == 0 || g.segment == 0xffff_ffff || g.written == 0 then (false, g)
    else
      var moved := g.(packetOffset := Offset(g.packetNumber));
      match Packetized(g.buffer, g.written, g.segment, g.packetNumber)
      case None => (false, moved)
      case Some(packet) =>
        var (ok, line) := SendPacket(g.line, packet);
        (ok, moved.(line := line))
  }

  // ---------------------------------------------------------------- the callbacks of wifi.c

  function SegmentOpen(g: Gate): Gate {
    g.(packetMode := false, written := 0, packetOffset := 0, packetNumber := 0)
  }

  function PacketOpen(g: Gate): Gate {
    g.(packetMode := true, written := 0, prologSent := false)
  }

  /** SegmentBuffer and SegmentWritePtr after the bytes of data are stored. */
  function StoreAll(buffer: seq<byte>, written: u16, data: seq<byte>): (r: (seq<byte>, u16))
    requires |buffer| == MAX_SEGMENT
    ensures |r.0| == MAX_SEGMENT
  {
    if data == [] then (buffer, written)
    else
      var n := |data| - 1;
      var (b, w) := StoreAll(buffer, written, data[..n]);
      (b[w := data[n]], (w + 1) % 0x1_0000)
  }

  lemma {:induction false} StoreAllConcat(buffer: seq<byte>, written: u16, data: seq<byte>, more: seq<byte>)
    requires |buffer| == MAX_SEGMENT
    ensures var (b, w) := StoreAll(buffer, written, data); StoreAll(buffer, written, data + more) == StoreAll(b, w, more)
    decreases |more|
  {
    if more == [] {
      assert data + more == data;
    } else {
      var n := |more| - 1;
      StoreAllConcat(buffer, written, data, more[..n]);
      assert (data + more)[..|data + more| - 1] == data + more[..n];
    }
  }

  /** The prolog of a prepared packet: whether it was acknowledged is not looked at, and both bytes
      are waited for. */
  function OpenFrame(line: Line): Line {
    var (_, polls) := ExpectByte(line.polls, 0x10, ACK_POLLS);
    var (_, rest) := ExpectByte(polls, 0x06, ACK_POLLS);
    Line(rest, line.out + [0x91])
  }

  /** tftp_write */
  function Write(g: Gate, chain: seq<seq<byte>>): (r: Gate)
    requires Sized(g)
    ensures Sized(r)
    ensures r == g.(buffer := r.buffer, written := r.written, prologSent := r.prologSent, line := r.line)
  {
    if g.packetMode then
      var line := if g.prologSent then g.line else OpenFrame(g.line);
      g.(prologSent := true, line := line.Plus(Stuff(Flatten(chain))))
    else
      var (buffer, written) := StoreAll(g.buffer, g.written, Flatten(chain));
      g.(buffer := buffer, written := written)
  }

  /** tftp_close */
  function Close(g: Gate): Gate
    requires Sized(g) && (g.packetMode || Sendable(g))
  {
    if g.segment == 0 || !g.handling then g
    else
      var closed := g.(handling := false, prologSent := false);
      if g.packetMode then
        var done := closed.(handled := g.prologSent, segment := 0, packetNumber := 0, packetOffset := 0);
        if g.prologSent then done.(line := g.line.Plus(EPILOG)) else done.(line := SendUnauthorized(g.line).1)
      else if g.written == 0 then closed.(handled := false, line := SendUnauthorized(g.line).1)
      else
        var (_, sent) := PacketizeSegment(g);
        sent.(handled := true, handling := false, prologSent := false)
  }

  /** tftp_error */
  function Fail(g: Gate): Gate {
    g.(handled := false, handling := false)
  }

  // ---------------------------------------------------------------- one transfer

  /** What one datagram makes the TFTP client call: tftp_write, tftp_write and then tftp_close after
      a short block, tftp_error and then tftp_close after an ERROR. */
  datatype Callback = Block(chain: seq<seq<byte>>) | Last(chain: seq<seq<byte>>) | Abort

  lemma CanClose(g: Gate)
    requires Sized(g) && (g.packetMode || g.packetNumber == 0)
    ensures g.packetMode || Sendable(g)
    ensures Sized(Close(g))
  {
  }

  /** The callbacks of a transfer that was asked for, one after another; the client has no handle
      after the last one. */
  function Transfer(g: Gate, script: seq<Callback>): (r: Gate)
    requires Sized(g) && (g.packetMode || g.packetNumber == 0)
    ensures Sized(r)
    decreases |script|
  {
    if script == [] then g
    else
      match script[0]
      case Block(chain) => Transfer(Write(g, chain), script[1..])
      case Last(chain) =>
        CanClose(Write(g, chain));
        Close(Write(g, chain))
      case Abort =>
        CanClose(Fail(g));
        Close(Fail(g))
  }

  // ---------------------------------------------------------------- handleRequest

  /** A request that is waited for without end, or its result. */
  datatype Answer = Hung(gate: Gate) | Answer(ok: bool, gate: Gate)

  const TIME_REQUEST: u32 := 0x7fff_ff00

  function SegmentOf(request: u32): u32 {
    request / 0x100
  }

  function NumberOf(request: u32): u16 {
    request % 0x100
  }

  /** The request is answered from the cache. */
  predicate Hit(g: Gate, request: u32) {
    request != TIME_REQUEST && !g.packetMode && g.segment == SegmentOf(request)
  }

  /** A request the source may be asked: a hit must not read beyond SegmentBuffer. */
  predicate Askable(g: Gate, request: u32) {
    Sized(g) && (Hit(g, request) ==> InBuffer(g.written, NumberOf(request)))
  }

  /** The state in which a request that is no hit begins. */
  function Forget(g: Gate, request: u32): Gate {
    g.(handled := false, handling := true, segment := SegmentOf(request), written := 0)
  }

  /** The attempt to fetch the whole segment. */
  function FetchSegment(g: Gate, request: u32, script: seq<Callback>): Gate
    requires Sized(g)
  {
    var begun := SegmentOpen(Forget(g, request));
    Transfer(begun.(gets := g.gets + [SegmentName(SegmentOf(request))]), script)
  }

  /** The attempt to fetch a prepared packet. */
  function FetchPacket(g: Gate, request: u32, script: seq<Callback>): (r: Gate)
    requires Sized(g)
    ensures Sized(r)
  {
    Transfer(PacketOpen(g.(handling := true)).(gets := g.gets + [PacketName(request)]), script)
  }

  /** What handleRequest does once the segment fetch, if any, is over. */
  function AfterSegment(g: Gate, request: u32, script: seq<Callback>): Answer
    requires Sized(g)
  {
    if g.handled then Answer(true, g)
    else
      var last := FetchPacket(g, request, script);
      if last.handling then Hung(last)
      else if last.handled then Answer(true, last)
      else Answer(false, last.(line := last.line.Plus([0x90, 0x10, 0x06])))
  }

  function HandleRequest(g: Gate, request: u32, segments: seq<Callback>, packets: seq<Callback>): Answer
    requires Askable(g, request)
  {
    if request == TIME_REQUEST then
      var (ok, line) := SendPacket(g.line, Sealed(TIME_BODY));
      Answer(ok, g.(line := line))
    else if Hit(g, request) then
      var (ok, sent) := PacketizeSegment(g.(handled := false, handling := true, packetNumber := NumberOf(request)));
      Answer(ok, sent)
    else if NumberOf(request) == 0 then
      var fetched := FetchSegment(g, request, segments);
      if fetched.handling then Hung(fetched) else AfterSegment(fetched, request, packets)
    else AfterSegment(Forget(g, request), request, packets)
  }

  // ---------------------------------------------------------------- packetRequest

  /** Four bytes, least significant first; None if one of them does not come. */
  function ReadRequest(polls: seq<u16>): (Option<u32>, seq<u16>) {
    var (a, p1) := PollByte(polls, REQUEST_POLLS);
    if a >= 0x100 then (None, p1) else
    var (b, p2) := PollByte(p1, REQUEST_POLLS);
    if b >= 0x100 then (None, p2) else
    var (c, p3) := PollByte(p2, REQUEST_POLLS);
    if c >= 0x100 then (None, p3) else
    var (d, p4) := PollByte(p3, REQUEST_POLLS);
    if d >= 0x100 then (None, p4) else
    (Some(a + 0x100 * b + 0x1_0000 * c + 0x100_0000 * d), p4)
  }

  /** The state in which handleRequest is called. */
  function Asked(g: Gate): Gate {
    g.(line := Line(ReadRequest(g.line.polls).1, g.line.out + [0x10, 0x06, 0xE4]))
  }

  predicate RequestOk(g: Gate) {
    var (request, _) := ReadRequest(g.line.polls);
    request.Some? ==> Askable(g, request.value)
  }

  function PacketRequest(g: Gate, segments: seq<Callback>, packets: seq<Callback>): Answer
    requires RequestOk(g)
  {
    var (request, polls) := ReadRequest(g.line.polls);
    match request
    case None => Answer(false, g.(line := Line(polls, g.line.out + [0x10, 0x06])))
    case Some(value) => HandleRequest(Asked(g), value, segments, packets)
  }

  // ---------------------------------------------------------------- what the machine must say

  lemma ListenTwo(polls: seq<u16>, patience: nat, a: u16, b: u16)
    ensures Listen(polls, patience, 2) == [a, b] <==>
      && InTime(polls, patience) && polls[FirstByte(polls)] == a
      && var rest := Later(polls, patience); InTime(rest, patience) && rest[FirstByte(rest)] == b
  {
    hide Later, FirstByte;
    if InTime(polls, patience) {
      var rest := Later(polls, patience);
      ListenOne(rest, patience);
      var l := Listen(polls, patience, 2);
      assert l == [polls[FirstByte(polls)]] + Listen(rest, patience, 1);
      if InTime(rest, patience) {
        assert l == [polls[FirstByte(polls)], rest[FirstByte(rest)]];
        assert l == [a, b] ==> l[0] == a && l[1] == b;
      } else {
        assert |l| == 1;
      }
    }
  }

  lemma ListenOne(polls: seq<u16>, patience: nat)
    ensures Listen(polls, patience, 1) == if InTime(polls, patience) then [polls[FirstByte(polls)]] else []
  {
    hide Later, FirstByte;
  }

  /** The gateway takes exactly 0x10 0x06, each byte within 0x7FFFFFF polls, for an acknowledgement;
      after a wrong byte, or none, it does not wait for another. */
  lemma AcknowledgedIff(line: Line)
    ensures Acknowledged(line).0 <==> Listen(line.polls, 0x7FF_FFFF, 2) == [0x10, 0x06]
    ensures Acknowledged(line).1.out == line.out
    ensures var after := Later(line.polls, 0x7FF_FFFF);
      Acknowledged(line).1.polls ==
        if Listen(line.polls, 0x7FF_FFFF, 1) == [0x10] then Later(after, 0x7FF_FFFF) else after
  {
    hide Later, FirstByte, ExpectByte, Listen;
    ExpectIff(line.polls, 0x10, ACK_POLLS);
    ExpectIff(Later(line.polls, ACK_POLLS), 0x06, ACK_POLLS);
    ListenTwo(line.polls, ACK_POLLS, 0x10, 0x06);
    ListenOne(line.polls, ACK_POLLS);
  }

  /** A packet goes out, stuffed and terminated, if and only if the machine answers the 0x91 with 0x10
      0x06; otherwise nothing but the 0x91 does. */
  lemma PacketSentIff(line: Line, packet: seq<byte>)
    ensures var (ok, after) := SendPacket(line, packet);
      && (ok <==> Listen(line.polls, 0x7FF_FFFF, 2) == [0x10, 0x06])
      && after.out == line.out + [0x91] + if ok then Stuff(packet) + [0x10, 0xE1] else []
  {
    hide Acknowledged, Stuff;
    AcknowledgedIff(line.Plus([0x91]));
    assert line.out + [0x91] + [] == line.out + [0x91];
  }

  /** A refusal is 0x90, and whether it is acknowledged makes no difference to what is sent. */
  lemma RefusalSent(line: Line)
    ensures SendUnauthorized(line).1.out == line.out + [0x90]
  {
    hide Acknowledged;
    AcknowledgedIff(line.Plus([0x90]));
  }

  /** The prolog of a prepared packet is 0x91, after which two bytes are taken, whatever they are. */
  lemma PrologUnchecked(line: Line)
    ensures OpenFrame(line).out == line.out + [0x91]
    ensures OpenFrame(line).polls == Later(Later(line.polls, 0x7FF_FFFF), 0x7FF_FFFF)
  {
    hide Later, ExpectByte;
    ExpectIff(line.polls, 0x10, ACK_POLLS);
    ExpectIff(Later(line.polls, ACK_POLLS), 0x06, ACK_POLLS);
  }

  /** The number that bytes make, the least significant first. */
  function Little(bytes: seq<u16>): nat {
    if bytes == [] then 0 else bytes[0] + 0x100 * Little(bytes[1..])
  }

  lemma ListenOnce(polls: seq<u16>, patience: nat, n: nat)
    requires n > 0
    ensures var (first, later) := PollByte(polls, patience);
      Listen(polls, patience, n) == if first >= 0x100 then [] else [first] + Listen(later, patience, n - 1)
  {
    hide PollByte, FirstByte, Later;
    PollTakesFirst(polls, patience);
  }

  /** A request comes about if and only if four bytes come, each within 0x7FFFFFFF polls, and it is
      the number they make. */
  lemma RequestReadIff(polls: seq<u16>)
    ensures var bytes := Listen(polls, 0x7FFF_FFFF, 4);
      ReadRequest(polls).0 == if |bytes| == 4 then Some(Little(bytes)) else None
  {
    hide PollByte, Listen;
    var (a, p1) := PollByte(polls, REQUEST_POLLS);
    var (b, p2) := PollByte(p1, REQUEST_POLLS);
    var (c, p3) := PollByte(p2, REQUEST_POLLS);
    var (d, p4) := PollByte(p3, REQUEST_POLLS);
    ListenOnce(polls, REQUEST_POLLS, 4);
    ListenOnce(p1, REQUEST_POLLS, 3);
    ListenOnce(p2, REQUEST_POLLS, 2);
    ListenOnce(p3, REQUEST_POLLS, 1);
    ListenNone(p4);
    LittleFour(a, b, c, d);
    assert [a] + ([b] + ([c] + ([d] + []))) == [a, b, c, d];
  }

  lemma ListenNone(polls: seq<u16>)
    ensures Listen(polls, REQUEST_POLLS, 0) == []
  {
  }

  lemma LittleFour(a: u16, b: u16, c: u16, d: u16)
    ensures Little([a, b, c, d]) == a + 0x100 * b + 0x1_0000 * c + 0x100_0000 * d
  {
    LittleFirst(a, [b, c, d]);
    LittleFirst(b, [c, d]);
    LittleFirst(c, [d]);
    LittleFirst(d, []);
    assert [a] + [b, c, d] == [a, b, c, d] && [b] + [c, d] == [b, c, d] && [c] + [d] == [c, d] && [d] + [] == [d];
  }

  lemma LittleFirst(a: u16, rest: seq<u16>)
    ensures Little([a] + rest) == a + 0x100 * Little(rest)
  {
    assert ([a] + rest)[1..] == rest;
  }

  /** A request that is cut short is acknowledged with 0x10 0x06 and then dropped. */
  lemma ShortRequestDropped(g: Gate, segments: seq<Callback>, packets: seq<Callback>)
    requires |Listen(g.line.polls, 0x7FFF_FFFF, 4)| < 4
    ensures RequestOk(g)
    ensures var a := PacketRequest(g, segments, packets);
      a == Answer(false, g.(line := a.gate.line)) && a.gate.line.out == g.line.out + [0x10, 0x06]
  {
    hide ReadRequest, HandleRequest;
    RequestReadIff(g.line.polls);
  }

  /** The time is told in every state, and changes nothing but the line. */
  lemma TimeAnswer(g: Gate, segments: seq<Callback>, packets: seq<Callback>)
    requires Sized(g)
    ensures Askable(g, 0x7fff_ff00)
    ensures var a := HandleRequest(g, 0x7fff_ff00, segments, packets);
      var ok := Listen(g.line.polls, 0x7FF_FFFF, 2) == [0x10, 0x06];
      && a == Answer(ok, g.(line := a.gate.line))
      && a.gate.line.out == g.line.out + [0x91] + if ok then Stuff(Sealed(TIME_BODY)) + [0x10, 0xE1] else []
  {
    hide SendPacket, Sealed, Stuff, Listen;
    PacketSentIff(g.line, Sealed(TIME_BODY));
  }
}
