/** Byte stuffing on the serial line: what duart_sendBytes and sendPacketEpilog put on the wire,
    and what the other end reads back. */
module Frame {
  import opened Bytes

  const ESCAPE: byte := 0x10
  const END: byte := 0xE1

  function StuffByte(b: byte): seq<byte> {
    if b == ESCAPE then [ESCAPE, ESCAPE] else [b]
  }

  /** data with every 0x10 doubled. */
  function Stuff(data: seq<byte>): seq<byte> {
    if data == [] then [] else StuffByte(data[0]) + Stuff(data[1..])
  }

  const EPILOG: seq<byte> := [ESCAPE, END]

  function FrameOf(data: seq<byte>): seq<byte> {
    Stuff(data) + EPILOG
  }

  /** What the reader of a byte stream makes of it. */
  datatype Read = Incomplete | Malformed | Frame(data: seq<byte>, rest: seq<byte>)

  function Prepend(b: byte, r: Read): Read {
    match r
    case Frame(data, rest) => Frame([b] + data, rest)
    case _ => r
  }

  /** Collapse 0x10 0x10 and stop at 0x10 0xE1. */
  function Unstuff(s: seq<byte>): Read
    decreases |s|
  {
    if s == [] then Incomplete
    else if s[0] != 0x10 then Prepend(s[0], Unstuff(s[1..]))
    else if |s| == 1 then Incomplete
    else if s[1] == 0x10 then Prepend(0x10, Unstuff(s[2..]))
    else if s[1] == 0xE1 then Frame([], s[2..])
    else Malformed
  }

  lemma StuffFirst(b: byte, s: seq<byte>)
    ensures Stuff([b] + s) == StuffByte(b) + Stuff(s)
  {
    assert ([b] + s)[1..] == s;
  }

  lemma StuffMore(first: byte, rest: seq<byte>, more: seq<byte>)
    requires Stuff(rest + more) == Stuff(rest) + Stuff(more)
    ensures Stuff([first] + rest + more) == Stuff([first] + rest) + Stuff(more)
  {
    hide Stuff, StuffByte;
    Associative([first], rest, more);
    StuffFirst(first, rest + more);
    StuffFirst(first, rest);
    Associative(StuffByte(first), Stuff(rest), Stuff(more));
  }

  lemma {:induction false} StuffConcat(a: seq<byte>, b: seq<byte>)
    ensures Stuff(a + b) == Stuff(a) + Stuff(b)
    decreases |a|
  {
    if a == [] {
      assert a + b == b;
    } else {
      hide Stuff;
      var rest := a[1..];
      assert [a[0]] + rest == a;
      StuffConcat(rest, b);
      StuffMore(a[0], rest, b);
    }
  }

  /** The reader takes stuffed bytes one by one. */
  lemma UnstuffStep(b: byte, s: seq<byte>)
    ensures Unstuff(StuffByte(b) + s) == Prepend(b, Unstuff(s))
  {
    var t := StuffByte(b) + s;
    if b == ESCAPE {
      assert t[2..] == s;
    } else {
      assert t[1..] == s;
    }
  }

  lemma FrameFirst(b: byte, data: seq<byte>, rest: seq<byte>)
    ensures FrameOf([b] + data) + rest == StuffByte(b) + (FrameOf(data) + rest)
  {
    hide Stuff, StuffByte;
    StuffFirst(b, data);
    Associative(StuffByte(b), Stuff(data), EPILOG);
    Associative(StuffByte(b), FrameOf(data), rest);
  }

  /** Reading a frame returns its data and leaves what follows. */
  lemma {:induction false} RoundTrip(data: seq<byte>, rest: seq<byte>)
    ensures Unstuff(FrameOf(data) + rest) == Frame(data, rest)
    decreases |data|
  {
    if data == [] {
      assert FrameOf(data) + rest == EPILOG + rest;
      assert (EPILOG + rest)[2..] == rest;
    } else {
      hide Unstuff, FrameOf, StuffByte;
      var tail := data[1..];
      assert [data[0]] + tail == data;
      RoundTrip(tail, rest);
      FrameFirst(data[0], tail, rest);
      UnstuffStep(data[0], FrameOf(tail) + rest);
    }
  }

  /** Only a frame reads as a frame. */
  lemma {:induction false} ReadIsFrame(s: seq<byte>)
    requires Unstuff(s).Frame?
    ensures s == FrameOf(Unstuff(s).data) + Unstuff(s).rest
    decreases |s|
  {
    var k := if s[0] == ESCAPE then 2 else 1;
    if s[0] == ESCAPE && s[1] == END {
      assert s == EPILOG + s[2..];
    } else {
      ReadIsFrame(s[k..]);
      var r := Unstuff(s[k..]);
      var d := Unstuff(s).data;
      assert s == StuffByte(s[0]) + s[k..];
      assert d == [s[0]] + r.data && d[1..] == r.data;
    }
  }

  /** Stuffed data alone is never mistaken for a complete frame. */
  lemma {:induction false} StuffedIsIncomplete(data: seq<byte>)
    ensures Unstuff(Stuff(data)) == Incomplete
    decreases |data|
  {
    if data != [] {
      StuffedIsIncomplete(data[1..]);
      UnstuffStep(data[0], Stuff(data[1..]));
    }
  }

  /** No frame is a proper prefix of another: the end of a frame is where the reader says it is. */
  lemma PrefixFree(a: seq<byte>, b: seq<byte>)
    requires FrameOf(a) <= FrameOf(b)
    ensures a == b
  {
    var rest := FrameOf(b)[|FrameOf(a)|..];
    assert FrameOf(b) == FrameOf(a) + rest;
    assert FrameOf(b) + [] == FrameOf(b);
    RoundTrip(a, rest);
    RoundTrip(b, []);
  }
}
