/** duart.c: the serial port as the rest of the gateway uses it. */
module Duart {
  import opened Bytes
  import opened Frame

  /** What a poll returns when no byte is there. */
  const NOTHING: u16 := 0xffff

  /** Poll up to timeout times until a byte arrives: the result and the polls still to come.
      A stream that has run out stands for a silent line. */
  function PollByte(polls: seq<u16>, timeout: nat): (u16, seq<u16>)
    decreases |polls|
  {
    if timeout == 0 || polls == [] then (NOTHING, polls)
    else if polls[0] < 0x100 then (polls[0], polls[1..])
    else PollByte(polls[1..], timeout - 1)
  }

  /** Polling returns the first byte if it comes in time, and otherwise nothing. */
  lemma {:induction false} PollFindsFirst(polls: seq<u16>, timeout: nat, k: nat)
    requires k <= |polls| && forall i | 0 <= i < k :: polls[i] >= 0x100
    ensures k < |polls| && k < timeout && polls[k] < 0x100 ==> PollByte(polls, timeout) == (polls[k], polls[k + 1..])
    ensures k == |polls| || timeout <= k ==> PollByte(polls, timeout) == (0xffff, polls[Min(timeout, k)..])
    decreases k
  {
    if k > 0 && timeout > 0 {
      PollFindsFirst(polls[1..], timeout - 1, k - 1);
    }
  }

  /** 0: the expected byte came; 1: another byte came; 2: none came. */
  function ExpectByte(polls: seq<u16>, expected: byte, timeout: nat): (u16, seq<u16>) {
    var (data, rest) := PollByte(polls, timeout);
    (if data >= 0x100 then 2 else if data == expected as int then 0 else 1, rest)
  }

  /** Which poll finds the first byte; |polls| if none does. */
  function FirstByte(polls: seq<u16>): (k: nat)
    ensures k <= |polls| && (k < |polls| ==> polls[k] < 0x100)
    ensures forall i | 0 <= i < k :: polls[i] >= 0x100
  {
    if polls == [] || polls[0] < 0x100 then 0 else 1 + FirstByte(polls[1..])
  }

  /** A byte comes before the patience is at an end. */
  predicate InTime(polls: seq<u16>, patience: nat) {
    FirstByte(polls) < |polls| && FirstByte(polls) < patience
  }

  /** What is still to come when the first byte was taken, or the patience was at an end. */
  function Later(polls: seq<u16>, patience: nat): seq<u16> {
    if InTime(polls, patience) then polls[FirstByte(polls) + 1..] else polls[Min(patience, FirstByte(polls))..]
  }

  /** The first n bytes that come, each of them in time; fewer if one does not. */
  function Listen(polls: seq<u16>, patience: nat, n: nat): (bytes: seq<u16>)
    ensures |bytes| <= n && forall b <- bytes :: b < 0x100
  {
    if n == 0 || !InTime(polls, patience) then []
    else [polls[FirstByte(polls)]] + Listen(Later(polls, patience), patience, n - 1)
  }

  lemma PollTakesFirst(polls: seq<u16>, patience: nat)
    ensures PollByte(polls, patience)
         == (if InTime(polls, patience) then polls[FirstByte(polls)] else 0xffff, Later(polls, patience))
  {
    PollFindsFirst(polls, patience, FirstByte(polls));
  }

  /** 0, 1 and 2 say exactly whether the expected byte, another one, or none came in time, and no more
      than that byte is taken. */
  lemma ExpectIff(polls: seq<u16>, expected: byte, patience: nat)
    ensures var (code, later) := ExpectByte(polls, expected, patience);
      && (code == 0 <==> InTime(polls, patience) && polls[FirstByte(polls)] == expected as int)
      && (code == 1 <==> InTime(polls, patience) && polls[FirstByte(polls)] != expected as int)
      && (code == 2 <==> !InTime(polls, patience))
      && later == Later(polls, patience)
  {
    hide PollByte, FirstByte, Later;
    PollTakesFirst(polls, patience);
  }

  class Port {
    var polls: seq<u16>  // what the receiver will deliver, poll by poll
    var out: seq<byte>   // everything sent so far

    constructor (incoming: seq<u16>)
      ensures polls == incoming && out == []
    {
      polls, out := incoming, [];
    }

    /** From now on the receiver delivers this. */
    method Hear(incoming: seq<u16>)
      modifies this`polls
      ensures polls == incoming
    {
      polls := incoming;
    }

    method ReadByteNonblocking() returns (data: u16)
      modifies this`polls
      ensures old(polls) == [] ==> data == NOTHING && polls == []
      ensures old(polls) != [] ==> data == old(polls)[0] && polls == old(polls)[1..]
    {
      if polls == [] {
        return NOTHING;
      }
      data := polls[0];
      polls := polls[1..];
    }

    method ReadByteTimeout(timeout: nat) returns (data: u16)
      modifies this`polls
      ensures (data, polls) == PollByte(old(polls), timeout)
    {
      var left: int := timeout;
      while left > 0
        invariant 0 <= left <= timeout
        invariant PollByte(polls, left) == PollByte(old(polls), timeout)
      {
        left := left - 1;
        data := ReadByteNonblocking();
        if data < 0x100 {
          return data;
        }
      }
      return NOTHING;
    }

    method ReadByteExpected(expected: byte, timeout: nat) returns (code: u16)
      modifies this`polls
      ensures (code, polls) == ExpectByte(old(polls), expected, timeout)
    {
      var left: int := timeout;
      while left > 0
        invariant 0 <= left <= timeout
        invariant PollByte(polls, left) == PollByte(old(polls), timeout)
      {
        left := left - 1;
        var data := ReadByteNonblocking();
        if data < 0x100 {
          if data == expected as int {
            return 0;
          }
          return 1;
        }
      }
      return 2;
    }

    method SendRawByte(b: byte)
      modifies this`out
      ensures out == old(out) + [b]
    {
      out := out + [b];
    }

    method SendByte(b: byte)
      modifies this`out
      ensures out == old(out) + StuffByte(b)
    {
      if b == ESCAPE {
        SendRawByte(ESCAPE);
        SendRawByte(ESCAPE);
      } else {
        SendRawByte(b);
      }
    }

    /** duart_sendBytes: escape and send the first size bytes of the buffer. */
    method SendBytes(buf: array<byte>, size: nat)
      requires size <= buf.Length
      modifies this`out
      ensures out == old(out) + Stuff(buf[..size])
    {
      var i := 0;
      while i < size
        invariant i <= size
        invariant out == old(out) + Stuff(buf[..i])
      {
        SendByte(buf[i]);
        StuffConcat(buf[..i], [buf[i]]);
        assert buf[..i + 1] == buf[..i] + [buf[i]];
        i := i + 1;
      }
    }
  }
}
