/** RRQ and WRQ datagrams: send_request, and the offset arithmetic that takes them apart again. */
module Request {
  import opened Bytes

  const NUL: byte := 0

  /** TFTP_MAX_FILENAME_LEN and TFTP_MAX_MODE_LEN. */
  datatype Limits = Limits(filename: nat, mode: nat) {
    /** A missing terminator must show up as a length over the limit in sixteen bits. */
    predicate Valid() {
      filename + mode + 4 < 0xffff
    }
  }

  datatype Parsed = FilenameTooLong | ModeTooLong | Parsed(filename: seq<byte>, mode: seq<byte>)

  predicate NulFree(s: seq<byte>) {
    NUL !in s
  }

  /** pbuf_memfind for one NUL: its offset from the start of the datagram, 0xffff if there is none. */
  function FindNul(p: seq<byte>, start: nat): (offset: u16)
    requires |p| < 0xffff
    ensures offset != 0xffff ==> start <= offset < |p| && p[offset] == NUL && NulFree(p[start..offset])
    ensures offset == 0xffff ==> start >= |p| || NulFree(p[start..])
    decreases |p| - start
  {
    if start >= |p| then 0xffff
    else if p[start] == NUL then start
    else
      var offset := FindNul(p, start + 1);
      assert offset != 0xffff ==> p[start..offset] == [p[start]] + p[start + 1..offset];
      assert p[start..] == [p[start]] + p[start + 1..];
      offset
  }

  /** (u16_t)(a - b) */
  function Minus(a: u16, b: u16): u16 {
    (a - b) % 0x1_0000
  }

  /** The request datagram: opcode, file name, NUL, mode, NUL. */
  function RequestOf(opcode: byte, filename: seq<byte>, mode: seq<byte>): seq<byte> {
    [0, opcode] + filename + [NUL] + mode + [NUL]
  }

  /** send_request: init_packet leaves four bytes of header, the strings overwrite the last two. */
  method SendRequest(opcode: byte, filename: seq<byte>, mode: seq<byte>) returns (p: array<byte>)
    ensures fresh(p) && p[..] == RequestOf(opcode, filename, mode)
  {
    var filenameLength, modeLength := |filename| + 1, |mode| + 1;
    p := new byte[4 + (filenameLength + modeLength - 2)](_ => 0);
    p[0], p[1] := 0, opcode;
    p[2], p[3] := 0, 0;
    forall i | 0 <= i < filenameLength {
      p[2 + i] := (filename + [NUL])[i];
    }
    forall i | 0 <= i < modeLength {
      p[2 + filenameLength + i] := (mode + [NUL])[i];
    }
    assert p[..] == RequestOf(opcode, filename, mode);
  }

  /** The RRQ/WRQ branch of tftp_recv up to the call of ctx->open. */
  function Parse(p: seq<byte>, limits: Limits): Parsed
    requires 2 <= |p| < 0xffff && limits.Valid()
  {
    var filenameEnd := FindNul(p, 2);
    if Minus(filenameEnd, 1) > limits.filename + 1 then FilenameTooLong
    else
      var modeEnd := FindNul(p, filenameEnd + 1);
      if Minus(modeEnd, filenameEnd) > limits.mode + 1 then ModeTooLong
      else Parsed(p[2..filenameEnd], p[filenameEnd + 1..modeEnd])
  }

  /** The first NUL of a string and its terminator is the terminator. */
  lemma {:induction false} FindsEnd(p: seq<byte>, start: nat, end: nat)
    requires start <= end < |p| < 0xffff && p[end] == NUL && NulFree(p[start..end])
    ensures FindNul(p, start) == end
    decreases end - start
  {
    if start < end {
      assert p[start] == p[start..end][0] && p[start + 1..end] == p[start..end][1..];
      FindsEnd(p, start + 1, end);
    }
  }

  /** What a well-formed request looks like: two terminated strings within the limits. */
  ghost predicate WellFormed(p: seq<byte>, filename: seq<byte>, mode: seq<byte>, limits: Limits) {
    && NulFree(filename) && NulFree(mode)
    && |filename| <= limits.filename && |mode| <= limits.mode
    && 2 <= |p|
    && filename + [NUL] + mode + [NUL] <= p[2..]
  }

  lemma WellFormedParses(p: seq<byte>, filename: seq<byte>, mode: seq<byte>, limits: Limits)
    requires 2 <= |p| < 0xffff && limits.Valid() && WellFormed(p, filename, mode, limits)
    ensures Parse(p, limits) == Parsed(filename, mode)
  {
    var s := filename + [NUL] + mode + [NUL];
    var i, j := 2 + |filename|, 3 + |filename| + |mode|;
    assert forall k | 0 <= k < |s| :: p[2 + k] == p[2..][k] == s[k];
    assert p[2..i] == filename && p[i] == NUL && p[i + 1..j] == mode && p[j] == NUL;
    FindsEnd(p, 2, i);
    FindsEnd(p, i + 1, j);
  }

  lemma ParsedIsWellFormed(p: seq<byte>, limits: Limits)
    requires 2 <= |p| < 0xffff && limits.Valid() && Parse(p, limits).Parsed?
    ensures WellFormed(p, Parse(p, limits).filename, Parse(p, limits).mode, limits)
  {
    var i := FindNul(p, 2);
    var j := FindNul(p, i + 1);
    assert p[2..][..j - 1] == p[2..i] + [NUL] + p[i + 1..j] + [NUL];
  }

  /** A request is accepted, with that file name and mode, exactly when it is well-formed. */
  lemma ParsesIffWellFormed(p: seq<byte>, filename: seq<byte>, mode: seq<byte>, limits: Limits)
    requires 2 <= |p| < 0xffff && limits.Valid()
    ensures Parse(p, limits) == Parsed(filename, mode) <==> WellFormed(p, filename, mode, limits)
  {
    hide Parse, WellFormed;
    if WellFormed(p, filename, mode, limits) {
      WellFormedParses(p, filename, mode, limits);
    }
    if Parse(p, limits) == Parsed(filename, mode) {
      ParsedIsWellFormed(p, limits);
    }
  }

  /** A datagram without both terminators is refused. */
  lemma UnterminatedRefused(p: seq<byte>, limits: Limits)
    requires 2 <= |p| < 0xffff && limits.Valid()
    ensures NulFree(p[2..]) ==> Parse(p, limits) == FilenameTooLong
    ensures forall i | 2 <= i < |p| && p[i] == NUL && NulFree(p[2..i]) && NulFree(p[i + 1..]) ::
      !Parse(p, limits).Parsed?
  {
    forall i | 2 <= i < |p| && p[i] == NUL && NulFree(p[2..i]) && NulFree(p[i + 1..])
      ensures !Parse(p, limits).Parsed?
    {
      FindsEnd(p, 2, i);
    }
  }

  /** What send_request sends is what the other side reads: the operation, the file name, the mode. */
  lemma RequestRoundTrip(opcode: byte, filename: seq<byte>, mode: seq<byte>, limits: Limits)
    requires limits.Valid() && NulFree(filename) && NulFree(mode)
    requires |filename| <= limits.filename && |mode| <= limits.mode
    ensures 2 <= |RequestOf(opcode, filename, mode)| < 0xffff
    ensures Network(RequestOf(opcode, filename, mode), 0) == opcode as int
    ensures Parse(RequestOf(opcode, filename, mode), limits) == Parsed(filename, mode)
  {
    var p := RequestOf(opcode, filename, mode);
    assert p[2..] == filename + [NUL] + mode + [NUL];
    ParsesIffWellFormed(p, filename, mode, limits);
  }
}
