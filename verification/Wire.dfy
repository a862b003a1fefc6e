/** Datagrams as bytes: what init_packet and its callers put together, and what tftp_recv takes
    apart. */
module Wire {
  import opened Bytes
  import opened Request
  import opened Tftp

  /** A number in network order. */
  function Big(n: u16): (p: seq<byte>)
    ensures |p| == 2
  {
    [Lo(n / 0x100), Lo(n)]
  }

  /** The bytes of a datagram; text is the message of an ERROR. */
  function Encode(d: Datagram, text: seq<byte>): (p: seq<byte>) {
    match d
    case Request(_, raw) => raw
    case Data(block) => Big(3) + Big(block.number) + block.payload
    case Ack(number) => Big(4) + Big(number)
    case Error(code) => Big(5) + Big(code) + text + [NUL]
    case Unknown => Big(0)
  }

  /** What tftp_recv makes of a datagram by its operation. The reader looks at no more of an ERROR
      than its code. */
  function Decode(p: seq<byte>): Datagram
    requires 4 <= |p| < 0xffff
  {
    var operation := Network(p, 0);
    if operation == 1 then Request(false, p)
    else if operation == 2 then Request(true, p)
    else if operation == 3 then Data(Block(Network(p, 2), p[4..]))
    else if operation == 4 then Ack(Network(p, 2))
    else if operation == 5 then Error(Network(p, 2))
    else Unknown
  }

  // ---------------------------------------------------------------- the functions that build them

  /** init_packet, for a payload of size bytes that the caller fills in. */
  method InitPacket(opcode: u16, extra: u16, size: nat) returns (p: array<byte>)
    ensures fresh(p) && p.Length == 4 + size && p[..4] == Big(opcode) + Big(extra)
  {
    hide Lo;
    p := new byte[4 + size](_ => 0);
    p[0], p[1] := Lo(opcode / 0x100), Lo(opcode);
    p[2], p[3] := Lo(extra / 0x100), Lo(extra);
  }

  /** send_ack */
  method AckPacket(number: u16) returns (p: array<byte>)
    ensures fresh(p) && p[..] == Encode(Ack(number), [])
  {
    hide Lo;
    p := InitPacket(4, number, 0);
    assert p[..] == p[..4];
  }

  /** send_error */
  method ErrorPacket(code: u16, text: seq<byte>) returns (p: array<byte>)
    ensures fresh(p) && p[..] == Encode(Error(code), text)
  {
    hide Lo;
    p := InitPacket(5, code, |text| + 1);
    forall i | 0 <= i < |text| + 1 {
      p[4 + i] := (text + [NUL])[i];
    }
    assert p[..4] == Big(5) + Big(code);
    assert p[..] == p[..4] + (text + [NUL]);
  }

  /** send_data, when ctx->read gave payload. */
  method DataPacket(number: u16, payload: seq<byte>) returns (p: array<byte>)
    ensures fresh(p) && p[..] == Encode(Data(Block(number, payload)), [])
  {
    hide Lo;
    p := InitPacket(3, number, |payload|);
    forall i | 0 <= i < |payload| {
      p[4 + i] := payload[i];
    }
    assert p[..4] == Big(3) + Big(number);
    assert p[..] == p[..4] + payload;
  }

  // ---------------------------------------------------------------- round trips

  lemma BigReads(n: u16, p: seq<byte>, at: nat)
    requires at + 2 <= |p| && p[at..at + 2] == Big(n)
    ensures Network(p, at) == n
  {
    hide Lo, Val;
    var q := p[at..at + 2];
    assert p[at] == q[0] && p[at + 1] == q[1];
    NetworkOfBytes(n);
  }

  /** Whatever an endpoint sends is taken by the other for what it is. */
  lemma SentIsTaken(d: Datagram, text: seq<byte>)
    requires !d.Unknown? && WellSized(d) && 4 <= |Encode(d, text)| < 0xffff
    ensures Decode(Encode(d, text)) == d
  {
    hide Network, Big;
    var p := Encode(d, text);
    match d {
      case Request(write, raw) => assert Network(p, 0) == if write then 2 else 1;
      case Data(block) =>
        assert p[0..2] == Big(3) && p[2..4] == Big(block.number) && p[4..] == block.payload;
        BigReads(3, p, 0);
        BigReads(block.number, p, 2);
      case Ack(number) =>
        assert p[0..2] == Big(4) && p[2..4] == Big(number);
        BigReads(4, p, 0);
        BigReads(number, p, 2);
      case Error(code) =>
        assert p[0..2] == Big(5) && p[2..4] == Big(code);
        BigReads(5, p, 0);
        BigReads(code, p, 2);
    }
  }

  /** Nothing more than that is in a datagram: ACKs have four bytes, blocks four and their payload,
      ERRORs four, the message and a NUL. */
  lemma SentIsThatLong(n: u16, payload: seq<byte>, text: seq<byte>)
    ensures |Encode(Ack(n), [])| == 4
    ensures var p := Encode(Data(Block(n, payload)), []); |p| == 4 + |payload| && p[4..] == payload
    ensures var p := Encode(Error(n), text); |p| == 5 + |text| && p[4..] == text + [0]
  {
    hide Lo;
  }

  /** Only what reads as one is taken for a request, and it is one for reading or for writing by its
      operation. */
  lemma TakenIsWellSized(p: seq<byte>)
    requires 4 <= |p| < 0xffff
    ensures WellSized(Decode(p))
    ensures Decode(p).Request? ==> Decode(p).raw == p
  {
    hide Network;
  }

  lemma RequestTaken(opcode: byte, filename: seq<byte>, mode: seq<byte>, cfg: Config)
    requires opcode == 1 || opcode == 2
    requires cfg.Valid() && NulFree(filename) && NulFree(mode)
    requires |filename| <= cfg.limits.filename && |mode| <= cfg.limits.mode
    ensures var p := RequestOf(opcode, filename, mode);
      && 4 <= |p| < 0xffff && Decode(p) == Request(opcode == 2, p)
      && Parse(p, cfg.limits) == Parsed(filename, mode)
  {
    RequestRoundTrip(opcode, filename, mode, cfg.limits);
    assert |RequestOf(opcode, filename, mode)| >= 4;
    hide Network, RequestOf, Parse;
  }

  /** What tftp_get sends is served as a read request for that file: its first block comes back. What
      tftp_put sends is served as a write request: ACK 0 comes back. */
  lemma RequestsServed(me: Peer, you: Peer, filename: seq<byte>, mode: seq<byte>, env: Env, cfg: Config)
    requires cfg.Valid() && NulFree(filename) && NulFree(mode) && env.sendOk && env.openOk && env.bufferOk && env.read.Some?
    requires |filename| <= cfg.limits.filename && |mode| <= cfg.limits.mode
    ensures var get := Get(Idle(false, true), you, filename, mode, env);
      exists raw :: get.effects == [Sent(you, Request(false, raw))] && 4 <= |raw| < 0xffff &&
        WellSized(Decode(raw)) &&
        Recv(Idle(true, false), me, Decode(raw), env, cfg).effects
          == [Opened(filename, mode), Fetched(env.read.value), Sent(me, Data(Block(1, env.read.value)))]
    ensures var put := PutFile(Idle(false, true), you, filename, mode, env);
      exists raw :: put.effects == [Sent(you, Request(true, raw))] && 4 <= |raw| < 0xffff &&
        WellSized(Decode(raw)) &&
        Recv(Idle(true, false), me, Decode(raw), env, cfg).effects == [Opened(filename, mode), Sent(me, Ack(0))]
  {
    hide Parse, RequestOf, Decode;
    RequestTaken(1, filename, mode, cfg);
    RequestTaken(2, filename, mode, cfg);
    var reading, writing := RequestOf(1, filename, mode), RequestOf(2, filename, mode);
    TakenIsWellSized(reading);
    TakenIsWellSized(writing);
  }
}
