/** Which datagram makes an endpoint send what, call what and close: for every datagram that can be
    sent, exactly the situations in which it is. */
module TftpAnswers {
  import opened Bytes
  import opened Request
  import opened Tftp

  predicate Sends(o: Outcome, to: Peer, d: Datagram) {
    Sent(to, d) in o.effects
  }

  /** A request this endpoint would open a file for. */
  predicate Welcome(s: Engine, d: Datagram, cfg: Config)
    requires cfg.Valid() && WellSized(d)
  {
    d.Request? && !s.open && s.server && Parse(d.raw, cfg.limits).Parsed?
  }

  /** A block for a session that receives. */
  predicate Receiving(s: Engine, d: Datagram) {
    d.Data? && s.open && s.writing
  }

  /** An ACK for a session that sends. */
  predicate Sending(s: Engine, d: Datagram) {
    d.Ack? && s.open && !s.writing
  }

  /** The number of the block before this one. */
  predicate Precedes(n: u16, m: u16) {
    (m - n) % 0x1_0000 == 1
  }

  /** A matching ACK of a block that was not the last. */
  predicate Demands(s: Engine, d: Datagram) {
    Sending(s, d) && d.number == s.blknum && (s.last.Some? ==> |s.last.value.payload| == 512)
  }

  /** A block of the file is due, with this number. */
  predicate Due(s: Engine, d: Datagram, env: Env, cfg: Config, number: u16)
    requires cfg.Valid() && WellSized(d)
  {
    || (Welcome(s, d, cfg) && !d.write && env.openOk && number == 1)
    || (Demands(s, d) && Precedes(d.number, number))
  }

  predicate AnyDue(s: Engine, d: Datagram, env: Env, cfg: Config)
    requires cfg.Valid() && WellSized(d)
  {
    (Welcome(s, d, cfg) && !d.write && env.openOk) || Demands(s, d)
  }

  function Reply(to: Peer, d: Datagram, env: Env): seq<Effect> {
    if env.sendOk then [Sent(to, d)] else []
  }

  /** A block that is due is read and sent, unless there is no memory for it or it cannot be read. */
  function Fetching(number: u16, from: Peer, env: Env): seq<Effect> {
    if !env.bufferOk then []
    else if env.read.None? then [FetchFailed] + Reply(from, Error(2), env) + [Closed]
    else [Fetched(env.read.value)] + Reply(from, Data(Block(number, env.read.value)), env)
  }

  /** Datagrams sent and callbacks made, in their order. */
  function EffectsAre(s: Engine, from: Peer, d: Datagram, env: Env, cfg: Config): seq<Effect>
    requires cfg.Valid() && WellSized(d)
  {
    match d
    case Request(_, raw) =>
      if !Welcome(s, d, cfg) then Reply(from, Error(2), env)
      else if !env.openOk then Reply(from, Error(1), env)
      else var p := Parse(raw, cfg.limits);
           [Opened(p.filename, p.mode)] + if d.write then Reply(from, Ack(0), env) else Fetching(1, from, env)
    case Data(b) =>
      if !Receiving(s, d) then Reply(from, Error(2), env)
      else if b.number == s.blknum && env.writeOk then
        [Wrote(b.payload, true)] + Reply(from, Ack(b.number), env) + (if |b.payload| < 512 then [Closed] else [])
      else if b.number == s.blknum then [Wrote(b.payload, false)] + Reply(from, Error(2), env) + [Closed]
      else Reply(from, if Precedes(b.number, s.blknum) then Ack(b.number) else Error(5), env)
    case Ack(n) =>
      if !Sending(s, d) then Reply(from, Error(2), env)
      else if n != s.blknum then Reply(from, Error(5), env)
      else if Demands(s, d) then Fetching((n + 1) % 0x1_0000, from, env)
      else [Closed]
    case Error(code) => if s.open then [Failed(Unconverted(code)), Closed] else []
    case Unknown => Reply(from, Error(4), env)
  }

  lemma EffectsOf(s: Engine, from: Peer, d: Datagram, env: Env, cfg: Config)
    requires cfg.Valid() && WellSized(d) && !Stranger(s, from)
    ensures Recv(s, from, d, env, cfg).effects == EffectsAre(s, from, d, env, cfg)
  {
    match d {
      case Request(_, _) => hide Parse, RecvData, RecvAck, RecvError;
      case Data(_) => hide RecvRequest, RecvAck, RecvError, SendData;
      case Ack(_) => hide RecvRequest, RecvData, RecvError;
      case _ => hide RecvRequest, RecvData, RecvAck, SendData;
    }
  }

  /** A session that has a peer hears it and nobody else; without one everybody is heard. */
  lemma StrangerIff(s: Engine, from: Peer)
    ensures s.peer.addr != 0 && s.peer.port != 0 ==> (Stranger(s, from) <==> from != s.peer)
    ensures s.peer.addr == 0 && s.peer.port == 0 ==> !Stranger(s, from)
  {
  }

  /** ERROR 1: the file cannot be opened. */
  lemma NotFound(s: Engine, from: Peer, d: Datagram, env: Env, cfg: Config)
    requires cfg.Valid() && WellSized(d) && !Stranger(s, from) && env.sendOk
    ensures Sends(Recv(s, from, d, env, cfg), from, Error(1)) <==> Welcome(s, d, cfg) && !env.openOk
  {
    EffectsOf(s, from, d, env, cfg);
    hide Recv, Parse, Stranger;
  }

  /** ERROR 4: no such operation. */
  lemma NoSuchOperation(s: Engine, from: Peer, d: Datagram, env: Env, cfg: Config)
    requires cfg.Valid() && WellSized(d) && !Stranger(s, from) && env.sendOk
    ensures Sends(Recv(s, from, d, env, cfg), from, Error(4)) <==> d.Unknown?
  {
    EffectsOf(s, from, d, env, cfg);
    hide Recv, Parse, Stranger;
  }

  /** ERROR 5: a wrong block number. */
  lemma WrongNumbers(s: Engine, from: Peer, d: Datagram, env: Env, cfg: Config)
    requires cfg.Valid() && WellSized(d) && !Stranger(s, from) && env.sendOk
    ensures Sends(Recv(s, from, d, env, cfg), from, Error(5)) <==>
      || (Receiving(s, d) && d.block.number != s.blknum && !Precedes(d.block.number, s.blknum))
      || (Sending(s, d) && d.number != s.blknum)
  {
    EffectsOf(s, from, d, env, cfg);
    hide Recv, Parse, Stranger;
  }

  /** ERROR 2. */
  lemma Violations(s: Engine, from: Peer, d: Datagram, env: Env, cfg: Config)
    requires cfg.Valid() && WellSized(d) && !Stranger(s, from) && env.sendOk
    ensures Sends(Recv(s, from, d, env, cfg), from, Error(2)) <==>
      || (d.Request? && !Welcome(s, d, cfg))
      || (d.Data? && !Receiving(s, d))
      || (d.Ack? && !Sending(s, d))
      || (Receiving(s, d) && d.block.number == s.blknum && !env.writeOk)
      || (AnyDue(s, d, env, cfg) && env.bufferOk && env.read.None?)
  {
    EffectsOf(s, from, d, env, cfg);
    hide Recv, Parse, Stranger;
  }

  /** ACKs: 0 for a request to write, and otherwise of the block received, if it was the expected one
      and could be written, or the one before. */
  lemma Acknowledgements(s: Engine, from: Peer, d: Datagram, env: Env, cfg: Config, n: u16)
    requires cfg.Valid() && WellSized(d) && !Stranger(s, from) && env.sendOk
    ensures Sends(Recv(s, from, d, env, cfg), from, Ack(n)) <==>
      || (Welcome(s, d, cfg) && d.write && env.openOk && n == 0)
      || (Receiving(s, d) && n == d.block.number && ((n == s.blknum && env.writeOk) || Precedes(n, s.blknum)))
  {
    EffectsOf(s, from, d, env, cfg);
    hide Recv, Parse, Stranger;
  }

  /** Blocks: the first on a request to read, the next on a matching ACK. */
  lemma Blocks(s: Engine, from: Peer, d: Datagram, env: Env, cfg: Config, b: Block)
    requires cfg.Valid() && WellSized(d) && !Stranger(s, from) && env.sendOk
    ensures Sends(Recv(s, from, d, env, cfg), from, Data(b)) <==>
      env.bufferOk && env.read == Some(b.payload) && Due(s, d, env, cfg, b.number)
  {
    EffectsOf(s, from, d, env, cfg);
    hide Recv, Parse, Stranger;
  }

  /** Nothing else is sent, and nothing to anyone else. */
  lemma NothingElse(s: Engine, from: Peer, d: Datagram, env: Env, cfg: Config)
    requires cfg.Valid() && WellSized(d)
    ensures forall e <- Recv(s, from, d, env, cfg).effects :: e.Sent? ==>
      && e.to == from
      && (e.datagram.Data? || e.datagram.Ack? || (e.datagram.Error? && e.datagram.code in {1, 2, 4, 5}))
  {
    if Stranger(s, from) {
      hide RecvRequest, RecvData, RecvAck, RecvError;
    } else {
      EffectsOf(s, from, d, env, cfg);
      hide Recv, Parse, Stranger;
    }
  }

  /** ctx->write, for the expected block. */
  lemma Writes(s: Engine, from: Peer, d: Datagram, env: Env, cfg: Config, p: seq<byte>, ok: bool)
    requires cfg.Valid() && WellSized(d) && !Stranger(s, from)
    ensures Wrote(p, ok) in Recv(s, from, d, env, cfg).effects <==>
      Receiving(s, d) && d.block.number == s.blknum && p == d.block.payload && ok == env.writeOk
  {
    EffectsOf(s, from, d, env, cfg);
    hide Recv, Parse, Stranger;
  }

  /** ctx->error, for an ERROR, with the two bytes of its code exchanged. */
  lemma Failures(s: Engine, from: Peer, d: Datagram, env: Env, cfg: Config, c: u16)
    requires cfg.Valid() && WellSized(d) && !Stranger(s, from)
    ensures Failed(c) in Recv(s, from, d, env, cfg).effects <==>
      d.Error? && s.open && c / 0x100 == d.code % 0x100 && c % 0x100 == d.code / 0x100
  {
    EffectsOf(s, from, d, env, cfg);
    hide Recv, Parse, Stranger;
  }

  /** A handle from ctx->open, for a request. */
  lemma Openings(s: Engine, from: Peer, d: Datagram, env: Env, cfg: Config, f: seq<byte>, m: seq<byte>)
    requires cfg.Valid() && WellSized(d) && !Stranger(s, from)
    ensures Opened(f, m) in Recv(s, from, d, env, cfg).effects <==>
      Welcome(s, d, cfg) && env.openOk && Parse(d.raw, cfg.limits) == Parsed(f, m)
  {
    EffectsOf(s, from, d, env, cfg);
    hide Recv, Parse, Stranger;
  }

  /** ctx->read, for a block that is due. */
  lemma Reads(s: Engine, from: Peer, d: Datagram, env: Env, cfg: Config, p: seq<byte>)
    requires cfg.Valid() && WellSized(d) && !Stranger(s, from)
    ensures Fetched(p) in Recv(s, from, d, env, cfg).effects <==>
      AnyDue(s, d, env, cfg) && env.bufferOk && env.read == Some(p)
  {
    EffectsOf(s, from, d, env, cfg);
    hide Recv, Parse, Stranger;
  }

  /** The session is closed by an ERROR, by a failure to write or to read, after a short block was
      received, and by the ACK of a short block; by nothing else. */
  lemma Closing(s: Engine, from: Peer, d: Datagram, env: Env, cfg: Config)
    requires cfg.Valid() && WellSized(d) && !Stranger(s, from)
    ensures Closed in Recv(s, from, d, env, cfg).effects <==>
      || (d.Error? && s.open)
      || (Receiving(s, d) && d.block.number == s.blknum && (!env.writeOk || |d.block.payload| < 512))
      || (Sending(s, d) && d.number == s.blknum && !Demands(s, d))
      || (AnyDue(s, d, env, cfg) && env.bufferOk && env.read.None?)
    ensures Recv(s, from, d, env, cfg).engine.open <==>
      (s.open || (Welcome(s, d, cfg) && env.openOk)) && Closed !in Recv(s, from, d, env, cfg).effects
  {
    EffectsOf(s, from, d, env, cfg);
    hide Recv, Parse, Stranger;
  }

  /** The block number afterwards: 1 when an opening was tried, one further after a full block was
      received, even if it could not be written, and after an ACK that asks for the next; otherwise
      as before. */
  lemma Numbers(s: Engine, from: Peer, d: Datagram, env: Env, cfg: Config)
    requires cfg.Valid() && WellSized(d)
    ensures var number := Recv(s, from, d, env, cfg).engine.blknum;
      if Stranger(s, from) then number == s.blknum
      else if Welcome(s, d, cfg) then number == 1
      else if (Receiving(s, d) && d.block.number == s.blknum && |d.block.payload| >= 512) || Demands(s, d) then
        Precedes(s.blknum, number)
      else number == s.blknum
  {
    match d {
      case Request(_, _) => hide Parse, RecvData, RecvAck, RecvError;
      case Data(_) => hide RecvRequest, RecvAck, RecvError, SendData;
      case Ack(_) => hide RecvRequest, RecvData, RecvError;
      case _ => hide RecvRequest, RecvData, RecvAck, SendData;
    }
  }

  /** The block that is held afterwards: the one just read; none when there was no memory for it or
      the session closed; otherwise the one before. */
  lemma HeldBlock(s: Engine, from: Peer, d: Datagram, env: Env, cfg: Config)
    requires cfg.Valid() && WellSized(d)
    ensures var o := Recv(s, from, d, env, cfg);
      if Stranger(s, from) then o.engine.last == s.last
      else if Closed in o.effects then o.engine.last == None && o.engine.peer == Peer(0, 0)
      else if AnyDue(s, d, env, cfg) then
        o.engine.last == if env.bufferOk && env.read.Some? then Some(Block(o.engine.blknum, env.read.value)) else None
      else o.engine.last == s.last
  {
    match d {
      case Request(_, _) => hide Parse, RecvData, RecvAck, RecvError;
      case Data(_) => hide RecvRequest, RecvAck, RecvError, SendData;
      case Ack(_) => hide RecvRequest, RecvData, RecvError;
      case _ => hide RecvRequest, RecvData, RecvAck, SendData;
    }
  }

  /** A session belongs to whoever asked for it, and receives if it was asked to write; both stay so
      until it closes. */
  lemma Belonging(s: Engine, from: Peer, d: Datagram, env: Env, cfg: Config)
    requires cfg.Valid() && WellSized(d)
    ensures var o := Recv(s, from, d, env, cfg);
      var begins := !Stranger(s, from) && Welcome(s, d, cfg) && env.openOk;
      && o.engine.writing == (if begins then d.write else s.writing)
      && (Closed !in o.effects ==> o.engine.peer == if begins then from else s.peer)
      && o.engine.timer == s.timer && o.engine.server == s.server && o.engine.client == s.client
  {
    match d {
      case Request(_, _) => hide Parse, RecvData, RecvAck, RecvError;
      case Data(_) => hide RecvRequest, RecvAck, RecvError, SendData;
      case Ack(_) => hide RecvRequest, RecvData, RecvError;
      case _ => hide RecvRequest, RecvData, RecvAck, SendData;
    }
  }

  /** Without a session the clock does nothing but count. */
  lemma ClockAlone(s: Engine, env: Env, cfg: Config)
    requires !s.open
    ensures Tick(s, env, cfg) == Outcome(s.(timer := s.timer + 1), [])
  {
  }

  /** Without the role of a client nothing can be asked for. */
  lemma OnlyClientsAsk(s: Engine, to: Peer, filename: seq<byte>, mode: seq<byte>, env: Env)
    requires !s.client
    ensures Get(s, to, filename, mode, env) == Outcome(s, []) == PutFile(s, to, filename, mode, env)
  {
  }
}
