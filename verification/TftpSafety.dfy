/** What every run of the transfer keeps: the server's remaining steps, and the theorems about whole
    runs. */
module TftpSafety {
  import opened Bytes
  import opened Request
  import opened Tftp
  import opened TftpNet

  // ---------------------------------------------------------------- the server moves to a block

  /** The server has moved to block i and holds it, lacks the memory for it, or has closed. */
  ghost predicate ArrivedAt(t: Engine, i: nat, position: nat, y: Sys, sessions: nat, file: seq<byte>)
    requires i > 0
  {
    && t.server && Clean(t)
    && (t.open ==>
        && !t.writing && t.peer == CLIENT && t.blknum == Number(i)
        && (t.last.None? ==> position == StartOf(file, i) && (sessions == 1 ==> y.expected == i))
        && (t.last.Some? ==>
            t.last.value == Block(Number(i), BlockAt(file, i)) && position == Min(i * BLOCK_SIZE, |file|)))
  }

  lemma ServerMoves(y: Sys, z: Sys, more: multiset<Msg>, i: nat, file: seq<byte>)
    requires Invariant(y, file) && 1 <= i <= Blocks(file) && i <= y.expected
    requires z == y.(server := z.server, sent := i, position := z.position, net := z.net, sessions := z.sessions)
    requires z.sessions >= 1 && z.net <= y.net + more
    requires ArrivedAt(z.server, i, z.position, y, z.sessions, file)
    requires z.server.open && z.sessions == 1 ==>
      y.expected <= i + 1 && forall m <- y.net :: m.datagram.Data? ==> m.index < i
    requires forall m <- more ::
      MsgOk(m, y.expected, file) && m.index == i && (z.server.open ==> z.server.last.Some?)
    ensures Invariant(z, file)
  {
    hide MsgOk, ClientOk;
    NetStaysOk(y, z, more, file);
    assert ClientOk(z, file) by { ClientFramed(y, z, file); }
    forall m <- z.net | m.datagram.Data? && z.server.open && z.sessions == 1
      ensures m.index <= i && (z.server.last.None? ==> m.index < i)
    {
      if m !in y.net {
        assert m in more;
      }
    }
  }

  /** ServerSends as the step of the whole system. */
  lemma ServerArrives(t: Engine, i: nat, env: Env, diskOk: bool, y: Sys, sessions: nat, file: seq<byte>)
    requires 1 <= i <= Blocks(file) && i <= y.expected
    requires t.open && t.server && !t.writing && t.peer == CLIENT && t.blknum == Number(i)
    requires env.read == ReadAt(file, StartOf(file, i), diskOk)
    requires !env.bufferOk && sessions == 1 ==> y.expected == i
    ensures var o := SendData(t, CLIENT, env);
      && ArrivedAt(o.engine, i, StartOf(file, i) + Fetches(o.effects), y, sessions, file)
      && o.effects != [Closed] && (o.effects != [] ==> !o.effects[0].Opened?)
      && (forall m <- Outgoing(o.effects, false, i) ::
            MsgOk(m, y.expected, file) && m.index == i && (o.engine.open ==> o.engine.last.Some?))
      && o.engine.blknum == t.blknum
  {
    hide SendData, MsgOk;
    ServerSends(t, i, env, diskOk, y.expected, file);
    var o := SendData(t, CLIENT, env);
    OutgoingOk(o.effects, false, i, y.expected, file);
  }

  // ---------------------------------------------------------------- a request arrives

  lemma RequestCases(s: Engine, raw: seq<byte>, env: Env, cfg: Config)
    requires cfg.Valid() && WellSized(Request(false, raw)) && s.server && Clean(s)
    requires s.open ==> s.peer == CLIENT
    ensures var o := Recv(s, CLIENT, Request(false, raw), env, cfg);
      var begins := !s.open && Parse(raw, cfg.limits).Parsed? && env.openOk;
      var t := s.(lastPacket := s.timer, retries := 0, open := true, blknum := 1, peer := CLIENT, writing := false);
      && (begins ==>
            exists e: Effect :: e.Opened? && o == SendData(t, CLIENT, env).After([e]))
      && (!begins ==>
            && (s.open ==> o.engine == s.(lastPacket := s.timer, retries := 0))
            && (!s.open ==> !o.engine.open && o.engine.server && Clean(o.engine))
            && (o.effects == [] || exists code :: o.effects == [Sent(CLIENT, Error(code))]))
  {
    hide Parse, SendData;
    var p := Parse(raw, cfg.limits);
    if !s.open && p.Parsed? && env.openOk {
      assert Opened(p.filename, p.mode).Opened?;
    }
  }

  lemma ErrorsOut(code: u16, index: nat, expected: nat, file: seq<byte>)
    ensures forall m <- Outgoing([Sent(CLIENT, Error(code))], false, index) ::
      MsgOk(m, expected, file) && !m.datagram.Data?
    ensures Fetches([Sent(CLIENT, Error(code))]) == 0
  {
    assert [Sent(CLIENT, Error(code))][1..] == [];
  }

  lemma OpenedFirst(e: Effect, o: Outcome, index: nat)
    requires e.Opened?
    ensures o.After([e]).effects[0] == e && o.After([e]).engine == o.engine
    ensures Outgoing(o.After([e]).effects, false, index) == Outgoing(o.effects, false, index)
    ensures Fetches(o.After([e]).effects) == Fetches(o.effects)
  {
    assert ([e] + o.effects)[1..] == o.effects;
  }

  lemma RequestIsRead(m: Msg, expected: nat, file: seq<byte>)
    requires MsgOk(m, expected, file) && m.datagram.Request?
    ensures m.toServer && !m.datagram.write && WellSized(m.datagram)
  {
  }

  lemma RequestRefusedKeeps(y: Sys, m: Msg, env: Env, file: seq<byte>, cfg: Config)
    requires cfg.Valid() && Invariant(y, file) && m in y.net && MsgOk(m, y.expected, file) && m.datagram.Request?
    requires y.server.open || !Parse(m.datagram.raw, cfg.limits).Parsed? || !env.openOk
    ensures Invariant(AtServer(y, m, env, file, cfg), file)
  {
    hide FirstSession, ClientOk, Recv, Parse, MsgOk, NetOk;
    RequestIsRead(m, y.expected, file);
    var z := AtServer(y, m, env, file, cfg);
    var position := if y.server.open then y.position else 0;
    var o := Recv(y.server, CLIENT, m.datagram, env.(read := ReadAt(file, position, env.read.Some?)), cfg);
    RequestCases(y.server, m.datagram.raw, env.(read := ReadAt(file, position, env.read.Some?)), cfg);
    var more := Outgoing(o.effects, false, z.sent);
    if o.effects != [] {
      var code :| o.effects == [Sent(CLIENT, Error(code))];
      ErrorsOut(code, z.sent, y.expected, file);
    }
    ServerUnmoved(y, z, more, file);
  }

  lemma ClientAtLeastOne(y: Sys, file: seq<byte>)
    requires ClientOk(y, file)
    ensures 1 <= y.expected <= Blocks(file) + 1
  {
  }

  /** The server's step on a request that begins a session. */
  lemma RequestDelivered(y: Sys, m: Msg, env: Env, e: Effect, o: Outcome, file: seq<byte>, cfg: Config)
    requires cfg.Valid() && m.datagram.Request? && WellSized(m.datagram) && !y.server.open && e.Opened?
    requires Recv(y.server, CLIENT, m.datagram, env.(read := ReadAt(file, 0, env.read.Some?)), cfg) == o.After([e])
    ensures AtServer(y, m, env, file, cfg)
         == y.(server := o.engine, sent := 1, position := Fetches(o.effects), sessions := y.sessions + 1,
               net := y.net - multiset{m} + Outgoing(o.effects, false, 1))
  {
    OpenedFirst(e, o, 1);
    hide Recv, Outgoing, Fetches, ReadAt;
  }

  lemma RequestBeginsKeeps(y: Sys, m: Msg, env: Env, file: seq<byte>, cfg: Config)
    requires cfg.Valid() && Invariant(y, file) && m in y.net && MsgOk(m, y.expected, file) && m.datagram.Request?
    requires !y.server.open && Parse(m.datagram.raw, cfg.limits).Parsed? && env.openOk
    ensures Invariant(AtServer(y, m, env, file, cfg), file)
  {
    hide ClientOk, Recv, Parse, MsgOk, NetOk, SendData, AtServer, Outgoing, Fetches;
    RequestIsRead(m, y.expected, file);
    assert 1 <= y.expected by { ClientAtLeastOne(y, file); }
    var e1 := env.(read := ReadAt(file, 0, env.read.Some?));
    RequestCases(y.server, m.datagram.raw, e1, cfg);
    var s := y.server;
    var t := s.(lastPacket := s.timer, retries := 0, open := true, blknum := 1, peer := CLIENT, writing := false);
    var e: Effect :| e.Opened? && Recv(s, CLIENT, m.datagram, e1, cfg) == SendData(t, CLIENT, e1).After([e]);
    var o := SendData(t, CLIENT, e1);
    RequestDelivered(y, m, env, e, o, file, cfg);
    ServerArrives(t, 1, e1, env.read.Some?, y, y.sessions + 1, file);
    ServerMoves(y, AtServer(y, m, env, file, cfg), Outgoing(o.effects, false, 1), 1, file);
  }

  // ---------------------------------------------------------------- an acknowledgement arrives

  /** When an ACK matches, the server holds its block and the client has it. */
  lemma AckMatches(y: Sys, m: Msg, env: Env, file: seq<byte>)
    requires Invariant(y, file) && m in y.net && m.datagram.Ack?
    requires Timely(y, Deliver(m, env)) && Buffered(y, Deliver(m, env))
    requires y.server.open && m.datagram.number == y.server.blknum
    ensures y.sent < y.expected && y.server.last.Some?
  {
    assert MsgOk(m, y.expected, file);
  }

  lemma AckCases(s: Engine, number: u16, env: Env, cfg: Config)
    requires cfg.Valid() && s.server && Clean(s)
    requires s.open ==> s.peer == CLIENT && !s.writing
    ensures var o := Recv(s, CLIENT, Ack(number), env, cfg);
      var t := s.(lastPacket := s.timer, retries := 0);
      if !s.open || number != s.blknum then
        o.engine == t && (o.effects == [] || exists code :: o.effects == [Sent(CLIENT, Error(code))])
      else if LastSent(s) then
        o == Outcome(t.(peer := ANYONE, last := None, open := false), [Closed])
      else o == SendData(t.(blknum := (s.blknum + 1) % 0x1_0000), CLIENT, env)
  {
    hide SendData;
  }

  lemma AckRefusedKeeps(y: Sys, m: Msg, env: Env, file: seq<byte>, cfg: Config)
    requires cfg.Valid() && Invariant(y, file) && m in y.net && MsgOk(m, y.expected, file) && m.datagram.Ack?
    requires !y.server.open || m.datagram.number != y.server.blknum
    ensures Invariant(AtServer(y, m, env, file, cfg), file)
  {
    hide FirstSession, ClientOk, Recv, MsgOk, NetOk;
    var z := AtServer(y, m, env, file, cfg);
    var e1 := env.(read := ReadAt(file, y.position, env.read.Some?));
    var o := Recv(y.server, CLIENT, m.datagram, e1, cfg);
    AckCases(y.server, m.datagram.number, e1, cfg);
    var more := Outgoing(o.effects, false, z.sent);
    if o.effects != [] {
      var code :| o.effects == [Sent(CLIENT, Error(code))];
      ErrorsOut(code, z.sent, y.expected, file);
    }
    assert y.net - multiset{m} + more <= y.net + more;
    ServerUnmoved(y, z, more, file);
  }

  lemma AcknowledgedKeeps(y: Sys, acknowledged: bool, file: seq<byte>)
    requires Invariant(y, file) && y.expected == Blocks(file) + 1
    ensures Invariant(y.(acknowledged := acknowledged), file)
  {
  }

  /** The ACK of the last block closes the session, and the client has the whole file. */
  lemma LastAckKeeps(y: Sys, m: Msg, env: Env, file: seq<byte>, cfg: Config)
    requires cfg.Valid() && Invariant(y, file) && m in y.net && m.datagram.Ack?
    requires Timely(y, Deliver(m, env)) && Buffered(y, Deliver(m, env))
    requires y.server.open && m.datagram.number == y.server.blknum && LastSent(y.server)
    ensures Invariant(AtServer(y, m, env, file, cfg), file)
  {
    hide FirstSession, Recv, MsgOk, NetOk;
    AckMatches(y, m, env, file);
    var z := AtServer(y, m, env, file, cfg);
    AckCases(y.server, m.datagram.number, env.(read := ReadAt(file, y.position, env.read.Some?)), cfg);
    BlockFacts(file, y.sent);
    assert [Closed][1..] == [];
    assert Outgoing([Closed], false, y.sent) == multiset{} && Fetches([Closed]) == 0;
    assert z.net == y.net - multiset{m};
    ServerUnmoved(y, z.(acknowledged := y.acknowledged), multiset{}, file);
    AcknowledgedKeeps(z.(acknowledged := y.acknowledged), true, file);
  }

  /** What an ACK that matches tells the server when its block was not the last. */
  lemma NextAckFacts(y: Sys, m: Msg, env: Env, file: seq<byte>)
    requires Invariant(y, file) && m in y.net && m.datagram.Ack?
    requires Timely(y, Deliver(m, env)) && Buffered(y, Deliver(m, env))
    requires y.server.open && m.datagram.number == y.server.blknum && !LastSent(y.server)
    ensures 1 <= y.sent < Blocks(file) && y.sent < y.expected && y.sessions >= 1
    ensures y.position == StartOf(file, y.sent + 1)
    ensures (y.server.blknum + 1) % 0x1_0000 == Number(y.sent + 1) != y.server.blknum
    ensures y.sessions == 1 ==> y.expected == y.sent + 1 && forall d <- y.net :: d.datagram.Data? ==> d.index < y.sent + 1
  {
    AckMatches(y, m, env, file);
    BlockFacts(file, y.sent);
    hide BlockAt, MsgOk, ClientOk, NetOk;
  }

  /** The server's step on an ACK that moves it on. */
  lemma AckDelivered(y: Sys, m: Msg, env: Env, o: Outcome, file: seq<byte>, cfg: Config)
    requires cfg.Valid() && m.datagram.Ack?
    requires o == Recv(y.server, CLIENT, m.datagram, env.(read := ReadAt(file, y.position, env.read.Some?)), cfg)
    requires o.effects != [Closed] && (o.effects != [] ==> !o.effects[0].Opened?)
    requires o.engine.blknum != y.server.blknum
    ensures AtServer(y, m, env, file, cfg)
         == y.(server := o.engine, sent := y.sent + 1, position := y.position + Fetches(o.effects),
               net := y.net - multiset{m} + Outgoing(o.effects, false, y.sent + 1))
  {
    hide Recv, Outgoing, Fetches, ReadAt;
  }

  lemma NextAckKeeps(y: Sys, m: Msg, env: Env, file: seq<byte>, cfg: Config)
    requires cfg.Valid() && Invariant(y, file) && m in y.net && m.datagram.Ack?
    requires Timely(y, Deliver(m, env)) && Buffered(y, Deliver(m, env))
    requires y.server.open && m.datagram.number == y.server.blknum && !LastSent(y.server)
    ensures Invariant(AtServer(y, m, env, file, cfg), file)
  {
    hide ClientOk, Recv, MsgOk, NetOk, SendData, FirstSession, Timely, Buffered, BlockAt, Blocks, LastSent, AtServer, Outgoing, Fetches;
    NextAckFacts(y, m, env, file);
    var e1 := env.(read := ReadAt(file, y.position, env.read.Some?));
    AckCases(y.server, m.datagram.number, e1, cfg);
    var i := y.sent + 1;
    var s := y.server;
    var t := s.(lastPacket := s.timer, retries := 0, blknum := (s.blknum + 1) % 0x1_0000);
    assert s.server && Clean(s) && s.peer == CLIENT && !s.writing;
    hide ServerOk;
    ServerArrives(t, i, e1, env.read.Some?, y, y.sessions, file);
    var o := SendData(t, CLIENT, e1);
    AckDelivered(y, m, env, o, file, cfg);
    ServerMoves(y, AtServer(y, m, env, file, cfg), Outgoing(o.effects, false, i), i, file);
  }

  lemma ServerKeeps(y: Sys, m: Msg, env: Env, file: seq<byte>, cfg: Config)
    requires cfg.Valid() && Invariant(y, file) && m in y.net && m.toServer
    requires Timely(y, Deliver(m, env)) && Buffered(y, Deliver(m, env))
    ensures WellSized(m.datagram) && Invariant(AtServer(y, m, env, file, cfg), file)
  {
    hide AtServer, Parse, ClientOk, FirstSession, Timely, Buffered;
    assert MsgOk(m, y.expected, file);
    match m.datagram {
      case Error(_) => ServerErrorKeeps(y, m, env, file, cfg);
      case Request(_, raw) =>
        if y.server.open || !Parse(raw, cfg.limits).Parsed? || !env.openOk {
          RequestRefusedKeeps(y, m, env, file, cfg);
        } else {
          RequestBeginsKeeps(y, m, env, file, cfg);
        }
      case Ack(number) =>
        if !y.server.open || number != y.server.blknum {
          AckRefusedKeeps(y, m, env, file, cfg);
        } else if LastSent(y.server) {
          LastAckKeeps(y, m, env, file, cfg);
        } else {
          NextAckKeeps(y, m, env, file, cfg);
        }
    }
  }

  // ---------------------------------------------------------------- every step, every run

  lemma LoseOrDuplicateKeeps(y: Sys, net: multiset<Msg>, file: seq<byte>)
    requires Invariant(y, file) && forall m <- net :: m in y.net
    ensures Invariant(y.(net := net), file)
  {
    hide MsgOk, Transferring;
  }

  lemma NextKeeps(y: Sys, a: Action, file: seq<byte>, cfg: Config)
    requires cfg.Valid() && Invariant(y, file) && Enabled(y, a) && Timely(y, a) && Buffered(y, a)
    ensures a.Deliver? ==> WellSized(a.msg.datagram)
    ensures Invariant(Next(y, a, file, cfg), file)
  {
    hide Invariant, Tick, AtServer, AtClient, Timely, Buffered;
    match a {
      case Deliver(m, env) =>
        if m.toServer {
          ServerKeeps(y, m, env, file, cfg);
        } else {
          ClientKeeps(y, m, env, file, cfg);
        }
      case Lose(m) => LoseOrDuplicateKeeps(y, y.net - multiset{m}, file);
      case Duplicate(m) => LoseOrDuplicateKeeps(y, y.net + multiset{m}, file);
      case ServerTick(env) => TickKeeps(y, env, file, cfg);
    }
  }
}
