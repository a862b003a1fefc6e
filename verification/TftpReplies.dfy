/** What goes over the network in answer to a datagram, in every state a transfer can be in. */
module TftpReplies {
  import opened Bytes
  import opened Request
  import opened Tftp
  import opened TftpNet
  import opened TftpSafety
  import opened TftpRuns

  /** The datagram is answered with exactly one other, about the block with this index. */
  ghost predicate Answered(y: Sys, z: Sys, m: Msg, d: Datagram, index: nat) {
    z.net == y.net - multiset{m} + multiset{Msg(!m.toServer, d, index)}
  }

  /** Nothing but the network and the retry clocks has changed. */
  ghost predicate SamePlace(y: Sys, z: Sys) {
    && z == y.(server := z.server, client := z.client, net := z.net)
    && z.server == y.server.(lastPacket := z.server.lastPacket, retries := z.server.retries)
    && z.client == y.client.(lastPacket := z.client.lastPacket, retries := z.client.retries)
  }

  /** What a receiver does with a block, effect by effect. */
  lemma BlockEffects(c: Engine, b: Block, env: Env, cfg: Config)
    requires cfg.Valid() && c.peer == ANYONE && c.open && c.writing && env.sendOk
    ensures var effects := Recv(c, SERVER, Data(b), env, cfg).effects;
      if b.number == c.blknum && env.writeOk then
        effects == [Wrote(b.payload, true), Sent(SERVER, Ack(b.number))] + if |b.payload| < 512 then [Closed] else []
      else if b.number == c.blknum then
        effects == [Wrote(b.payload, false), Sent(SERVER, Error(2)), Closed]
      else effects == [Sent(SERVER, if b.number == (c.blknum + 0xffff) % 0x1_0000 then Ack(b.number) else Error(5))]
  {
  }

  lemma OneAmong(first: Effect, sent: Effect, closing: bool, toServer: bool, index: nat)
    requires !first.Sent? && sent.Sent?
    ensures Outgoing([first, sent] + (if closing then [Closed] else []), toServer, index)
         == multiset{Msg(toServer, sent.datagram, index)}
  {
    OneSendOfThree(first, sent, toServer, index);
    assert [first, sent] + [Closed] == [first, sent, Closed] && [first, sent] + [] == [first, sent];
  }

  lemma AwaitedBlockReply(y: Sys, m: Msg, env: Env, file: seq<byte>, cfg: Config)
    requires cfg.Valid() && Invariant(y, file) && m in y.net && m.datagram.Data? && y.client.open
    requires m.index == y.expected && env.sendOk && env.writeOk
    ensures var z := AtClient(y, m, env, cfg);
      && Answered(y, z, m, Ack(m.index % 0x1_0000), m.index)
      && z.expected == y.expected + 1 && z.written == y.written + m.datagram.block.payload
  {
    assert MsgOk(m, y.expected, file);
    hide BlockAt, Transferring, Before, FirstSession, ServerOk, NetOk;
    var b := m.datagram.block;
    BlockEffects(y.client, b, env, cfg);
    OneAmong(Wrote(b.payload, true), Sent(SERVER, Ack(b.number)), |b.payload| < 512, true, m.index);
  }

  lemma NumberBefore(i: nat, current: nat)
    ensures Number(i) == (Number(current) + 0xffff) % 0x1_0000 <==> Number(i + 1) == Number(current)
  {
  }

  lemma OtherBlockReply(y: Sys, m: Msg, env: Env, file: seq<byte>, cfg: Config)
    requires cfg.Valid() && Invariant(y, file) && m in y.net && m.datagram.Data? && y.client.open
    requires Number(m.index) != Number(y.expected) && env.sendOk
    ensures var z := AtClient(y, m, env, cfg);
      && SamePlace(y, z)
      && Answered(y, z, m, if Number(m.index + 1) == Number(y.expected) then Ack(m.index % 0x1_0000) else Error(5), m.index)
  {
    var d := if Number(m.index + 1) == Number(y.expected) then Ack(m.index % 0x1_0000) else Error(5);
    OtherBlockEffects(y, m, env, file, cfg);
    hide Recv, CallsOf, Invariant, Number;
    ClientAnswers(y, m, env, d, cfg);
  }

  lemma OtherBlockEffects(y: Sys, m: Msg, env: Env, file: seq<byte>, cfg: Config)
    requires cfg.Valid() && Invariant(y, file) && m in y.net && m.datagram.Data? && y.client.open
    requires Number(m.index) != Number(y.expected) && env.sendOk
    ensures !m.toServer
    ensures var o := Recv(y.client, SERVER, m.datagram, env, cfg);
      var d := if Number(m.index + 1) == Number(y.expected) then Ack(m.index % 0x1_0000) else Error(5);
      && o.engine == y.client.(lastPacket := y.client.timer, retries := 0)
      && o.effects == [Sent(SERVER, d)] && CallsOf(y.client, o) == []
  {
    assert MsgOk(m, y.expected, file);
    hide BlockAt, Blocks, Transferring, Before, FirstSession, ServerOk, NetOk, Recv, CallsOf;
    BlockEffects(y.client, m.datagram.block, env, cfg);
    NumberBefore(m.index, y.expected);
    ClientIgnores(y.client, m, env, cfg, y.expected, file);
  }

  /** A client that does nothing but answer. */
  lemma ClientAnswers(y: Sys, m: Msg, env: Env, d: Datagram, cfg: Config)
    requires cfg.Valid() && WellSized(m.datagram) && !m.toServer
    requires var o := Recv(y.client, SERVER, m.datagram, env, cfg);
      && o.engine == y.client.(lastPacket := y.client.timer, retries := 0)
      && o.effects == [Sent(SERVER, d)] && CallsOf(y.client, o) == []
    ensures var z := AtClient(y, m, env, cfg); SamePlace(y, z) && Answered(y, z, m, d, m.index)
  {
    hide Recv, CallsOf, Outgoing;
    SingleSend(SERVER, d, true, m.index);
    assert y.written + [] == y.written && y.calls + [] == y.calls;
  }

  /** The reply to a block that reaches a receiving client: the ACK of that block if it is the awaited
      one, or its number is the one before, and ERROR 5 otherwise; only the awaited block moves the
      client. */
  lemma BlockReply(y: Sys, m: Msg, env: Env, file: seq<byte>, cfg: Config)
    requires cfg.Valid() && Invariant(y, file) && m in y.net && m.datagram.Data? && y.client.open
    requires Timely(y, Deliver(m, env)) && env.sendOk && env.writeOk
    ensures var z := AtClient(y, m, env, cfg);
      && (m.index == y.expected ==>
            && Answered(y, z, m, Ack(m.index % 0x1_0000), m.index)
            && z.expected == y.expected + 1 && z.written == y.written + m.datagram.block.payload)
      && (m.index != y.expected && Number(m.index + 1) == Number(y.expected) ==>
            Answered(y, z, m, Ack(m.index % 0x1_0000), m.index) && SamePlace(y, z))
      && (m.index != y.expected && Number(m.index + 1) != Number(y.expected) ==>
            Answered(y, z, m, Error(5), m.index) && SamePlace(y, z))
    ensures Short(file) ==> (Number(m.index + 1) == Number(y.expected) <==> m.index + 1 == y.expected)
  {
    hide AtClient, BlockAt, Transferring, Before, FirstSession, ServerOk, Answered, SamePlace;
    assert MsgOk(m, y.expected, file);
    if m.index == y.expected {
      AwaitedBlockReply(y, m, env, file, cfg);
    } else {
      OtherBlockReply(y, m, env, file, cfg);
    }
  }

  /** If the block cannot be written the transfer breaks off with ERROR 2. */
  lemma FailedWriteReply(y: Sys, m: Msg, env: Env, file: seq<byte>, cfg: Config)
    requires cfg.Valid() && Invariant(y, file) && m in y.net && m.datagram.Data? && y.client.open
    requires m.index == y.expected && env.sendOk && !env.writeOk
    ensures var z := AtClient(y, m, env, cfg);
      Answered(y, z, m, Error(2), m.index) && !z.client.open && z.calls == y.calls + [Aborted] && z.written == y.written
  {
    assert MsgOk(m, y.expected, file);
    hide BlockAt, Transferring, Before, FirstSession, ServerOk, NetOk;
    var b := m.datagram.block;
    BlockEffects(y.client, b, env, cfg);
    OneAmong(Wrote(b.payload, false), Sent(SERVER, Error(2)), true, true, m.index);
    assert [Wrote(b.payload, false), Sent(SERVER, Error(2))] + [Closed] == [Wrote(b.payload, false), Sent(SERVER, Error(2)), Closed];
  }

  /** A client that has no session any more refuses every block, and stays as it is. */
  lemma LateBlockReply(y: Sys, m: Msg, env: Env, file: seq<byte>, cfg: Config)
    requires cfg.Valid() && Invariant(y, file) && m in y.net && m.datagram.Data? && !y.client.open && env.sendOk
    ensures var z := AtClient(y, m, env, cfg); Answered(y, z, m, Error(2), m.index) && SamePlace(y, z)
  {
    assert MsgOk(m, y.expected, file);
    hide BlockAt, Transferring, Before, FirstSession, ServerOk, NetOk;
    SingleSend(SERVER, Error(2), true, m.index);
  }

  /** What a sender does with an ACK, effect by effect. */
  lemma AckEffects(s: Engine, n: u16, env: Env, cfg: Config)
    requires cfg.Valid() && Clean(s) && (s.open ==> s.peer == CLIENT && !s.writing) && env.sendOk
    requires env.bufferOk && env.read.Some?
    ensures var effects := Recv(s, CLIENT, Ack(n), env, cfg).effects;
      if !s.open then effects == [Sent(CLIENT, Error(2))]
      else if n != s.blknum then effects == [Sent(CLIENT, Error(5))]
      else if s.last.Some? && |s.last.value.payload| != 512 then effects == [Closed]
      else effects == [Fetched(env.read.value), Sent(CLIENT, Data(Block((s.blknum + 1) % 0x1_0000, env.read.value)))]
  {
  }

  lemma NextBlockEffects(y: Sys, m: Msg, env: Env, file: seq<byte>, cfg: Config)
    requires cfg.Valid() && ServerOk(y, file) && MsgOk(m, y.expected, file) && m.datagram.Ack?
    requires y.server.open && y.server.last.Some? && Number(m.index) == Number(y.sent) && y.sent < Blocks(file)
    requires env.sendOk && env.bufferOk && env.read.Some?
    ensures var o := Recv(y.server, CLIENT, m.datagram, env.(read := ReadAt(file, y.position, true)), cfg);
      var next := BlockAt(file, y.sent + 1);
      && o.effects == [Fetched(next), Sent(CLIENT, Data(Block((y.sent + 1) % 0x1_0000, next)))]
      && o.engine.open && o.engine.blknum != y.server.blknum
  {
    BlockFacts(file, y.sent);
    AckEffects(y.server, m.datagram.number, env.(read := ReadAt(file, y.position, true)), cfg);
    AckCases(y.server, m.datagram.number, env.(read := ReadAt(file, y.position, true)), cfg);
    hide Recv;
  }

  lemma NextBlockReply(y: Sys, m: Msg, env: Env, file: seq<byte>, cfg: Config)
    requires cfg.Valid() && Invariant(y, file) && m in y.net && m.datagram.Ack? && y.server.open && y.server.last.Some?
    requires Number(m.index) == Number(y.sent) && y.sent < Blocks(file)
    requires env.sendOk && env.bufferOk && env.read.Some?
    ensures var z := AtServer(y, m, env, file, cfg);
      && Answered(y, z, m, Data(Block((y.sent + 1) % 0x1_0000, BlockAt(file, y.sent + 1))), y.sent + 1)
      && z.sent == y.sent + 1 && z.server.open
  {
    assert MsgOk(m, y.expected, file);
    assert m.toServer;
    hide *;
    NextBlockEffects(y, m, env, file, cfg) by { InvariantParts(y, file); }
    var next := BlockAt(file, y.sent + 1);
    OneSendOfThree(Fetched(next), Sent(CLIENT, Data(Block((y.sent + 1) % 0x1_0000, next))), false, y.sent + 1);
    AckDelivered(y, m, env, Recv(y.server, CLIENT, m.datagram, env.(read := ReadAt(file, y.position, true)), cfg), file, cfg);
    AnsweredWith(y, AtServer(y, m, env, file, cfg), m, Data(Block((y.sent + 1) % 0x1_0000, next)), y.sent + 1);
  }

  lemma InvariantParts(y: Sys, file: seq<byte>)
    requires Invariant(y, file)
    ensures ServerOk(y, file) && NetOk(y, file)
  {
  }

  lemma AnsweredWith(y: Sys, z: Sys, m: Msg, d: Datagram, index: nat)
    requires m.toServer && z.net == y.net - multiset{m} + multiset{Msg(false, d, index)}
    ensures Answered(y, z, m, d, index)
  {
  }

  lemma LastAckReply(y: Sys, m: Msg, env: Env, file: seq<byte>, cfg: Config)
    requires cfg.Valid() && Invariant(y, file) && m in y.net && m.datagram.Ack? && y.server.open && y.server.last.Some?
    requires Number(m.index) == Number(y.sent) && y.sent == Blocks(file)
    requires env.sendOk && env.bufferOk && env.read.Some?
    ensures var z := AtServer(y, m, env, file, cfg);
      z.net == y.net - multiset{m} && !z.server.open && z.acknowledged
  {
    assert MsgOk(m, y.expected, file);
    hide Transferring, Before, FirstSession, NetOk, ClientOk;
    BlockFacts(file, y.sent);
    AckEffects(y.server, m.datagram.number, env.(read := ReadAt(file, y.position, true)), cfg);
    OutgoingPlus(Closed, [], false, y.sent);
    assert [Closed] + [] == [Closed];
  }

  lemma WrongAckReply(y: Sys, m: Msg, env: Env, file: seq<byte>, cfg: Config)
    requires cfg.Valid() && Invariant(y, file) && m in y.net && m.datagram.Ack? && y.server.open
    requires Number(m.index) != Number(y.sent) && env.sendOk && env.bufferOk && env.read.Some?
    ensures var z := AtServer(y, m, env, file, cfg); Answered(y, z, m, Error(5), y.sent) && SamePlace(y, z)
  {
    assert MsgOk(m, y.expected, file);
    hide Transferring, Before, FirstSession, NetOk, ClientOk, BlockAt;
    var e1 := env.(read := ReadAt(file, y.position, true));
    AckEffects(y.server, m.datagram.number, e1, cfg);
    AckCases(y.server, m.datagram.number, e1, cfg);
    hide Recv;
    SingleSend(CLIENT, Error(5), false, y.sent);
    ErrorsOut(5, y.sent, y.expected, file);
  }

  /** The answer to an ACK that reaches a sending server: the next block if it is for the one the
      server is at, nothing after the last one, and ERROR 5 if it is not. */
  lemma AckReply(y: Sys, m: Msg, env: Env, file: seq<byte>, cfg: Config)
    requires cfg.Valid() && Invariant(y, file) && m in y.net && m.datagram.Ack? && y.server.open
    requires Timely(y, Deliver(m, env)) && Buffered(y, Deliver(m, env))
    requires env.sendOk && env.bufferOk && env.read.Some?
    ensures 1 <= y.sent <= Blocks(file)
    ensures var z := AtServer(y, m, env, file, cfg);
      && (Number(m.index) == Number(y.sent) && y.sent < Blocks(file) ==>
            && Answered(y, z, m, Data(Block((y.sent + 1) % 0x1_0000, BlockAt(file, y.sent + 1))), y.sent + 1)
            && z.sent == y.sent + 1 && z.server.open)
      && (Number(m.index) == Number(y.sent) && y.sent == Blocks(file) ==>
            z.net == y.net - multiset{m} && !z.server.open && z.acknowledged)
      && (Number(m.index) != Number(y.sent) ==> Answered(y, z, m, Error(5), y.sent) && SamePlace(y, z))
  {
    hide AtServer, BlockAt, Transferring, FirstSession, ClientOk, Answered, SamePlace;
    assert MsgOk(m, y.expected, file);
    if Number(m.index) != Number(y.sent) {
      WrongAckReply(y, m, env, file, cfg);
    } else {
      AckMatches(y, m, env, file);
      if y.sent < Blocks(file) {
        NextBlockReply(y, m, env, file, cfg);
      } else {
        LastAckReply(y, m, env, file, cfg);
      }
    }
  }
}
