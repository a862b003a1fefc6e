/** Where the transfer goes wrong: exactly when a misread datagram or a missing buffer does harm, and
    runs from the beginning in which each of them does. */
module TftpLimits {
  import opened Bytes
  import opened Request
  import opened Tftp
  import opened TftpNet
  import opened TftpSafety
  import opened TftpRuns

  // ---------------------------------------------------------------- a misread block

  lemma NextBlockIff(file: seq<byte>, i: nat, payload: seq<byte>)
    requires 1 <= i <= Blocks(file)
    ensures Before(file, i) + payload == Before(file, i + 1) <==> payload == BlockAt(file, i)
  {
    BlockFacts(file, i);
    var b := Before(file, i);
    if b + payload == Before(file, i + 1) {
      assert payload == (b + payload)[|b|..] && BlockAt(file, i) == (b + BlockAt(file, i))[|b|..];
    }
  }

  /** A block whose number fits is stored, whichever block it is. */
  lemma FittingBlockStored(y: Sys, m: Msg, env: Env, file: seq<byte>, cfg: Config)
    requires cfg.Valid() && Invariant(y, file) && m in y.net && m.datagram.Data? && env.writeOk
    requires y.client.open && Number(m.index) == Number(y.expected)
    ensures m.datagram == Data(Block(Number(m.index), BlockAt(file, m.index))) && m.index >= 1
    ensures var z := AtClient(y, m, env, cfg);
      z.expected == y.expected + 1 && z.written == Before(file, y.expected) + BlockAt(file, m.index)
  {
    assert MsgOk(m, y.expected, file);
    hide BlockAt, Blocks, Transferring, FirstSession, ServerOk;
  }

  /** After a block arrived, what is written is the beginning of the file if and only if the block
      was not misread, or its content is that of the block that was due. */
  lemma BlockHarmlessIff(y: Sys, m: Msg, env: Env, file: seq<byte>, cfg: Config)
    requires cfg.Valid() && Invariant(y, file) && m in y.net && m.datagram.Data? && env.writeOk
    requires y.client.open
    ensures m.index >= 1 && AtClient(y, m, env, cfg).expected >= 1
    ensures var z := AtClient(y, m, env, cfg);
      (z.written == Before(file, z.expected))
        <==> (!Misread(m.index, y.expected) || BlockAt(file, m.index) == BlockAt(file, y.expected))
  {
    hide AtClient, BlockAt, Before, Blocks, FirstSession, ServerOk;
    assert MsgOk(m, y.expected, file);
    if Number(m.index) == Number(y.expected) {
      FittingBlockStored(y, m, env, file, cfg);
      NextBlockIff(file, y.expected, BlockAt(file, m.index));
    } else {
      ClientIgnoreKeeps(y, m, env, file, cfg);
    }
  }

  // ---------------------------------------------------------------- a misread ACK

  /** The sender has not gone past the receiver, and has not taken the end for granted. */
  predicate NotAhead(y: Sys, file: seq<byte>) {
    (y.server.open ==> y.sent <= y.expected) && (y.acknowledged ==> y.expected == Blocks(file) + 1)
  }

  lemma FittingAckMoves(y: Sys, m: Msg, env: Env, file: seq<byte>, cfg: Config)
    requires cfg.Valid() && Invariant(y, file) && m in y.net && m.datagram.Ack?
    requires y.server.open && y.server.last.Some? && m.datagram.number == y.server.blknum && env.read.Some?
    ensures var z := AtServer(y, m, env, file, cfg);
      && z.expected == y.expected
      && (y.sent == Blocks(file) ==> !z.server.open && z.acknowledged)
      && (y.sent < Blocks(file) ==> z.server.open && z.sent == y.sent + 1 && z.acknowledged == y.acknowledged)
  {
    hide ClientOk, NetOk, FirstSession, BlockAt;
    AckCases(y.server, m.datagram.number, env.(read := ReadAt(file, y.position, env.read.Some?)), cfg);
    BlockFacts(file, y.sent);
  }

  /** After an ACK arrived, the sender is not ahead of the receiver if and only if the ACK was not
      misread, or the receiver had the block the sender was at anyway. */
  lemma AckHarmlessIff(y: Sys, m: Msg, env: Env, file: seq<byte>, cfg: Config)
    requires cfg.Valid() && Invariant(y, file) && m in y.net && m.datagram.Ack?
    requires y.server.open && y.server.last.Some? && env.read.Some?
    ensures NotAhead(AtServer(y, m, env, file, cfg), file) <==> !Misread(m.index, y.sent) || y.sent < y.expected
  {
    hide AtServer, FirstSession, Transferring, Before;
    assert MsgOk(m, y.expected, file);
    if Number(m.index) == Number(y.sent) {
      FittingAckMoves(y, m, env, file, cfg);
    } else {
      AckRefusedKeeps(y, m, env, file, cfg);
    }
  }

  // ---------------------------------------------------------------- a missing buffer

  /** A server that holds no block sends, on an ACK of the block it is at, from its file position. */
  lemma SendsFromPosition(y: Sys, ack: Msg, env: Env, file: seq<byte>, cfg: Config)
    requires cfg.Valid() && ack in y.net && y.server.open && y.server.server && !y.server.writing
    requires y.server.peer == CLIENT && y.server.last.None? && ack.datagram == Ack(y.server.blknum)
    requires env.sendOk && env.bufferOk && env.read.Some?
    ensures var next := (y.server.blknum + 1) % 0x1_0000;
      var z := AtServer(y, ack, env, file, cfg);
      && z == y.(server := z.server, sent := y.sent + 1, position := z.position, net := z.net)
      && z.net == y.net - multiset{ack}
                  + multiset{Msg(false, Data(Block(next, ReadAt(file, y.position, true).value)), y.sent + 1)}
  {
    hide Recv;
    var e1 := env.(read := ReadAt(file, y.position, true));
    AckCases(y.server, y.server.blknum, e1, cfg);
    var p := e1.read.value;
    var d := Data(Block((y.server.blknum + 1) % 0x1_0000, p));
    assert [Fetched(p), Sent(CLIENT, d)][1..] == [Sent(CLIENT, d)];
    SingleSend(CLIENT, d, false, y.sent + 1);
  }

  lemma ReadAtBlock(file: seq<byte>, i: nat)
    requires i >= 1
    ensures ReadAt(file, StartOf(file, i), true) == Some(BlockAt(file, i))
  {
  }

  /** After an ACK of the block the server is at, every datagram in flight is right if and only if the
      server held its block, or the next block happens to have the same content. */
  lemma BufferNeededIff(y: Sys, m: Msg, env: Env, file: seq<byte>, cfg: Config)
    requires cfg.Valid() && Invariant(y, file) && m in y.net && m.datagram == Ack(y.server.blknum)
    requires y.server.open && 1 <= y.sent < y.expected && env.sendOk && env.bufferOk && env.read.Some?
    ensures NetOk(AtServer(y, m, env, file, cfg), file)
      <==> y.server.last.Some?
           || (y.sent < Blocks(file) && BlockAt(file, y.sent) == BlockAt(file, y.sent + 1))
  {
    hide AtServer, BlockAt, Blocks, FirstSession, ClientOk;
    var z := AtServer(y, m, env, file, cfg);
    assert MsgOk(m, y.expected, file);
    if y.server.last.Some? {
      ServerKeeps(y, m, env, file, cfg);
    } else {
      SendsFromPosition(y, m, env, file, cfg);
      ReadAtBlock(file, y.sent);
      var wrong := Msg(false, Data(Block(Number(y.sent + 1), BlockAt(file, y.sent))), y.sent + 1);
      assert wrong in z.net;
      if MsgOk(wrong, y.expected, file) {
        NetStaysOk(y, z, multiset{wrong}, file);
      }
    }
  }

  // ---------------------------------------------------------------- runs that go wrong

  /** The request is answered and block 1 is on its way. */
  lemma Opening(filename: seq<byte>, mode: seq<byte>, file: seq<byte>, cfg: Config) returns (actions: seq<Action>)
    requires cfg.Valid() && Acceptable(filename, mode, cfg)
    ensures Possible(Start(filename, mode), actions, file, cfg)
    ensures OnItsWay(After(Start(filename, mode), actions, file, cfg), 1, multiset{}, file)
  {
    hide AtServer, Invariant, RequestOf;
    var y := Start(filename, mode);
    RequestIsSendable(filename, mode, cfg);
    StartOk(filename, mode, file);
    RequestServed(y, multiset{}, filename, mode, file, cfg);
    var first := Deliver(RequestMsg(filename, mode), FINE);
    OneThen(y, first, [], file, cfg);
    actions := [first] + [];
  }

  lemma OneMore(y: Sys, actions: seq<Action>, a: Action, file: seq<byte>, cfg: Config)
    requires cfg.Valid() && Possible(y, actions, file, cfg)
    requires var z := After(y, actions, file, cfg); Enabled(z, a) && (a.Deliver? ==> WellSized(a.msg.datagram))
    ensures Possible(y, actions + [a], file, cfg)
    ensures After(y, actions + [a], file, cfg) == Next(After(y, actions, file, cfg), a, file, cfg)
  {
    hide Next, Enabled;
    OneThen(After(y, actions, file, cfg), a, [], file, cfg);
    assert [a] + [] == [a];
    RunConcat(y, actions, [a], file, cfg);
  }

  /** A datagram that stays behind while the transfer goes on. */
  lemma KeepCopy(y: Sys, i: nat, file: seq<byte>, cfg: Config)
    requires cfg.Valid()
    ensures OnItsWay(y, i, multiset{}, file) ==>
      var a := Duplicate(BlockMsg(file, i));
      Enabled(y, a) && OnItsWay(Next(y, a, file, cfg), i, multiset{BlockMsg(file, i)}, file)
    ensures forall others :: Taken(y, i, others, file) ==>
      var a := Duplicate(AckMsg(i));
      Enabled(y, a) && Taken(Next(y, a, file, cfg), i, others + multiset{AckMsg(i)}, file)
  {
    hide Invariant, BlockAt, Blocks;
    if OnItsWay(y, i, multiset{}, file) {
      LoseOrDuplicateKeeps(y, y.net + multiset{BlockMsg(file, i)}, file);
    }
    forall others | Taken(y, i, others, file)
      ensures Taken(Next(y, Duplicate(AckMsg(i)), file, cfg), i, others + multiset{AckMsg(i)}, file)
    {
      LoseOrDuplicateKeeps(y, y.net + multiset{AckMsg(i)}, file);
    }
  }

  /** A copy of block 1 that comes 65536 blocks late is written as block 65537. */
  lemma StaleBlockRun(filename: seq<byte>, mode: seq<byte>, file: seq<byte>, cfg: Config) returns (actions: seq<Action>)
    requires cfg.Valid() && Acceptable(filename, mode, cfg)
    requires Blocks(file) > 0x1_0000 && BlockAt(file, 1) != BlockAt(file, 0x1_0001)
    ensures var y := Start(filename, mode);
      Possible(y, actions, file, cfg) &&
      var z := After(y, actions, file, cfg); z.expected >= 1 && z.written != Before(file, z.expected)
  {
    hide AtServer, AtClient, Invariant, BlockAt, Blocks, RequestOf, Before;
    var y := Start(filename, mode);
    var opening := Opening(filename, mode, file, cfg);
    var y1 := After(y, opening, file, cfg);
    var copy := Duplicate(BlockMsg(file, 1));
    KeepCopy(y1, 1, file, cfg);
    OneMore(y, opening, copy, file, cfg);
    var y2 := Next(y1, copy, file, cfg);
    var climbing := ClimbTo(y2, 1, 0x1_0001, multiset{BlockMsg(file, 1)}, file, cfg);
    RunConcat(y, opening + [copy], climbing, file, cfg);
    var y3 := After(y2, climbing, file, cfg);
    BlockHarmlessIff(y3, BlockMsg(file, 1), FINE, file, cfg);
    OneMore(y, opening + [copy] + climbing, Deliver(BlockMsg(file, 1), FINE), file, cfg);
    actions := opening + [copy] + climbing + [Deliver(BlockMsg(file, 1), FINE)];
  }

  /** Block 1 is through, and a copy of its ACK stays behind. */
  lemma AckLeftBehind(filename: seq<byte>, mode: seq<byte>, file: seq<byte>, cfg: Config) returns (actions: seq<Action>)
    requires cfg.Valid() && Acceptable(filename, mode, cfg) && Blocks(file) > 1
    ensures Possible(Start(filename, mode), actions, file, cfg)
    ensures OnItsWay(After(Start(filename, mode), actions, file, cfg), 2, multiset{} + multiset{AckMsg(1)}, file)
  {
    hide AtServer, AtClient, Invariant, BlockAt, Blocks, RequestOf, Before;
    var y := Start(filename, mode);
    var opening := Opening(filename, mode, file, cfg);
    var y1 := After(y, opening, file, cfg);
    var take, copy, reply := Deliver(BlockMsg(file, 1), FINE), Duplicate(AckMsg(1)), Deliver(AckMsg(1), FINE);
    TakeBlock(y1, 1, multiset{}, file, cfg);
    OneMore(y, opening, take, file, cfg);
    var y2 := Next(y1, take, file, cfg);
    KeepCopy(y2, 1, file, cfg);
    OneMore(y, opening + [take], copy, file, cfg);
    TakeAck(Next(y2, copy, file, cfg), 1, multiset{} + multiset{AckMsg(1)}, file, cfg);
    OneMore(y, opening + [take] + [copy], reply, file, cfg);
    actions := opening + [take] + [copy] + [reply];
  }

  lemma StaleAckAhead(y: Sys, file: seq<byte>, cfg: Config)
    requires cfg.Valid() && OnItsWay(y, 0x1_0001, multiset{} + multiset{AckMsg(1)}, file)
    ensures AckMsg(1) in y.net && !NotAhead(AtServer(y, AckMsg(1), FINE, file, cfg), file)
  {
    hide AtServer, Invariant, BlockAt, Blocks;
    AckHarmlessIff(y, AckMsg(1), FINE, file, cfg);
  }

  /** A copy of the first ACK that comes 65536 blocks late makes the sender leave a block out, or
      take the transfer for complete before the last block was received. */
  lemma StaleAckRun(filename: seq<byte>, mode: seq<byte>, file: seq<byte>, cfg: Config) returns (actions: seq<Action>)
    requires cfg.Valid() && Acceptable(filename, mode, cfg) && Blocks(file) > 0x1_0000
    ensures var y := Start(filename, mode);
      Possible(y, actions, file, cfg) && !NotAhead(After(y, actions, file, cfg), file)
  {
    hide AtServer, OnItsWay, NotAhead, Possible, After, Harmless, Blocks, Acceptable;
    var y := Start(filename, mode);
    var before := AckLeftBehind(filename, mode, file, cfg);
    var y1 := After(y, before, file, cfg);
    var climbing := ClimbTo(y1, 2, 0x1_0001, multiset{} + multiset{AckMsg(1)}, file, cfg);
    RunConcat(y, before, climbing, file, cfg);
    StaleAckAhead(After(y1, climbing, file, cfg), file, cfg);
    OneMore(y, before + climbing, Deliver(AckMsg(1), FINE), file, cfg);
    actions := before + climbing + [Deliver(AckMsg(1), FINE)];
  }

  /** ctx->read fails, and the error message gets lost. */
  const BROKEN: Env := Env(true, false, true, None, true)

  /** No memory for last_data. */
  const EXHAUSTED: Env := FINE.(bufferOk := false)

  lemma SessionBreaks(y: Sys, others: multiset<Msg>, file: seq<byte>, cfg: Config)
    requires cfg.Valid() && Taken(y, 1, others, file) && 1 < Blocks(file)
    ensures var z := AtServer(y, AckMsg(1), BROKEN, file, cfg);
      && Invariant(z, file) && !z.server.open && z.net == others
      && z == y.(server := z.server, sent := z.sent, position := z.position, net := z.net)
  {
    hide Transferring, FirstSession, ClientOk;
    ServerKeeps(y, AckMsg(1), BROKEN, file, cfg);
    AckCases(y.server, 1, BROKEN.(read := None), cfg);
    BlockFacts(file, 1);
    OutgoingPlus(FetchFailed, [Closed], false, y.sent + 1);
    OutgoingPlus(Closed, [], false, y.sent + 1);
    assert [FetchFailed] + [Closed] == [FetchFailed, Closed] && [Closed] + [] == [Closed];
  }

  /** A request that reaches a server without memory: the session is open and nothing is sent. */
  lemma UnbufferedStart(y: Sys, request: Msg, env: Env, file: seq<byte>, cfg: Config)
    requires cfg.Valid() && y.server.server && Clean(y.server) && !y.server.open
    requires request in y.net && request.datagram.Request? && !request.datagram.write && WellSized(request.datagram)
    requires Parse(request.datagram.raw, cfg.limits).Parsed? && env.openOk && !env.bufferOk
    ensures var z := AtServer(y, request, env, file, cfg);
      && z == y.(server := z.server, sent := 1, position := 0, net := y.net - multiset{request}, sessions := y.sessions + 1)
      && z.server.open && z.server.server && !z.server.writing && z.server.peer == CLIENT
      && z.server.blknum == 1 && z.server.last.None?
  {
    hide Parse, Recv, AtServer;
    var e1 := env.(read := ReadAt(file, 0, env.read.Some?));
    var s := y.server;
    RequestCases(s, request.datagram.raw, e1, cfg);
    var t := s.(lastPacket := s.timer, retries := 0, open := true, blknum := 1, peer := CLIENT, writing := false);
    var e: Effect :| e.Opened? && Recv(s, CLIENT, request.datagram, e1, cfg) == SendData(t, CLIENT, e1).After([e]);
    RequestDelivered(y, request, env, e, SendData(t, CLIENT, e1), file, cfg);
  }

  /** What an open client makes of a full block whose number fits. */
  lemma FullBlockWritten(y: Sys, m: Msg, p: seq<byte>, file: seq<byte>, cfg: Config)
    requires cfg.Valid() && ClientOk(y, file) && y.client.open && m.datagram == Data(Block(y.client.blknum, p))
    ensures AtClient(y, m, FINE, cfg).written == y.written + p && AtClient(y, m, FINE, cfg).expected == y.expected + 1
  {
    hide BlockAt, Before, Transferring;
  }

  lemma RequestParses(filename: seq<byte>, mode: seq<byte>, cfg: Config)
    requires cfg.Valid() && Acceptable(filename, mode, cfg)
    ensures WellSized(RequestMsg(filename, mode).datagram)
    ensures Parse(RequestMsg(filename, mode).datagram.raw, cfg.limits).Parsed?
  {
    RequestRoundTrip(1, filename, mode, cfg.limits);
  }

  /** Block 1 is through; the request and a copy of the ACK stay behind. */
  lemma RequestLeftBehind(filename: seq<byte>, mode: seq<byte>, file: seq<byte>, cfg: Config)
    returns (actions: seq<Action>)
    requires cfg.Valid() && Acceptable(filename, mode, cfg) && Blocks(file) > 1
    ensures Possible(Start(filename, mode), actions, file, cfg)
    ensures Taken(After(Start(filename, mode), actions, file, cfg), 1,
                  multiset{RequestMsg(filename, mode)} + multiset{AckMsg(1)}, file)
  {
    hide AtServer, AtClient, Invariant, BlockAt, Blocks, RequestOf;
    var y, r := Start(filename, mode), RequestMsg(filename, mode);
    RequestIsSendable(filename, mode, cfg);
    StartOk(filename, mode, file);
    var again, first := Duplicate(r), Deliver(r, FINE);
    OneMore(y, [], again, file, cfg);
    var y1 := Next(y, again, file, cfg);
    LoseOrDuplicateKeeps(y, y.net + multiset{r}, file);
    RequestServed(y1, multiset{r}, filename, mode, file, cfg);
    OneMore(y, [] + [again], first, file, cfg);
    var y2 := Next(y1, first, file, cfg);
    var take, copy := Deliver(BlockMsg(file, 1), FINE), Duplicate(AckMsg(1));
    TakeBlock(y2, 1, multiset{r}, file, cfg);
    OneMore(y, [] + [again] + [first], take, file, cfg);
    KeepCopy(Next(y2, take, file, cfg), 1, file, cfg);
    OneMore(y, [] + [again] + [first] + [take], copy, file, cfg);
    actions := [] + [again] + [first] + [take] + [copy];
  }

  /** A restarted session that has no memory for block 1, and an old ACK of block 1: the receiver
      writes the content of block 1 as block 2. */
  lemma UnbufferedRun(filename: seq<byte>, mode: seq<byte>, file: seq<byte>, cfg: Config) returns (actions: seq<Action>)
    requires cfg.Valid() && Acceptable(filename, mode, cfg)
    requires Blocks(file) > 1 && BlockAt(file, 1) != BlockAt(file, 2)
    ensures var y := Start(filename, mode);
      Possible(y, actions, file, cfg) &&
      var z := After(y, actions, file, cfg); z.expected >= 1 && z.written != Before(file, z.expected)
  {
    hide AtServer, AtClient, BlockAt, Blocks, RequestOf, Before, Parse, FirstSession, Transferring, NetOk;
    var y, r := Start(filename, mode), RequestMsg(filename, mode);
    var before := RequestLeftBehind(filename, mode, file, cfg);
    RequestParses(filename, mode, cfg);
    var y1 := After(y, before, file, cfg);
    SessionBreaks(y1, multiset{r} + multiset{AckMsg(1)}, file, cfg);
    var breaking := Deliver(AckMsg(1), BROKEN);
    OneMore(y, before, breaking, file, cfg);
    var y2 := AtServer(y1, AckMsg(1), BROKEN, file, cfg);
    var restart := Deliver(r, EXHAUSTED);
    UnbufferedStart(y2, r, EXHAUSTED, file, cfg);
    OneMore(y, before + [breaking], restart, file, cfg);
    var y3 := AtServer(y2, r, EXHAUSTED, file, cfg);
    var reply := Deliver(AckMsg(1), FINE);
    SendsFromPosition(y3, AckMsg(1), FINE, file, cfg);
    ReadAtBlock(file, 1);
    OneMore(y, before + [breaking] + [restart], reply, file, cfg);
    var y4 := AtServer(y3, AckMsg(1), FINE, file, cfg);
    var wrong := Msg(false, Data(Block(2, BlockAt(file, 1))), 2);
    FullBlockWritten(y4, wrong, BlockAt(file, 1), file, cfg);
    NextBlockIff(file, 2, BlockAt(file, 1));
    OneMore(y, before + [breaking] + [restart] + [reply], Deliver(wrong, FINE), file, cfg);
    actions := before + [breaking] + [restart] + [reply] + [Deliver(wrong, FINE)];
  }
}
