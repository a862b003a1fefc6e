/** Whole runs of a transfer over the network: what the receiver has got, when it ends, what the
    assumptions about the network are needed for, and that a transfer can complete. */
module TftpRuns {
  import opened Bytes
  import opened Request
  import opened Tftp
  import opened TftpNet
  import opened TftpSafety

  /** Every action can happen where it happens. */
  ghost predicate Possible(y: Sys, actions: seq<Action>, file: seq<byte>, cfg: Config)
    requires cfg.Valid()
    decreases |actions|
  {
    actions == [] ||
      (var a := actions[0];
       && Enabled(y, a) && (a.Deliver? ==> WellSized(a.msg.datagram))
       && Possible(Next(y, a, file, cfg), actions[1..], file, cfg))
  }

  function After(y: Sys, actions: seq<Action>, file: seq<byte>, cfg: Config): Sys
    requires cfg.Valid() && Possible(y, actions, file, cfg)
    decreases |actions|
  {
    if actions == [] then y else After(Next(y, actions[0], file, cfg), actions[1..], file, cfg)
  }

  /** A file so short that its block numbers do not repeat. */
  predicate Short(file: seq<byte>) {
    Blocks(file) < 0x1_0000
  }

  /** In no action an ACK meets a server without its block, and nothing is misread; the latter goes
      without saying for a short file. */
  ghost predicate Harmless(y: Sys, actions: seq<Action>, file: seq<byte>, cfg: Config)
    requires cfg.Valid() && Possible(y, actions, file, cfg)
    decreases |actions|
  {
    actions == [] ||
      (var a := actions[0];
       && Buffered(y, a) && (Short(file) || Timely(y, a))
       && Harmless(Next(y, a, file, cfg), actions[1..], file, cfg))
  }

  /** Block numbers of a short file are never misread. */
  lemma ShortIsTimely(y: Sys, a: Action, file: seq<byte>)
    requires Invariant(y, file) && Enabled(y, a) && Short(file)
    ensures Timely(y, a)
  {
    hide Transferring, FirstSession, BlockAt, Before;
    if a.Deliver? {
      assert MsgOk(a.msg, y.expected, file);
    }
  }

  predicate Sendable(filename: seq<byte>, mode: seq<byte>) {
    |filename| + |mode| + 4 < 0xffff
  }

  lemma SingleSend(to: Peer, d: Datagram, toServer: bool, index: nat)
    ensures Outgoing([Sent(to, d)], toServer, index) == multiset{Msg(toServer, d, index)}
  {
    assert [Sent(to, d)][1..] == [];
  }

  lemma StartOk(filename: seq<byte>, mode: seq<byte>, file: seq<byte>)
    requires Sendable(filename, mode)
    ensures Invariant(Start(filename, mode), file)
    ensures Start(filename, mode).net == multiset{Msg(true, Request(false, RequestOf(1, filename, mode)), 0)}
  {
    var r := Request(false, RequestOf(1, filename, mode));
    SingleSend(SERVER, r, true, 0);
    assert Start(filename, mode).net == multiset{Msg(true, r, 0)};
  }

  lemma {:induction false} RunKeeps(y: Sys, actions: seq<Action>, file: seq<byte>, cfg: Config)
    requires cfg.Valid() && Invariant(y, file) && Possible(y, actions, file, cfg) && Harmless(y, actions, file, cfg)
    ensures Invariant(After(y, actions, file, cfg), file)
    decreases |actions|
  {
    hide Invariant, Next, Timely, Short, Buffered, Enabled;
    if actions != [] {
      if Short(file) {
        ShortIsTimely(y, actions[0], file);
      }
      NextKeeps(y, actions[0], file, cfg);
      RunKeeps(Next(y, actions[0], file, cfg), actions[1..], file, cfg);
    }
  }

  // ---------------------------------------------------------------- the theorems

  /** In every reachable state the receiver has been given exactly the blocks before the one it
      waits for, each once and in order, and an open sender is at that block or an earlier one;
      unless a stray request restarted the session, at most one behind. */
  lemma TransferInStep(filename: seq<byte>, mode: seq<byte>, actions: seq<Action>, file: seq<byte>, cfg: Config)
    requires cfg.Valid() && Sendable(filename, mode)
    requires Possible(Start(filename, mode), actions, file, cfg)
    requires Harmless(Start(filename, mode), actions, file, cfg)
    ensures var z := After(Start(filename, mode), actions, file, cfg);
      && 1 <= z.expected <= Blocks(file) + 1
      && z.written == Before(file, z.expected) == file[..Min((z.expected - 1) * 512, |file|)]
      && (z.server.open ==> z.sent <= z.expected && z.server.blknum == Number(z.sent))
      && (z.server.open && z.sessions == 1 ==> z.expected == z.sent || z.expected == z.sent + 1)
      && (z.client.open ==> z.client.blknum == Number(z.expected))
      && Transferring(file, z.calls, z.client.open, z.expected)
  {
    hide Transferring, MsgOk, NetOk, FirstSession, Blocks;
    StartOk(filename, mode, file);
    RunKeeps(Start(filename, mode), actions, file, cfg);
  }

  /** If the receiver was told that the transfer is complete, or the sender closed on the last ACK,
      then what was written is the whole file, and the receiver was told once. */
  lemma TransferComplete(filename: seq<byte>, mode: seq<byte>, actions: seq<Action>, file: seq<byte>, cfg: Config)
    requires cfg.Valid() && Sendable(filename, mode)
    requires Possible(Start(filename, mode), actions, file, cfg)
    requires Harmless(Start(filename, mode), actions, file, cfg)
    ensures var z := After(Start(filename, mode), actions, file, cfg);
      && (z.acknowledged || (exists c <- z.calls :: c.Finished?) ==> z.written == file && !z.client.open)
      && (forall i, j | 0 <= i < |z.calls| && 0 <= j < |z.calls| && !z.calls[i].Stored? && !z.calls[j].Stored? ::
            i == j == |z.calls| - 1)
  {
    hide MsgOk, NetOk, FirstSession, ServerOk, Transferring;
    StartOk(filename, mode, file);
    RunKeeps(Start(filename, mode), actions, file, cfg);
    BlockFacts(file, Blocks(file));
    var z := After(Start(filename, mode), actions, file, cfg);
    EndsOnce(file, z.calls, z.client.open, z.expected);
  }

  lemma EndsOnce(file: seq<byte>, calls: seq<Call>, open: bool, expected: nat)
    requires Transferring(file, calls, open, expected)
    ensures expected == Blocks(file) + 1 ==> !open
    ensures (exists c <- calls :: c.Finished?) ==> expected == Blocks(file) + 1
    ensures forall i, j | 0 <= i < |calls| && 0 <= j < |calls| && !calls[i].Stored? && !calls[j].Stored? ::
      i == j == |calls| - 1
  {
    hide BlockAt, Blocks;
  }

  /** A block that arrives again is acknowledged again and not written again. */
  lemma RepeatedBlockReacked(y: Sys, m: Msg, env: Env, file: seq<byte>, cfg: Config)
    requires cfg.Valid() && Invariant(y, file) && m in y.net && m.datagram.Data? && env.sendOk
    requires y.client.open && m.index + 1 == y.expected
    ensures var z := AtClient(y, m, env, cfg);
      && z.written == y.written && z.calls == y.calls && z.expected == y.expected
      && Msg(true, Ack(m.datagram.block.number), m.index) in z.net
  {
    assert MsgOk(m, y.expected, file);
    hide BlockAt, Blocks, Transferring, FirstSession, ServerOk;
    var ack := Sent(SERVER, Ack(m.datagram.block.number));
    assert Recv(y.client, SERVER, m.datagram, env, cfg).effects == [ack];
    assert [ack][1..] == [];
  }

  // ---------------------------------------------------------------- a transfer without losses

  /** Nothing is refused from outside. */
  const FINE: Env := Env(true, true, true, Some([]), true)

  function BlockMsg(file: seq<byte>, i: nat): Msg
    requires i > 0
  {
    Msg(false, Data(Block(Number(i), BlockAt(file, i))), i)
  }

  function AckMsg(i: nat): Msg {
    Msg(true, Ack(Number(i)), i)
  }

  /** Both ends are at block i, which is on its way beside other datagrams. */
  ghost predicate OnItsWay(y: Sys, i: nat, others: multiset<Msg>, file: seq<byte>) {
    && Invariant(y, file) && 1 <= i <= Blocks(file)
    && y.net == multiset{BlockMsg(file, i)} + others
    && y.server.open && y.client.open && y.sent == i == y.expected && y.server.last.Some? && y.sessions == 1
  }

  /** The block is taken, and its ACK is on the way. */
  ghost predicate Taken(y: Sys, i: nat, others: multiset<Msg>, file: seq<byte>) {
    && Invariant(y, file) && 1 <= i <= Blocks(file)
    && y.net == multiset{AckMsg(i)} + others
    && y.server.open && y.sent == i && y.expected == i + 1 && y.server.last.Some? && y.sessions == 1
    && (i < Blocks(file) ==> y.client.open)
  }

  lemma OutgoingPlus(e: Effect, rest: seq<Effect>, toServer: bool, index: nat)
    ensures Outgoing([e] + rest, toServer, index)
         == (if e.Sent? then multiset{Msg(toServer, e.datagram, index)} else multiset{}) + Outgoing(rest, toServer, index)
  {
    assert ([e] + rest)[1..] == rest;
  }

  lemma OneSendOfThree(first: Effect, sent: Effect, toServer: bool, index: nat)
    requires !first.Sent? && sent.Sent?
    ensures Outgoing([first, sent], toServer, index) == multiset{Msg(toServer, sent.datagram, index)}
    ensures Outgoing([first, sent, Closed], toServer, index) == multiset{Msg(toServer, sent.datagram, index)}
  {
    OutgoingPlus(first, [sent], toServer, index);
    OutgoingPlus(first, [sent, Closed], toServer, index);
    OutgoingPlus(sent, [], toServer, index);
    OutgoingPlus(sent, [Closed], toServer, index);
    OutgoingPlus(Closed, [], toServer, index);
    assert [first] + [sent, Closed] == [first, sent, Closed] && [sent] + [Closed] == [sent, Closed];
    assert [first] + [sent] == [first, sent] && [sent] + [] == [sent] && [Closed] + [] == [Closed];
  }

  lemma TakeBlock(y: Sys, i: nat, others: multiset<Msg>, file: seq<byte>, cfg: Config)
    requires cfg.Valid() && OnItsWay(y, i, others, file)
    ensures Taken(AtClient(y, BlockMsg(file, i), FINE, cfg), i, others, file)
  {
    hide BlockAt, Transferring, Before, FirstSession;
    var m := BlockMsg(file, i);
    ClientTakeKeeps(y, m, FINE, file, cfg);
    BlockFacts(file, i);
    var wrote, ack := Wrote(BlockAt(file, i), true), Sent(SERVER, Ack(Number(i)));
    assert Recv(y.client, SERVER, m.datagram, FINE, cfg).effects ==
      if i < Blocks(file) then [wrote, ack] else [wrote, ack, Closed];
    OneSendOfThree(wrote, ack, true, i);
  }

  /** What the server does with the ACK of a block that is not the last. */
  lemma AckAnswered(y: Sys, i: nat, others: multiset<Msg>, file: seq<byte>, cfg: Config)
    requires cfg.Valid() && Taken(y, i, others, file) && i < Blocks(file)
    ensures var o := Recv(y.server, CLIENT, AckMsg(i).datagram, FINE.(read := ReadAt(file, y.position, true)), cfg);
      && o.effects == [Fetched(BlockAt(file, i + 1)), Sent(CLIENT, BlockMsg(file, i + 1).datagram)]
      && o.engine.open && o.engine.last.Some? && o.engine.blknum != y.server.blknum
  {
    hide NetOk, FirstSession, ClientOk;
    AckCases(y.server, Number(i), FINE.(read := ReadAt(file, y.position, true)), cfg);
    BlockFacts(file, i);
  }

  lemma TakeAck(y: Sys, i: nat, others: multiset<Msg>, file: seq<byte>, cfg: Config)
    requires cfg.Valid() && Taken(y, i, others, file) && i < Blocks(file)
    ensures OnItsWay(AtServer(y, AckMsg(i), FINE, file, cfg), i + 1, others, file)
  {
    hide AtServer, Recv, BlockAt, NetOk, FirstSession, ServerOk, Transferring, Before;
    var m := AckMsg(i);
    NothingInTheWay(y, i, others, file);
    ServerKeeps(y, m, FINE, file, cfg);
    AckAnswered(y, i, others, file, cfg);
    var o := Recv(y.server, CLIENT, m.datagram, FINE.(read := ReadAt(file, y.position, true)), cfg);
    OneSendOfThree(Fetched(BlockAt(file, i + 1)), Sent(CLIENT, BlockMsg(file, i + 1).datagram), false, i + 1);
    AckDelivered(y, m, FINE, o, file, cfg);
  }

  lemma NothingInTheWay(y: Sys, i: nat, others: multiset<Msg>, file: seq<byte>)
    ensures OnItsWay(y, i, others, file) ==>
      var take := Deliver(BlockMsg(file, i), FINE); Enabled(y, take) && Timely(y, take) && Buffered(y, take)
    ensures Taken(y, i, others, file) ==>
      var reply := Deliver(AckMsg(i), FINE); Enabled(y, reply) && Timely(y, reply) && Buffered(y, reply)
  {
    hide Invariant;
  }

  /** An action that does no harm, and what follows. */
  lemma OneThen(y: Sys, a: Action, rest: seq<Action>, file: seq<byte>, cfg: Config)
    requires cfg.Valid() && Enabled(y, a) && (a.Deliver? ==> WellSized(a.msg.datagram))
    requires Possible(Next(y, a, file, cfg), rest, file, cfg)
    ensures Possible(y, [a] + rest, file, cfg)
    ensures After(y, [a] + rest, file, cfg) == After(Next(y, a, file, cfg), rest, file, cfg)
    ensures Timely(y, a) && Buffered(y, a) && Harmless(Next(y, a, file, cfg), rest, file, cfg) ==>
      Harmless(y, [a] + rest, file, cfg)
  {
    hide Next, Enabled, Timely, Buffered, Short;
    assert ([a] + rest)[1..] == rest;
  }

  lemma {:induction false} RunConcat(y: Sys, a: seq<Action>, b: seq<Action>, file: seq<byte>, cfg: Config)
    requires cfg.Valid() && Possible(y, a, file, cfg) && Possible(After(y, a, file, cfg), b, file, cfg)
    ensures Possible(y, a + b, file, cfg) && After(y, a + b, file, cfg) == After(After(y, a, file, cfg), b, file, cfg)
    ensures Harmless(y, a, file, cfg) && Harmless(After(y, a, file, cfg), b, file, cfg) ==> Harmless(y, a + b, file, cfg)
    decreases |a|
  {
    hide Next, Enabled, Timely, Buffered, Short;
    if a == [] {
      assert a + b == b;
    } else {
      RunConcat(Next(y, a[0], file, cfg), a[1..], b, file, cfg);
      assert (a + b)[1..] == a[1..] + b;
    }
  }

  /** One block further. */
  lemma Climb(y: Sys, i: nat, others: multiset<Msg>, file: seq<byte>, cfg: Config) returns (actions: seq<Action>)
    requires cfg.Valid() && OnItsWay(y, i, others, file) && i < Blocks(file)
    ensures |actions| == 2 && Possible(y, actions, file, cfg) && Harmless(y, actions, file, cfg)
    ensures OnItsWay(After(y, actions, file, cfg), i + 1, others, file)
  {
    hide AtServer, AtClient, Invariant, BlockAt, Blocks, Timely, Buffered;
    var take, reply := Deliver(BlockMsg(file, i), FINE), Deliver(AckMsg(i), FINE);
    var y1 := AtClient(y, BlockMsg(file, i), FINE, cfg);
    NothingInTheWay(y, i, others, file);
    TakeBlock(y, i, others, file, cfg);
    NothingInTheWay(y1, i, others, file);
    TakeAck(y1, i, others, file, cfg);
    OneThen(y1, reply, [], file, cfg);
    OneThen(y, take, [reply] + [], file, cfg);
    actions := [take] + ([reply] + []);
  }

  lemma {:induction false} ClimbTo(y: Sys, i: nat, j: nat, others: multiset<Msg>, file: seq<byte>, cfg: Config)
    returns (actions: seq<Action>)
    requires cfg.Valid() && OnItsWay(y, i, others, file) && i <= j <= Blocks(file)
    ensures |actions| == 2 * (j - i) && Possible(y, actions, file, cfg) && Harmless(y, actions, file, cfg)
    ensures OnItsWay(After(y, actions, file, cfg), j, others, file)
    decreases j - i
  {
    hide OnItsWay;
    actions := [];
    if i < j {
      var first := Climb(y, i, others, file, cfg);
      var rest := ClimbTo(After(y, first, file, cfg), i + 1, j, others, file, cfg);
      RunConcat(y, first, rest, file, cfg);
      actions := first + rest;
    }
  }

  lemma TakeLastAck(y: Sys, others: multiset<Msg>, file: seq<byte>, cfg: Config)
    requires cfg.Valid() && Taken(y, Blocks(file), others, file)
    ensures var z := AtServer(y, AckMsg(Blocks(file)), FINE, file, cfg);
      z.acknowledged && z.calls == y.calls && z.written == y.written
  {
    hide Transferring, FirstSession, ClientOk;
    var i := Blocks(file);
    AckCases(y.server, Number(i), FINE.(read := ReadAt(file, y.position, true)), cfg);
    BlockFacts(file, i);
  }

  /** The last block and its ACK. */
  lemma Finale(y: Sys, others: multiset<Msg>, file: seq<byte>, cfg: Config) returns (actions: seq<Action>)
    requires cfg.Valid() && OnItsWay(y, Blocks(file), others, file)
    ensures |actions| == 2 && Possible(y, actions, file, cfg) && Harmless(y, actions, file, cfg)
    ensures After(y, actions, file, cfg).acknowledged
  {
    hide AtServer, AtClient, Invariant, BlockAt, Timely, Buffered;
    var i := Blocks(file);
    var take, reply := Deliver(BlockMsg(file, i), FINE), Deliver(AckMsg(i), FINE);
    var y1 := AtClient(y, BlockMsg(file, i), FINE, cfg);
    NothingInTheWay(y, i, others, file);
    TakeBlock(y, i, others, file, cfg);
    NothingInTheWay(y1, i, others, file);
    TakeLastAck(y1, others, file, cfg);
    OneThen(y1, reply, [], file, cfg);
    OneThen(y, take, [reply] + [], file, cfg);
    actions := [take] + ([reply] + []);
  }

  /** The callbacks of a complete transfer. */
  function AllCalls(file: seq<byte>): seq<Call> {
    FullBlocks(file, Blocks(file) - 1) + [Finished(BlockAt(file, Blocks(file)))]
  }

  function RequestMsg(filename: seq<byte>, mode: seq<byte>): Msg {
    Msg(true, Request(false, RequestOf(1, filename, mode)), 0)
  }

  predicate Acceptable(filename: seq<byte>, mode: seq<byte>, cfg: Config) {
    NulFree(filename) && NulFree(mode) && |filename| <= cfg.limits.filename && |mode| <= cfg.limits.mode
  }

  /** A request that is served before anything else happened. */
  lemma RequestServed(y: Sys, others: multiset<Msg>, filename: seq<byte>, mode: seq<byte>, file: seq<byte>, cfg: Config)
    requires cfg.Valid() && Acceptable(filename, mode, cfg) && Invariant(y, file)
    requires y.net == multiset{RequestMsg(filename, mode)} + others && y.sessions == 0 && y.client.open
    ensures var m := RequestMsg(filename, mode);
      WellSized(m.datagram) && OnItsWay(AtServer(y, m, FINE, file, cfg), 1, others, file)
    ensures var first := Deliver(RequestMsg(filename, mode), FINE); Enabled(y, first) && Timely(y, first) && Buffered(y, first)
  {
    hide Parse, RequestOf, Transferring;
    var m := RequestMsg(filename, mode);
    RequestRoundTrip(1, filename, mode, cfg.limits);
    ServerKeeps(y, m, FINE, file, cfg);
    var block := Data(Block(1, BlockAt(file, 1)));
    var opening, fetched, sent := Opened(filename, mode), Fetched(BlockAt(file, 1)), Sent(CLIENT, block);
    var e1 := FINE.(read := ReadAt(file, 0, true));
    assert [opening] + [fetched, sent] == [opening, fetched, sent];
    assert Recv(y.server, CLIENT, m.datagram, e1, cfg).effects == [opening, fetched, sent];
    assert AtServer(y, m, FINE, file, cfg).net == others + Outgoing([opening, fetched, sent], false, 1);
    OutgoingPlus(opening, [fetched, sent], false, 1);
    OneSendOfThree(fetched, sent, false, 1);
  }

  lemma RequestIsSendable(filename: seq<byte>, mode: seq<byte>, cfg: Config)
    requires cfg.Valid() && Acceptable(filename, mode, cfg)
    ensures Sendable(filename, mode)
  {
  }

  /** Delivering each datagram as it comes, the request and then two datagrams for each block, a
      transfer of any file, however long, completes, and nothing the theorems assume is in the way. */
  lemma TransferCanComplete(filename: seq<byte>, mode: seq<byte>, file: seq<byte>, cfg: Config)
    returns (actions: seq<Action>)
    requires cfg.Valid() && Acceptable(filename, mode, cfg)
    ensures |actions| == 2 * Blocks(file) + 1
    ensures var y := Start(filename, mode);
      && Possible(y, actions, file, cfg) && Harmless(y, actions, file, cfg)
      && After(y, actions, file, cfg).acknowledged && After(y, actions, file, cfg).written == file
      && After(y, actions, file, cfg).calls == AllCalls(file)
  {
    hide AtServer, Invariant, BlockAt, Blocks, Timely, Buffered, RequestOf, Transferring, AllCalls;
    var y := Start(filename, mode);
    RequestIsSendable(filename, mode, cfg);
    StartOk(filename, mode, file);
    RequestServed(y, multiset{}, filename, mode, file, cfg);
    var first := Deliver(RequestMsg(filename, mode), FINE);
    var y1 := AtServer(y, first.msg, FINE, file, cfg);
    var climbing := ClimbTo(y1, 1, Blocks(file), multiset{}, file, cfg);
    var ending := Finale(After(y1, climbing, file, cfg), multiset{}, file, cfg);
    RunConcat(y1, climbing, ending, file, cfg);
    OneThen(y, first, climbing + ending, file, cfg);
    actions := [first] + (climbing + ending);
    TransferComplete(filename, mode, actions, file, cfg);
    var z := After(y, actions, file, cfg);
    RunKeeps(y, actions, file, cfg);
    AcknowledgedCalls(z, file);
  }

  lemma AcknowledgedCalls(z: Sys, file: seq<byte>)
    requires Invariant(z, file) && z.acknowledged
    ensures z.calls == AllCalls(file)
  {
    hide NetOk, FirstSession, ServerOk, BlockAt, Blocks;
  }
}
