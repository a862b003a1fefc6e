/** The sender and the receiver of tftp.c at the two ends of a network that loses, duplicates and
    reorders datagrams. Every datagram carries, beside its 16-bit block number, the true index of
    the block it is about; the endpoints never see it. */
module TftpNet {
  import opened Bytes
  import opened Tftp

  const CLIENT: Peer := Peer(1, 69)
  const SERVER: Peer := Peer(2, 69)

  datatype Msg = Msg(toServer: bool, datagram: Datagram, index: nat)

  /** What one datagram made the receiver's callbacks do. */
  datatype Call = Stored(payload: seq<byte>) | Finished(payload: seq<byte>) | Aborted

  datatype Sys = Sys(
    server: Engine,
    sent: nat,             // true index of the block the server is at
    position: nat,         // read position of the file
    client: Engine,
    expected: nat,         // true index of the block the client waits for
    written: seq<byte>,    // everything given to ctx->write
    calls: seq<Call>,      // the callbacks of the client, datagram by datagram
    net: multiset<Msg>,    // datagrams in flight
    sessions: nat,         // how often the server opened the file
    acknowledged: bool)    // the server closed on the ACK of the last block

  // ---------------------------------------------------------------- the file and its blocks

  /** Block i of the file, counting from 1. */
  function BlockAt(file: seq<byte>, i: nat): seq<byte>
    requires i > 0
  {
    file[Min((i - 1) * BLOCK_SIZE, |file|)..Min(i * BLOCK_SIZE, |file|)]
  }

  /** How many blocks there are: the last one is shorter than the others and may be empty. */
  function Blocks(file: seq<byte>): nat {
    |file| / BLOCK_SIZE + 1
  }

  function Before(file: seq<byte>, i: nat): seq<byte>
    requires i > 0
  {
    file[..Min((i - 1) * BLOCK_SIZE, |file|)]
  }

  /** Where block i begins. */
  function StartOf(file: seq<byte>, i: nat): nat
    requires i > 0
  {
    Min((i - 1) * BLOCK_SIZE, |file|)
  }

  lemma BlockFacts(file: seq<byte>, i: nat)
    requires 1 <= i <= Blocks(file)
    ensures |BlockAt(file, i)| < 512 <==> i == Blocks(file)
    ensures |BlockAt(file, i)| <= 512
    ensures Before(file, i) + BlockAt(file, i) == Before(file, i + 1)
    ensures i == Blocks(file) ==> Before(file, i + 1) == file
  {
  }

  function Number(i: nat): u16 {
    i % 0x1_0000
  }

  /** ctx->read: the next 512 bytes, or an error when the disk fails. */
  function ReadAt(file: seq<byte>, position: nat, diskOk: bool): Option<seq<byte>> {
    if diskOk then Some(file[Min(position, |file|)..Min(position + BLOCK_SIZE, |file|)]) else None
  }

  // ---------------------------------------------------------------- steps

  datatype Action =
    | Deliver(msg: Msg, env: Env)
    | Lose(msg: Msg)
    | Duplicate(msg: Msg)
    | ServerTick(env: Env)

  predicate Enabled(y: Sys, a: Action) {
    a.ServerTick? || a.msg in y.net
  }

  /** The datagrams among the effects, with the true index each of them is about. */
  function Outgoing(effects: seq<Effect>, toServer: bool, index: nat): multiset<Msg> {
    if effects == [] then multiset{}
    else if effects[0].Sent? then
      multiset{Msg(toServer, effects[0].datagram, index)} + Outgoing(effects[1..], toServer, index)
    else Outgoing(effects[1..], toServer, index)
  }

  function Fetches(effects: seq<Effect>): nat {
    if effects == [] then 0
    else (if effects[0].Fetched? then |effects[0].payload| else 0) + Fetches(effects[1..])
  }

  /** The server takes a datagram. */
  function AtServer(y: Sys, m: Msg, env: Env, file: seq<byte>, cfg: Config): Sys
    requires cfg.Valid() && WellSized(m.datagram)
  {
    var position := if m.datagram.Request? && !y.server.open then 0 else y.position;
    var o := Recv(y.server, CLIENT, m.datagram, env.(read := ReadAt(file, position, env.read.Some?)), cfg);
    var begun := o.effects != [] && o.effects[0].Opened?;
    var sent := if begun then 1 else if o.engine.blknum != y.server.blknum then y.sent + 1 else y.sent;
    y.(server := o.engine,
       sent := sent,
       position := position + Fetches(o.effects),
       net := y.net - multiset{m} + Outgoing(o.effects, false, sent),
       sessions := y.sessions + One(begun),
       acknowledged := y.acknowledged || (m.datagram.Ack? && o.effects == [Closed]))
  }

  function CallsOf(before: Engine, o: Outcome): seq<Call> {
    if o.effects != [] && o.effects[0].Wrote? && o.effects[0].ok then
      if o.engine.open then [Stored(o.effects[0].payload)] else [Finished(o.effects[0].payload)]
    else if before.open && !o.engine.open then [Aborted]
    else []
  }

  function Payloads(calls: seq<Call>): seq<byte> {
    if calls == [] || calls[0].Aborted? then [] else calls[0].payload
  }

  /** The client takes a datagram. */
  function AtClient(y: Sys, m: Msg, env: Env, cfg: Config): Sys
    requires cfg.Valid() && WellSized(m.datagram)
  {
    var o := Recv(y.client, SERVER, m.datagram, env, cfg);
    var calls := CallsOf(y.client, o);
    y.(client := o.engine,
       expected := y.expected + (if calls != [] && !calls[0].Aborted? then 1 else 0),
       written := y.written + Payloads(calls),
       calls := y.calls + calls,
       net := y.net - multiset{m} + Outgoing(o.effects, true, m.index))
  }

  function Next(y: Sys, a: Action, file: seq<byte>, cfg: Config): Sys
    requires cfg.Valid() && Enabled(y, a) && (a.Deliver? ==> WellSized(a.msg.datagram))
  {
    match a
    case Deliver(m, env) => if m.toServer then AtServer(y, m, env, file, cfg) else AtClient(y, m, env, cfg)
    case Lose(m) => y.(net := y.net - multiset{m})
    case Duplicate(m) => y.(net := y.net + multiset{m})
    case ServerTick(env) =>
      var o := Tick(y.server, env, cfg);
      y.(server := o.engine, net := y.net + Outgoing(o.effects, false, y.sent))
  }

  /** A transfer begins with the client's request on its way. */
  function Start(filename: seq<byte>, mode: seq<byte>): Sys {
    var o := Get(Idle(false, true), SERVER, filename, mode, Env(true, true, true, None, true));
    Sys(Idle(true, false), 0, 0, o.engine, 1, [], [], Outgoing(o.effects, true, 0), 0, false)
  }

  // ---------------------------------------------------------------- the environment

  /** A datagram about block i is taken for one about another block: their numbers agree in sixteen
      bits. */
  predicate Misread(i: nat, current: nat) {
    i != current && Number(i) == Number(current)
  }

  /** No datagram that is delivered is misread where that does harm: an ACK for another block does
      none when the client has the block the server is at. */
  predicate Timely(y: Sys, a: Action) {
    a.Deliver? ==>
      && (a.msg.datagram.Data? && y.client.open ==> !Misread(a.msg.index, y.expected))
      && (a.msg.datagram.Ack? && y.server.open ==> y.sent < y.expected || !Misread(a.msg.index, y.sent))
  }

  /** An ACK that matches meets a server that holds its block, not one that had no memory for it. */
  predicate Buffered(y: Sys, a: Action) {
    !(a.Deliver? && a.msg.toServer && y.server.open && y.server.last.None? && a.msg.datagram == Ack(y.server.blknum))
  }

  // ---------------------------------------------------------------- the invariant

  ghost predicate MsgOk(m: Msg, expected: nat, file: seq<byte>) {
    match m.datagram
    case Request(write, raw) => m.toServer && !write && WellSized(m.datagram)
    case Data(block) =>
      !m.toServer && 1 <= m.index <= Blocks(file) && m.index <= expected
      && block == Block(Number(m.index), BlockAt(file, m.index))
    case Ack(number) =>
      m.toServer && 1 <= m.index <= Blocks(file) && m.index < expected && number == Number(m.index)
    case Error(_) => true
    case Unknown => false
  }

  ghost predicate NetOk(y: Sys, file: seq<byte>) {
    forall m <- y.net :: MsgOk(m, y.expected, file)
  }

  /** In the server's first session it has sent nothing beyond its current block, and has not sent
      that one either if it holds no buffer. */
  ghost predicate FirstSession(y: Sys) {
    && (y.sessions == 0 ==> y.expected == 1 && !y.server.open && forall m <- y.net :: !m.datagram.Data?)
    && (y.sessions == 1 && y.server.open ==>
        forall m <- y.net :: m.datagram.Data? ==> m.index <= y.sent && (y.server.last.None? ==> m.index < y.sent))
  }

  ghost predicate ServerOk(y: Sys, file: seq<byte>) {
    && y.server.server && Clean(y.server)
    && (y.server.open ==>
        && !y.server.writing && y.server.peer == CLIENT && y.sessions >= 1
        && 1 <= y.sent <= Blocks(file) && y.sent <= y.expected && y.server.blknum == Number(y.sent)
        && (y.sessions == 1 ==> y.expected <= y.sent + 1)
        && (y.server.last.None? ==>
            y.position == StartOf(file, y.sent) && (y.sessions == 1 ==> y.expected == y.sent))
        && (y.server.last.Some? ==>
            && y.server.last.value == Block(Number(y.sent), BlockAt(file, y.sent))
            && y.position == Min(y.sent * BLOCK_SIZE, |file|)))
  }

  function FullBlocks(file: seq<byte>, k: nat): (c: seq<Call>)
    ensures |c| == k && forall i | 0 <= i < k :: c[i] == Stored(BlockAt(file, i + 1))
  {
    seq(k, i requires 0 <= i < k => Stored(BlockAt(file, i + 1)))
  }

  /** The callbacks a transfer of file can have made so far. */
  ghost predicate Transferring(file: seq<byte>, calls: seq<Call>, open: bool, expected: nat) {
    if open then 1 <= expected <= Blocks(file) && calls == FullBlocks(file, expected - 1)
    else if expected == Blocks(file) + 1 then
      calls == FullBlocks(file, Blocks(file) - 1) + [Finished(BlockAt(file, Blocks(file)))]
    else 1 <= expected <= Blocks(file) && calls == FullBlocks(file, expected - 1) + [Aborted]
  }

  ghost predicate ClientOk(y: Sys, file: seq<byte>) {
    && !y.client.server && y.client.peer == ANYONE && y.client.last == None
    && (y.client.open ==> y.client.writing && y.client.blknum == Number(y.expected))
    && 1 <= y.expected <= Blocks(file) + 1
    && y.written == Before(file, y.expected)
    && Transferring(file, y.calls, y.client.open, y.expected)
  }

  ghost predicate Invariant(y: Sys, file: seq<byte>) {
    && NetOk(y, file) && FirstSession(y) && ServerOk(y, file) && ClientOk(y, file)
    && (y.acknowledged ==> y.expected == Blocks(file) + 1)
  }

  // ---------------------------------------------------------------- what the effects add to the network

  ghost predicate SendsOk(effects: seq<Effect>, toServer: bool, index: nat, expected: nat, file: seq<byte>) {
    forall e <- effects :: e.Sent? ==> MsgOk(Msg(toServer, e.datagram, index), expected, file)
  }

  lemma {:induction false} OutgoingFrom(effects: seq<Effect>, toServer: bool, index: nat, m: Msg)
    requires m in Outgoing(effects, toServer, index)
    ensures m.toServer == toServer && m.index == index
    ensures exists e <- effects :: e.Sent? && e.datagram == m.datagram
  {
    if effects[0].Sent? && m == Msg(toServer, effects[0].datagram, index) {
    } else {
      OutgoingFrom(effects[1..], toServer, index, m);
    }
  }

  lemma OutgoingOk(effects: seq<Effect>, toServer: bool, index: nat, expected: nat, file: seq<byte>)
    requires SendsOk(effects, toServer, index, expected, file)
    ensures forall m <- Outgoing(effects, toServer, index) :: MsgOk(m, expected, file) && m.index == index
  {
    hide MsgOk;
    forall m <- Outgoing(effects, toServer, index) ensures MsgOk(m, expected, file) && m.index == index {
      OutgoingFrom(effects, toServer, index, m);
    }
  }

  lemma OlderOk(m: Msg, expected: nat, later: nat, file: seq<byte>)
    requires MsgOk(m, expected, file) && expected <= later
    ensures MsgOk(m, later, file)
  {
  }

  lemma NetStaysOk(y: Sys, z: Sys, more: multiset<Msg>, file: seq<byte>)
    requires NetOk(y, file) && y.expected <= z.expected && z.net <= y.net + more
    requires forall m <- more :: MsgOk(m, z.expected, file)
    ensures NetOk(z, file)
  {
    hide MsgOk;
    forall m <- z.net ensures MsgOk(m, z.expected, file) {
      if m in y.net {
        OlderOk(m, y.expected, z.expected, file);
      } else {
        assert m in more;
      }
    }
  }

  // ---------------------------------------------------------------- the client's steps

  /** A block arrives that is not the one the client waits for, or when it waits for none: at most a
      datagram is sent. */
  lemma ClientIgnores(c: Engine, m: Msg, env: Env, cfg: Config, expected: nat, file: seq<byte>)
    requires cfg.Valid() && c.peer == ANYONE && m.datagram.Data? && MsgOk(m, expected, file)
    requires c.open ==> c.writing && c.blknum == Number(expected)
    requires c.open ==> m.index != expected && !Misread(m.index, expected)
    ensures var o := Recv(c, SERVER, m.datagram, env, cfg);
      && o.engine == c.(lastPacket := c.timer, retries := 0)
      && CallsOf(c, o) == [] && SendsOk(o.effects, true, m.index, expected, file)
  {
  }

  /** The awaited block is stored, or the transfer breaks off. */
  lemma ClientTakes(c: Engine, m: Msg, env: Env, cfg: Config, expected: nat, file: seq<byte>)
    requires cfg.Valid() && c.peer == ANYONE && m.datagram.Data? && MsgOk(m, expected, file)
    requires c.open && c.writing && c.blknum == Number(expected) && m.index == expected
    ensures var o := Recv(c, SERVER, m.datagram, env, cfg);
      var p := BlockAt(file, expected);
      && o.engine.server == c.server && o.engine.peer == ANYONE && (c.last == None ==> o.engine.last == None)
      && (!env.writeOk ==> !o.engine.open && CallsOf(c, o) == [Aborted])
      && (env.writeOk ==> o.engine.open == (expected < Blocks(file)))
      && (env.writeOk && expected < Blocks(file) ==>
            CallsOf(c, o) == [Stored(p)] && o.engine.writing && o.engine.blknum == Number(expected + 1))
      && (env.writeOk && expected == Blocks(file) ==> CallsOf(c, o) == [Finished(p)])
      && SendsOk(o.effects, true, m.index, expected + (if env.writeOk then 1 else 0), file)
  {
    hide RecvData, BlockAt, Blocks;
    BlockFacts(file, expected);
    var t := c.(lastPacket := c.timer, retries := 0);
    assert Recv(c, SERVER, m.datagram, env, cfg) == RecvData(t, SERVER, m.datagram.block, env);
    if env.writeOk {
      TakenBlock(t, m.datagram.block, env, expected, file);
    } else {
      RefusedBlock(t, m.datagram.block, env, expected, file);
    }
  }

  lemma TakenBlock(t: Engine, block: Block, env: Env, expected: nat, file: seq<byte>)
    requires t.open && t.writing && t.blknum == block.number == Number(expected) && env.writeOk
    requires 1 <= expected <= Blocks(file)
    ensures var o := RecvData(t, SERVER, block, env);
      && o.effects != [] && o.effects[0] == Wrote(block.payload, true)
      && SendsOk(o.effects, true, expected, expected + 1, file)
      && if |block.payload| < BLOCK_SIZE then o.engine == t.(open := false, peer := ANYONE, last := None)
         else o.engine == t.(blknum := Number(expected + 1))
  {
    hide BlockAt, Blocks;
  }

  lemma RefusedBlock(t: Engine, block: Block, env: Env, expected: nat, file: seq<byte>)
    requires t.open && t.writing && t.blknum == block.number && !env.writeOk
    ensures var o := RecvData(t, SERVER, block, env);
      && o.effects != [] && o.effects[0] == Wrote(block.payload, false)
      && SendsOk(o.effects, true, expected, expected, file)
      && o.engine == t.(open := false, peer := ANYONE, last := None, blknum := o.engine.blknum)
  {
  }

  lemma ClientError(c: Engine, m: Msg, env: Env, cfg: Config)
    requires cfg.Valid() && c.peer == ANYONE && m.datagram.Error?
    ensures var o := Recv(c, SERVER, m.datagram, env, cfg);
      && o.engine.server == c.server && !o.engine.open && o.engine.peer == ANYONE
      && (c.last == None ==> o.engine.last == None)
      && CallsOf(c, o) == (if c.open then [Aborted] else [])
      && forall e <- o.effects :: !e.Sent?
  {
  }

  /** A client step that takes in nothing leaves everything but the network as it was. */
  lemma ClientUnmoved(y: Sys, z: Sys, more: multiset<Msg>, file: seq<byte>)
    requires Invariant(y, file)
    requires z == y.(client := z.client, calls := z.calls, net := z.net) && z.net <= y.net + more
    requires forall m <- more :: MsgOk(m, y.expected, file) && m.toServer
    requires ClientOk(z, file)
    ensures Invariant(z, file)
  {
    hide MsgOk, ClientOk;
    NetStaysOk(y, z, more, file);
    forall m <- z.net | m.datagram.Data? ensures m in y.net {
      if m !in y.net {
        assert m in more;
        AckOrError(m, y.expected, file);
      }
    }
  }

  lemma AckOrError(m: Msg, expected: nat, file: seq<byte>)
    requires MsgOk(m, expected, file) && m.toServer
    ensures !m.datagram.Data?
  {
  }

  lemma ClientIgnoreKeeps(y: Sys, m: Msg, env: Env, file: seq<byte>, cfg: Config)
    requires cfg.Valid() && Invariant(y, file) && m in y.net && !m.toServer && m.datagram.Data?
    requires y.client.open ==> m.index != y.expected && !Misread(m.index, y.expected)
    ensures Invariant(AtClient(y, m, env, cfg), file)
  {
    hide Recv, CallsOf, FirstSession, ServerOk, Transferring;
    var o := Recv(y.client, SERVER, m.datagram, env, cfg);
    ClientIgnores(y.client, m, env, cfg, y.expected, file);
    OutgoingOk(o.effects, true, m.index, y.expected, file);
    OutgoingToServer(o.effects, true, m.index);
    var z := AtClient(y, m, env, cfg);
    assert z.calls == y.calls && z.written == y.written;
    ClientUnmoved(y, z, Outgoing(o.effects, true, m.index), file);
  }

  lemma OutgoingToServer(effects: seq<Effect>, toServer: bool, index: nat)
    ensures forall m <- Outgoing(effects, toServer, index) :: m.toServer == toServer
  {
    forall m <- Outgoing(effects, toServer, index) ensures m.toServer == toServer {
      OutgoingFrom(effects, toServer, index, m);
    }
  }

  lemma ClientErrorKeeps(y: Sys, m: Msg, env: Env, file: seq<byte>, cfg: Config)
    requires cfg.Valid() && Invariant(y, file) && m in y.net && !m.toServer && m.datagram.Error?
    ensures Invariant(AtClient(y, m, env, cfg), file)
  {
    hide Recv, CallsOf, FirstSession, ServerOk;
    var o := Recv(y.client, SERVER, m.datagram, env, cfg);
    ClientError(y.client, m, env, cfg);
    OutgoingOk(o.effects, true, m.index, y.expected, file);
    OutgoingToServer(o.effects, true, m.index);
    var z := AtClient(y, m, env, cfg);
    if !y.client.open {
      assert z.calls == y.calls;
    }
    ClientUnmoved(y, z, Outgoing(o.effects, true, m.index), file);
  }

  /** The client moves on to the next block. */
  lemma ClientMoves(y: Sys, z: Sys, more: multiset<Msg>, m: Msg, file: seq<byte>)
    requires Invariant(y, file) && m in y.net && m.datagram.Data? && m.index == y.expected
    requires z == y.(client := z.client, calls := z.calls, net := z.net, expected := y.expected + 1, written := z.written)
    requires z.net <= y.net + more
    requires forall m <- more :: MsgOk(m, z.expected, file) && m.toServer
    requires ClientOk(z, file)
    requires y.expected <= Blocks(file)
    ensures Invariant(z, file)
  {
    hide MsgOk, ClientOk;
    NetStaysOk(y, z, more, file);
    forall m <- z.net | m.datagram.Data? ensures m in y.net {
      if m !in y.net {
        assert m in more;
        AckOrError(m, z.expected, file);
      }
    }
  }

  lemma ClientTakeKeeps(y: Sys, m: Msg, env: Env, file: seq<byte>, cfg: Config)
    requires cfg.Valid() && Invariant(y, file) && m in y.net && !m.toServer && m.datagram.Data?
    requires y.client.open && m.index == y.expected
    ensures Invariant(AtClient(y, m, env, cfg), file)
  {
    hide Recv, CallsOf, FirstSession, ServerOk, BlockAt, Blocks;
    var o := Recv(y.client, SERVER, m.datagram, env, cfg);
    var z := AtClient(y, m, env, cfg);
    ClientTakes(y.client, m, env, cfg, y.expected, file);
    OutgoingOk(o.effects, true, m.index, z.expected, file);
    OutgoingToServer(o.effects, true, m.index);
    BlockFacts(file, y.expected);
    if env.writeOk {
      assert z.written == Before(file, z.expected);
      if y.expected < Blocks(file) {
        assert z.calls == FullBlocks(file, z.expected - 1);
      }
      ClientMoves(y, z, Outgoing(o.effects, true, m.index), m, file);
    } else {
      assert z.written == y.written;
      ClientUnmoved(y, z, Outgoing(o.effects, true, m.index), file);
    }
  }

  lemma ClientKeeps(y: Sys, m: Msg, env: Env, file: seq<byte>, cfg: Config)
    requires cfg.Valid() && Invariant(y, file) && m in y.net && !m.toServer && Timely(y, Deliver(m, env))
    ensures WellSized(m.datagram) && Invariant(AtClient(y, m, env, cfg), file)
  {
    hide ServerOk, ClientOk, FirstSession, Number;
    assert MsgOk(m, y.expected, file);
    if m.datagram.Error? {
      ClientErrorKeeps(y, m, env, file, cfg);
    } else if y.client.open && m.index == y.expected {
      ClientTakeKeeps(y, m, env, file, cfg);
    } else {
      ClientIgnoreKeeps(y, m, env, file, cfg);
    }
  }

  // ---------------------------------------------------------------- the server's steps

  lemma FetchesOne(p: seq<byte>, to: Peer, d: Datagram, env: Env)
    ensures Fetches([Fetched(p)] + Send(to, d, env)) == |p|
  {
    var rest := Send(to, d, env);
    assert ([Fetched(p)] + rest)[1..] == rest;
    if env.sendOk {
      assert Fetches(rest) == Fetches(rest[1..]) == 0;
    }
  }

  /** The server, just moved to block i, fetches and sends it. */
  lemma ServerSends(t: Engine, i: nat, env: Env, diskOk: bool, expected: nat, file: seq<byte>)
    requires 1 <= i <= Blocks(file) && i <= expected && t.blknum == Number(i) && t.open
    requires env.read == ReadAt(file, StartOf(file, i), diskOk)
    ensures var o := SendData(t, CLIENT, env);
      && o.effects != [Closed] && (o.effects != [] ==> !o.effects[0].Opened?)
      && SendsOk(o.effects, false, i, expected, file)
      && (!env.bufferOk ==> o == Outcome(t.(last := None), []))
      && (env.bufferOk && !diskOk ==> o.engine == t.(peer := ANYONE, last := None, open := false))
      && (env.bufferOk && diskOk ==>
            && o.engine == t.(last := Some(Block(Number(i), BlockAt(file, i))))
            && StartOf(file, i) + Fetches(o.effects) == Min(i * BLOCK_SIZE, |file|))
  {
    if env.bufferOk && diskOk {
      var p := env.read.value;
      assert p == BlockAt(file, i);
      FetchesOne(p, CLIENT, Data(Block(t.blknum, p)), env);
    }
  }

  /** A server step in which the server only answers: its place in the file is unchanged. */
  lemma ServerUnmoved(y: Sys, z: Sys, more: multiset<Msg>, file: seq<byte>)
    requires Invariant(y, file)
    requires z == y.(server := z.server, sent := z.sent, position := z.position, net := z.net) && z.net <= y.net + more
    requires z.server.server && Clean(z.server)
    requires z.server.open ==>
      && y.server.open && z.sent == y.sent && z.position == y.position
      && z.server.last == y.server.last && z.server.blknum == y.server.blknum
      && z.server.writing == y.server.writing && z.server.peer == y.server.peer
    requires forall m <- more ::
      && MsgOk(m, y.expected, file)
      && (m.datagram.Data? ==> y.server.open && y.server.last.Some? && m.index == y.sent)
    ensures Invariant(z, file)
  {
    hide MsgOk, ClientOk;
    NetStaysOk(y, z, more, file);
    assert ClientOk(z, file) by { ClientFramed(y, z, file); }
    forall m <- z.net | m.datagram.Data?
      ensures m in y.net || (y.server.open && y.server.last.Some? && m.index == y.sent)
    {
      if m !in y.net {
        assert m in more;
      }
    }
  }

  lemma ClientFramed(y: Sys, z: Sys, file: seq<byte>)
    requires ClientOk(y, file)
    requires z.client == y.client && z.expected == y.expected && z.written == y.written && z.calls == y.calls
    ensures ClientOk(z, file)
  {
  }

  lemma ServerErrorKeeps(y: Sys, m: Msg, env: Env, file: seq<byte>, cfg: Config)
    requires cfg.Valid() && Invariant(y, file) && m in y.net && m.toServer && m.datagram.Error?
    ensures Invariant(AtServer(y, m, env, file, cfg), file)
  {
    hide FirstSession, ClientOk;
    var z := AtServer(y, m, env, file, cfg);
    var o := RecvError(y.server.(lastPacket := y.server.timer, retries := 0), m.datagram.code);
    var more := Outgoing(o.effects, false, z.sent);
    forall n <- more ensures false {
      OutgoingFrom(o.effects, false, z.sent, n);
    }
    ServerUnmoved(y, z, more, file);
  }

  lemma TickKeeps(y: Sys, env: Env, file: seq<byte>, cfg: Config)
    requires cfg.Valid() && Invariant(y, file)
    ensures Invariant(y.(server := Tick(y.server, env, cfg).engine,
                         net := y.net + Outgoing(Tick(y.server, env, cfg).effects, false, y.sent)), file)
  {
    hide FirstSession, ClientOk;
    var o := Tick(y.server, env, cfg);
    var more := Outgoing(o.effects, false, y.sent);
    if y.server.open && y.server.last.Some? {
      assert MsgOk(Msg(false, Data(y.server.last.value), y.sent), y.expected, file);
    }
    assert SendsOk(o.effects, false, y.sent, y.expected, file);
    OutgoingOk(o.effects, false, y.sent, y.expected, file);
    forall m <- more ensures y.server.open && y.server.last.Some? && m.index == y.sent {
      OutgoingFrom(o.effects, false, y.sent, m);
    }
    ServerUnmoved(y, y.(server := o.engine, net := y.net + more), more, file);
  }
}
