/** tftp.c: one TFTP endpoint as a function of its state and the event that reaches it. Every call
    to the network or to the context's callbacks is an Effect; every answer from outside is in Env. */
module Tftp {
  import opened Bytes
  import opened Request

  /** TFTP_MAX_PAYLOAD_SIZE */
  const BLOCK_SIZE: nat := 512

  /** The compile-time constants: timeoutTicks is TFTP_TIMEOUT_MSECS / TFTP_TIMER_MSECS. */
  datatype Config = Config(limits: Limits, timeoutTicks: nat, maxRetries: nat) {
    predicate Valid() {
      limits.Valid() && maxRetries < 0x100
    }
  }

  /** An address and a port; zero stands for any address and for no port. */
  datatype Peer = Peer(addr: nat, port: u16)

  const ANYONE: Peer := Peer(0, 0)

  datatype Block = Block(number: u16, payload: seq<byte>)

  datatype Datagram =
    | Request(write: bool, raw: seq<byte>)
    | Data(block: Block)
    | Ack(number: u16)
    | Error(code: u16)
    | Unknown

  const ACCESS_VIOLATION: u16 := 2
  const FILE_NOT_FOUND: u16 := 1
  const ILLEGAL_OPERATION: u16 := 4
  const UNKNOWN_TRANSFER: u16 := 5

  datatype Engine = Engine(
    open: bool,           // handle != NULL
    writing: bool,        // mode_write: this end receives data
    blknum: u16,
    last: Option<Block>,  // last_data
    peer: Peer,
    timer: int,
    lastPacket: int,
    retries: nat,
    server: bool,
    client: bool)

  /** What the outside answers during one event. */
  datatype Env = Env(
    bufferOk: bool,             // last_data could be allocated
    sendOk: bool,               // the datagram to send could be allocated and handed over
    openOk: bool,               // ctx->open returned a handle
    read: Option<seq<byte>>,    // ctx->read, None for an error
    writeOk: bool)              // ctx->write succeeded

  datatype Effect =
    | Sent(to: Peer, datagram: Datagram)
    | Opened(filename: seq<byte>, mode: seq<byte>)
    | Fetched(payload: seq<byte>)
    | FetchFailed
    | Wrote(payload: seq<byte>, ok: bool)
    | Failed(code: u16)
    | Closed

  datatype Outcome = Outcome(engine: Engine, effects: seq<Effect>) {
    function After(earlier: seq<Effect>): Outcome {
      Outcome(engine, earlier + effects)
    }
  }

  function Idle(server: bool, client: bool): Engine {
    Engine(false, false, 0, None, ANYONE, 0, 0, 0, server, client)
  }

  // ---------------------------------------------------------------- the helpers of tftp.c

  function Send(to: Peer, d: Datagram, env: Env): seq<Effect> {
    if env.sendOk then [Sent(to, d)] else []
  }

  function Refuse(s: Engine, to: Peer, code: u16, env: Env): Outcome {
    Outcome(s, Send(to, Error(code), env))
  }

  /** close_handle */
  function CloseHandle(s: Engine): Outcome {
    Outcome(s.(peer := ANYONE, last := None, open := false), if s.open then [Closed] else [])
  }

  /** send_data */
  function SendData(s: Engine, to: Peer, env: Env): Outcome {
    if !env.bufferOk then Outcome(s.(last := None), [])
    else
      match env.read
      case None => CloseHandle(s).After([FetchFailed] + Send(to, Error(ACCESS_VIOLATION), env))
      case Some(payload) =>
        var block := Block(s.blknum, payload);
        Outcome(s.(last := Some(block)), [Fetched(payload)] + Send(to, Data(block), env))
  }

  // ---------------------------------------------------------------- tftp_recv

  predicate Stranger(s: Engine, from: Peer) {
    (s.peer.port != 0 && from.port != s.peer.port) || (s.peer.addr != 0 && from.addr != s.peer.addr)
  }

  function RecvRequest(s: Engine, from: Peer, write: bool, raw: seq<byte>, env: Env, cfg: Config): Outcome
    requires cfg.Valid() && 2 <= |raw| < 0xffff
  {
    if s.open || !s.server then Refuse(s, from, ACCESS_VIOLATION, env)
    else
      match Parse(raw, cfg.limits)
      case Parsed(filename, mode) =>
        if !env.openOk then Refuse(s.(blknum := 1), from, FILE_NOT_FOUND, env)
        else
          var t := s.(open := true, blknum := 1, peer := from, writing := write);
          (if write then Outcome(t, Send(from, Ack(0), env)) else SendData(t, from, env)).After([Opened(filename, mode)])
      case _ => Refuse(s, from, ACCESS_VIOLATION, env)
  }

  /** The expected block goes to ctx->write. */
  function Accept(s: Engine, from: Peer, block: Block, env: Env): Outcome {
    if env.writeOk then Outcome(s, [Wrote(block.payload, true)] + Send(from, Ack(block.number), env))
    else CloseHandle(s).After([Wrote(block.payload, false)] + Send(from, Error(ACCESS_VIOLATION), env))
  }

  function RecvData(s: Engine, from: Peer, block: Block, env: Env): Outcome {
    if !s.open || !s.writing then Refuse(s, from, ACCESS_VIOLATION, env)
    else if block.number == s.blknum then
      var first := Accept(s, from, block, env);
      if |block.payload| < BLOCK_SIZE then CloseHandle(first.engine).After(first.effects)
      else Outcome(first.engine.(blknum := (s.blknum + 1) % 0x1_0000), first.effects)
    else if (block.number + 1) % 0x1_0000 == s.blknum then Outcome(s, Send(from, Ack(block.number), env))
    else Refuse(s, from, UNKNOWN_TRANSFER, env)
  }

  /** A shorter block than the full size was the last one. */
  predicate LastSent(s: Engine) {
    s.last.Some? && |s.last.value.payload| != BLOCK_SIZE
  }

  function RecvAck(s: Engine, from: Peer, number: u16, env: Env): Outcome {
    if !s.open || s.writing then Refuse(s, from, ACCESS_VIOLATION, env)
    else if number != s.blknum then Refuse(s, from, UNKNOWN_TRANSFER, env)
    else if !LastSent(s) then SendData(s.(blknum := (s.blknum + 1) % 0x1_0000), from, env)
    else CloseHandle(s)
  }

  /** The code goes to ctx->error as it lies in memory, not converted from network order. */
  function Unconverted(n: u16): u16 {
    n % 0x100 * 0x100 + n / 0x100
  }

  function RecvError(s: Engine, code: u16): Outcome {
    if s.open then CloseHandle(s).After([Failed(Unconverted(code))]) else Outcome(s, [])
  }

  /** Datagrams shorter than their fixed part do not occur, and a request is one for reading or for
      writing by its first two bytes. */
  predicate WellSized(d: Datagram) {
    d.Request? ==> 2 <= |d.raw| < 0xffff && Network(d.raw, 0) == if d.write then 2 else 1
  }

  function Recv(s: Engine, from: Peer, d: Datagram, env: Env, cfg: Config): Outcome
    requires cfg.Valid() && WellSized(d)
  {
    if Stranger(s, from) then Refuse(s, from, ACCESS_VIOLATION, env)
    else
      var t := s.(lastPacket := s.timer, retries := 0);
      match d
      case Request(write, raw) => RecvRequest(t, from, write, raw, env, cfg)
      case Data(block) => RecvData(t, from, block, env)
      case Ack(number) => RecvAck(t, from, number, env)
      case Error(code) => RecvError(t, code)
      case Unknown => Refuse(t, from, ILLEGAL_OPERATION, env)
  }

  // ---------------------------------------------------------------- tftp_tmr and tftp_get

  function Tick(s: Engine, env: Env, cfg: Config): Outcome {
    var t := s.(timer := s.timer + 1);
    if !t.open || t.timer - t.lastPacket <= cfg.timeoutTicks then Outcome(t, [])
    else if t.last.Some? && t.retries < cfg.maxRetries then
      Outcome(t.(retries := t.retries + 1), Send(t.peer, Data(t.last.value), env))
    else CloseHandle(t)
  }

  function Get(s: Engine, to: Peer, filename: seq<byte>, mode: seq<byte>, env: Env): Outcome {
    if !s.client then Outcome(s, [])
    else Outcome(s.(open := true, blknum := 1, writing := true), Send(to, Request(false, RequestOf(1, filename, mode)), env))
  }

  /** tftp_put */
  function PutFile(s: Engine, to: Peer, filename: seq<byte>, mode: seq<byte>, env: Env): Outcome {
    if !s.client then Outcome(s, [])
    else Outcome(s.(open := true, blknum := 1, writing := false), Send(to, Request(true, RequestOf(2, filename, mode)), env))
  }

  // ---------------------------------------------------------------- whole runs of one endpoint

  datatype Event =
    | Arrive(from: Peer, datagram: Datagram, env: Env)
    | Timer(env: Env)
    | StartGet(to: Peer, filename: seq<byte>, mode: seq<byte>, env: Env)

  /** tftp_get is called only when no transfer is going on. */
  predicate Allowed(s: Engine, e: Event) {
    match e
    case Arrive(_, d, _) => WellSized(d)
    case Timer(_) => true
    case StartGet(_, _, _, _) => !s.open
  }

  function Step(s: Engine, e: Event, cfg: Config): Outcome
    requires cfg.Valid() && Allowed(s, e)
  {
    match e
    case Arrive(from, d, env) => Recv(s, from, d, env, cfg)
    case Timer(env) => Tick(s, env, cfg)
    case StartGet(to, filename, mode, env) => Get(s, to, filename, mode, env)
  }

  ghost predicate AllowedRun(s: Engine, events: seq<Event>, cfg: Config)
    requires cfg.Valid()
    decreases |events|
  {
    events == [] || (Allowed(s, events[0]) && AllowedRun(Step(s, events[0], cfg).engine, events[1..], cfg))
  }

  function Run(s: Engine, events: seq<Event>, cfg: Config): Outcome
    requires cfg.Valid() && AllowedRun(s, events, cfg)
    decreases |events|
  {
    if events == [] then Outcome(s, [])
    else
      var first := Step(s, events[0], cfg);
      Run(first.engine, events[1..], cfg).After(first.effects)
  }

  // ---------------------------------------------------------------- properties of every run

  /** Without a handle there is no peer and no buffer held. */
  predicate Clean(s: Engine) {
    !s.open ==> s.peer == ANYONE && s.last == None
  }

  function Closes(effects: seq<Effect>): nat {
    if effects == [] then 0 else (if effects[0].Closed? then 1 else 0) + Closes(effects[1..])
  }

  lemma {:induction false} ClosesConcat(a: seq<Effect>, b: seq<Effect>)
    ensures Closes(a + b) == Closes(a) + Closes(b)
  {
    if a == [] {
      assert a + b == b;
    } else {
      ClosesConcat(a[1..], b);
      assert a + b == [a[0]] + (a[1..] + b);
    }
  }

  /** Sessions begun by one event: opened for a peer, or by tftp_get. */
  function Begins(s: Engine, e: Event, cfg: Config): nat
    requires cfg.Valid() && Allowed(s, e)
  {
    var effects := Step(s, e, cfg).effects;
    if e.StartGet? && s.client then 1
    else if effects != [] && effects[0].Opened? then 1
    else 0
  }

  function Begun(s: Engine, events: seq<Event>, cfg: Config): nat
    requires cfg.Valid() && AllowedRun(s, events, cfg)
    decreases |events|
  {
    if events == [] then 0
    else Begins(s, events[0], cfg) + Begun(Step(s, events[0], cfg).engine, events[1..], cfg)
  }

  function One(b: bool): nat {
    if b then 1 else 0
  }

  ghost predicate Balanced(s: Engine, o: Outcome, begun: nat) {
    Clean(o.engine) && One(s.open) + begun == One(o.engine.open) + Closes(o.effects)
  }

  lemma ClosesFirst(e: Effect, rest: seq<Effect>)
    ensures Closes([e] + rest) == (if e.Closed? then 1 else 0) + Closes(rest)
  {
    assert ([e] + rest)[1..] == rest;
  }

  lemma SendDataBalances(s: Engine, to: Peer, env: Env)
    requires s.open
    ensures Balanced(s, SendData(s, to, env), 0)
  {
    ClosesConcat([FetchFailed] + Send(to, Error(ACCESS_VIOLATION), env), [Closed]);
    if env.read.Some? {
      var block := Block(s.blknum, env.read.value);
      ClosesFirst(Fetched(env.read.value), Send(to, Data(block), env));
    }
  }

  lemma SendCloses(to: Peer, d: Datagram, env: Env)
    ensures Closes(Send(to, d, env)) == 0
    ensures forall e <- Send(to, d, env) :: e.Sent?
  {
    if env.sendOk {
      ClosesFirst(Sent(to, d), []);
      assert [Sent(to, d)] + [] == Send(to, d, env);
    }
  }

  lemma RequestBalances(s: Engine, from: Peer, write: bool, raw: seq<byte>, env: Env, cfg: Config)
    requires cfg.Valid() && 2 <= |raw| < 0xffff && Clean(s)
    ensures var o := RecvRequest(s, from, write, raw, env, cfg);
            Balanced(s, o, if o.effects != [] && o.effects[0].Opened? then 1 else 0)
  {
    hide Parse, SendData;
    var p := Parse(raw, cfg.limits);
    SendCloses(from, Error(ACCESS_VIOLATION), env);
    SendCloses(from, Error(FILE_NOT_FOUND), env);
    if !s.open && s.server && p.Parsed? && env.openOk {
      var t := s.(open := true, blknum := 1, peer := from, writing := write);
      SendDataBalances(t, from, env);
      ClosesFirst(Opened(p.filename, p.mode), SendData(t, from, env).effects);
      ClosesFirst(Opened(p.filename, p.mode), Send(from, Ack(0), env));
    }
  }

  lemma DataBalances(s: Engine, from: Peer, block: Block, env: Env)
    requires Clean(s)
    ensures Balanced(s, RecvData(s, from, block, env), 0)
    ensures RecvData(s, from, block, env).effects != [] ==> !RecvData(s, from, block, env).effects[0].Opened?
  {
    ClosesConcat([Wrote(block.payload, true)] + Send(from, Ack(block.number), env), [Closed]);
    ClosesConcat([Wrote(block.payload, false)] + Send(from, Error(ACCESS_VIOLATION), env), [Closed]);
    assert [Wrote(block.payload, false)] + Send(from, Error(ACCESS_VIOLATION), env) + [Closed] + []
        == [Wrote(block.payload, false)] + Send(from, Error(ACCESS_VIOLATION), env) + [Closed];
  }

  lemma StepBalances(s: Engine, e: Event, cfg: Config)
    requires cfg.Valid() && Allowed(s, e) && Clean(s)
    ensures Balanced(s, Step(s, e, cfg), Begins(s, e, cfg))
  {
    hide RecvRequest, RecvData, SendData, Parse;
    if e.StartGet? {
      SendCloses(e.to, Request(false, RequestOf(1, e.filename, e.mode)), e.env);
    } else if e.Timer? {
      TickBalances(s, e.env, cfg);
    } else {
      SendCloses(e.from, Error(ACCESS_VIOLATION), e.env);
      SendCloses(e.from, Error(ILLEGAL_OPERATION), e.env);
    }
    if e.Arrive? && !Stranger(s, e.from) {
      var t := s.(lastPacket := s.timer, retries := 0);
      match e.datagram
      case Request(write, raw) => RequestBalances(t, e.from, write, raw, e.env, cfg);
      case Data(block) => DataBalances(t, e.from, block, e.env);
      case Ack(number) => AckBalances(t, e.from, number, e.env);
      case Error(code) => ClosesFirst(Failed(Unconverted(code)), CloseHandle(t).effects);
      case Unknown =>
    }
  }

  lemma TickBalances(s: Engine, env: Env, cfg: Config)
    requires Clean(s)
    ensures Balanced(s, Tick(s, env, cfg), 0)
    ensures forall e <- Tick(s, env, cfg).effects :: !e.Opened?
  {
    if s.last.Some? {
      SendCloses(s.peer, Data(s.last.value), env);
    }
  }

  lemma AckBalances(s: Engine, from: Peer, number: u16, env: Env)
    requires Clean(s)
    ensures Balanced(s, RecvAck(s, from, number, env), 0)
    ensures RecvAck(s, from, number, env).effects != [] ==> !RecvAck(s, from, number, env).effects[0].Opened?
  {
    var t := s.(blknum := (s.blknum + 1) % 0x1_0000);
    if t.open {
      SendDataBalances(t, from, env);
    }
  }

  /** Over every run each session begun is closed exactly once, unless it is still open, and an
      endpoint without a handle keeps neither a peer nor a buffer. */
  lemma {:induction false} SessionsBalance(s: Engine, events: seq<Event>, cfg: Config)
    requires cfg.Valid() && AllowedRun(s, events, cfg) && Clean(s)
    ensures Balanced(s, Run(s, events, cfg), Begun(s, events, cfg))
    decreases |events|
  {
    hide Step, Begins, Clean;
    if events != [] {
      var first := Step(s, events[0], cfg);
      StepBalances(s, events[0], cfg);
      SessionsBalance(first.engine, events[1..], cfg);
      ClosesConcat(first.effects, Run(first.engine, events[1..], cfg).effects);
    }
  }

  /** A client without a handle calls nothing back, whatever still arrives, and stays as it is. */
  lemma LateDatagramIgnored(s: Engine, from: Peer, d: Datagram, env: Env, cfg: Config)
    requires cfg.Valid() && WellSized(d) && !s.open && !s.server
    ensures var o := Recv(s, from, d, env, cfg);
      && o.engine == s.(lastPacket := o.engine.lastPacket, retries := o.engine.retries)
      && forall e <- o.effects :: e.Sent? && e.datagram.Error?
  {
  }

  /** Over every run in which no transfer is begun, a client without a handle calls nothing back,
      whatever arrives late and however often, and gets no handle. */
  lemma {:induction false} LateDatagramsIgnored(s: Engine, events: seq<Event>, cfg: Config)
    requires cfg.Valid() && AllowedRun(s, events, cfg) && !s.open && !s.server && Clean(s)
    requires forall e <- events :: !e.StartGet?
    ensures var o := Run(s, events, cfg);
      && o.engine == s.(timer := o.engine.timer, lastPacket := o.engine.lastPacket, retries := o.engine.retries)
      && forall f <- o.effects :: f.Sent? && f.datagram.Error?
    decreases |events|
  {
    hide Recv;
    if events != [] {
      assert events[0] in events;
      if events[0].Arrive? {
        LateDatagramIgnored(s, events[0].from, events[0].datagram, events[0].env, cfg);
      }
      LateDatagramsIgnored(Step(s, events[0], cfg).engine, events[1..], cfg);
    }
  }

  /** The event is a datagram from someone else than the peer of the session. */
  predicate Intrudes(s: Engine, e: Event) {
    e.Arrive? && Stranger(s, e.from)
  }

  /** The run without its intrusions. */
  function Undisturbed(s: Engine, events: seq<Event>, cfg: Config): seq<Event>
    requires cfg.Valid() && AllowedRun(s, events, cfg)
    decreases |events|
  {
    if events == [] then []
    else if Intrudes(s, events[0]) then Undisturbed(Step(s, events[0], cfg).engine, events[1..], cfg)
    else [events[0]] + Undisturbed(Step(s, events[0], cfg).engine, events[1..], cfg)
  }

  /** The effects that are not answers to intrusions. */
  function OwnEffects(s: Engine, events: seq<Event>, cfg: Config): seq<Effect>
    requires cfg.Valid() && AllowedRun(s, events, cfg)
    decreases |events|
  {
    if events == [] then []
    else
      var o := Step(s, events[0], cfg);
      (if Intrudes(s, events[0]) then [] else o.effects) + OwnEffects(o.engine, events[1..], cfg)
  }

  /** Strangers never interfere: over every run the endpoint ends in the state, retry clock included,
      and with the datagrams and callbacks of the run without them. */
  lemma {:induction false} StrangersDoNotInterfere(s: Engine, events: seq<Event>, cfg: Config)
    requires cfg.Valid() && AllowedRun(s, events, cfg)
    ensures var own := Undisturbed(s, events, cfg);
      && AllowedRun(s, own, cfg)
      && Run(s, own, cfg) == Outcome(Run(s, events, cfg).engine, OwnEffects(s, events, cfg))
    decreases |events|
  {
    if events != [] {
      var e := events[0];
      var next := Step(s, e, cfg).engine;
      StrangersDoNotInterfere(next, events[1..], cfg);
      if Intrudes(s, e) {
        assert next == s;
      } else {
        hide Step;
        assert ([e] + Undisturbed(next, events[1..], cfg))[1..] == Undisturbed(next, events[1..], cfg);
      }
    }
  }

  /** While a session is open, datagrams from anyone but its peer change nothing at all, and are
      answered with an error at most. */
  lemma OnlyPeerHeard(s: Engine, from: Peer, d: Datagram, env: Env, cfg: Config)
    requires cfg.Valid() && WellSized(d) && s.peer.addr != 0 && s.peer.port != 0 && from != s.peer
    ensures Recv(s, from, d, env, cfg) == Outcome(s, if env.sendOk then [Sent(from, Error(2))] else [])
  {
  }

  /** What the two ends of a tftp_put send each other, as long as nobody sends data. */
  predicate PutReply(d: Datagram) {
    d == Ack(0) || d.Error?
  }

  predicate PutTalk(d: Datagram) {
    d.Error? || (d.Request? && d.write)
  }

  /** A client that began a tftp_put and hears ACK 0 and errors only, in whatever number and order,
      answers with errors only: it never sends a block. */
  lemma {:induction false} PutSendsNoData(s: Engine, events: seq<Event>, cfg: Config)
    requires cfg.Valid() && AllowedRun(s, events, cfg)
    requires !s.server && !s.writing && s.blknum == 1 && s.last == None
    requires forall e <- events :: e.Timer? || (e.Arrive? && PutReply(e.datagram))
    ensures forall f <- Run(s, events, cfg).effects :: f.Sent? ==> PutTalk(f.datagram)
    ensures forall f <- Run(s, events, cfg).effects :: !f.Fetched?
    decreases |events|
  {
    if events != [] {
      assert events[0] in events;
      PutSendsNoData(Step(s, events[0], cfg).engine, events[1..], cfg);
    }
  }

  /** A server that hears write requests and errors only answers with ACK 0 and errors only, and
      writes nothing. */
  lemma {:induction false} PutWritesNothing(s: Engine, events: seq<Event>, cfg: Config)
    requires cfg.Valid() && AllowedRun(s, events, cfg) && Clean(s)
    requires s.server && s.last == None && (s.open ==> s.writing)
    requires forall e <- events :: e.Timer? || (e.Arrive? && PutTalk(e.datagram))
    ensures forall f <- Run(s, events, cfg).effects :: f.Sent? ==> PutReply(f.datagram)
    ensures forall f <- Run(s, events, cfg).effects :: !f.Wrote?
    decreases |events|
  {
    hide Parse;
    if events != [] {
      assert events[0] in events;
      PutWritesNothing(Step(s, events[0], cfg).engine, events[1..], cfg);
    }
  }

  /** A file sent with tftp_put does not get through to this file's own server: the server answers
      the request with ACK 0, the client waits for ACK 1 and refuses, and the refusal ends the
      session. */
  lemma PutNeverStarts(me: Peer, you: Peer, filename: seq<byte>, mode: seq<byte>, env: Env, cfg: Config)
    requires cfg.Valid() && NulFree(filename) && NulFree(mode) && env.sendOk && env.openOk
    requires |filename| <= cfg.limits.filename && |mode| <= cfg.limits.mode
    ensures WellSized(Request(true, RequestOf(2, filename, mode)))
    ensures var raw := RequestOf(2, filename, mode);
      var put := PutFile(Idle(false, true), you, filename, mode, env);
      var accepted := Recv(Idle(true, false), me, Request(true, raw), env, cfg);
      var refused := Recv(put.engine, you, Ack(0), env, cfg);
      var ended := Recv(accepted.engine, me, Error(UNKNOWN_TRANSFER), env, cfg);
      && put.effects == [Sent(you, Request(true, raw))]
      && accepted.effects == [Opened(filename, mode), Sent(me, Ack(0))]
      && refused.effects == [Sent(you, Error(UNKNOWN_TRANSFER))] && refused.engine == put.engine
      && ended.effects == [Failed(0x0500), Closed] && !ended.engine.open
  {
    hide Parse, RequestOf;
    RequestRoundTrip(2, filename, mode, cfg.limits);
  }

  // ---------------------------------------------------------------- giving up

  /** Only the clock reaches the endpoint. */
  ghost predicate Silence(events: seq<Event>) {
    forall e <- events :: e.Timer?
  }

  lemma {:induction false} SilenceAllowed(s: Engine, events: seq<Event>, cfg: Config)
    requires cfg.Valid() && Silence(events)
    ensures AllowedRun(s, events, cfg)
    decreases |events|
  {
    if events != [] {
      assert events[0] in events;
      SilenceAllowed(Step(s, events[0], cfg).engine, events[1..], cfg);
    }
  }

  /** The last event of a run, on its own. */
  lemma {:induction false} RunLast(s: Engine, events: seq<Event>, e: Event, cfg: Config)
    requires cfg.Valid() && AllowedRun(s, events, cfg) && AllowedRun(s, events + [e], cfg)
    ensures var before := Run(s, events, cfg);
      Allowed(before.engine, e) && Run(s, events + [e], cfg) == Step(before.engine, e, cfg).After(before.effects)
    decreases |events|
  {
    hide Step;
    if events == [] {
      assert events + [e] == [e];
    } else {
      var first := Step(s, events[0], cfg);
      assert (events + [e])[1..] == events[1..] + [e];
      RunLast(first.engine, events[1..], e, cfg);
    }
  }

  /** Ticks beyond the timeout, up to the number of retries. */
  function Retries(n: nat, cfg: Config): nat {
    if n <= cfg.timeoutTicks then 0 else Min(n - cfg.timeoutTicks, cfg.maxRetries)
  }

  predicate GivenUp(n: nat, cfg: Config) {
    n > cfg.timeoutTicks + cfg.maxRetries
  }

  function Repeat(e: Effect, k: nat): (r: seq<Effect>)
    ensures |r| == k && forall i | 0 <= i < k :: r[i] == e
  {
    seq(k, _ => e)
  }

  /** Where n ticks of silence after the last packet leave a sender that holds a block. */
  function AfterSilence(s: Engine, n: nat, cfg: Config): Outcome
    requires s.last.Some?
  {
    var resent := Repeat(Sent(s.peer, Data(s.last.value)), Retries(n, cfg));
    var t := s.(timer := s.timer + n, retries := Retries(n, cfg));
    if GivenUp(n, cfg) then Outcome(t.(open := false, peer := ANYONE, last := None), resent + [Closed])
    else Outcome(t, resent)
  }

  lemma Repeated(e: Effect, k: nat)
    ensures Repeat(e, k) + [e] == Repeat(e, k + 1)
  {
  }

  lemma SilentTick(s: Engine, n: nat, env: Env, cfg: Config)
    requires cfg.Valid()
    requires s.open && s.last.Some? && s.retries == 0 && s.lastPacket == s.timer
    ensures var before, after := AfterSilence(s, n, cfg), AfterSilence(s, n + 1, cfg);
      var o := Tick(before.engine, env, cfg).After(before.effects);
      o.engine == after.engine && (env.sendOk ==> o == after)
  {
    hide Repeat;
    var resend := Sent(s.peer, Data(s.last.value));
    Repeated(resend, Retries(n, cfg));
    if !GivenUp(n + 1, cfg) {
      assert Retries(n + 1, cfg) == Retries(n, cfg) || Retries(n + 1, cfg) == Retries(n, cfg) + 1;
    }
    var before := AfterSilence(s, n, cfg);
    assert before.effects + [] == before.effects;
  }

  /** A sender that hears nothing closes at the tick timeoutTicks + maxRetries + 1 after the last
      packet, neither earlier nor later; if its sends get out it has resent its block exactly
      maxRetries times by then. */
  lemma {:induction false} GivesUp(s: Engine, events: seq<Event>, cfg: Config)
    requires cfg.Valid() && Silence(events)
    requires s.open && s.last.Some? && s.retries == 0 && s.lastPacket == s.timer
    ensures AllowedRun(s, events, cfg)
    ensures Run(s, events, cfg).engine == AfterSilence(s, |events|, cfg).engine
    ensures (forall e <- events :: e.env.sendOk) ==> Run(s, events, cfg) == AfterSilence(s, |events|, cfg)
    decreases |events|
  {
    SilenceAllowed(s, events, cfg);
    if events != [] {
      hide AfterSilence, Tick, Run, AllowedRun;
      var n := |events| - 1;
      var earlier, last := events[..n], events[n];
      assert events == earlier + [last];
      assert last in events;
      GivesUp(s, earlier, cfg);
      RunLast(s, earlier, last, cfg);
      SilentTick(s, n, last.env, cfg);
    }
  }

  /** Counted from any datagram of its peer that leaves it holding a block: the session lasts as long
      as the silence is no longer than timeoutTicks + maxRetries ticks. */
  lemma GivesUpAfterPacket(s: Engine, from: Peer, d: Datagram, env: Env, events: seq<Event>, cfg: Config)
    requires cfg.Valid() && WellSized(d) && !Stranger(s, from) && Silence(events)
    requires var t := Recv(s, from, d, env, cfg).engine; t.open && t.last.Some?
    ensures var t := Recv(s, from, d, env, cfg).engine;
      && AllowedRun(t, events, cfg)
      && (Run(t, events, cfg).engine.open <==> |events| <= cfg.timeoutTicks + cfg.maxRetries)
  {
    var t := Recv(s, from, d, env, cfg).engine;
    ClockReset(s, from, d, env, cfg);
    hide Recv;
    GivesUp(t, events, cfg);
  }

  lemma ClockReset(s: Engine, from: Peer, d: Datagram, env: Env, cfg: Config)
    requires cfg.Valid() && WellSized(d) && !Stranger(s, from)
    ensures var t := Recv(s, from, d, env, cfg).engine; t.retries == 0 && t.lastPacket == t.timer == s.timer
  {
    hide Parse;
  }

  lemma SilentTickWithoutBlock(s: Engine, n: nat, env: Env, cfg: Config)
    requires s.open && s.last.None? && s.lastPacket == s.timer
    ensures WithoutBlock(s, n + 1, cfg) == Tick(WithoutBlock(s, n, cfg).engine, env, cfg).After(WithoutBlock(s, n, cfg).effects)
  {
  }

  /** Where n ticks of silence leave a session that holds no block. */
  function WithoutBlock(s: Engine, n: nat, cfg: Config): Outcome {
    var t := s.(timer := s.timer + n);
    if n <= cfg.timeoutTicks then Outcome(t, []) else Outcome(t.(open := false, peer := ANYONE), [Closed])
  }

  /** A session that holds no block, because it receives or had no memory for one, closes at the tick
      timeoutTicks + 1 after the last packet, and sends nothing. */
  lemma {:induction false} GivesUpWithoutBlock(s: Engine, events: seq<Event>, cfg: Config)
    requires cfg.Valid() && Silence(events)
    requires s.open && s.last.None? && s.lastPacket == s.timer
    ensures AllowedRun(s, events, cfg)
    ensures Run(s, events, cfg) == WithoutBlock(s, |events|, cfg)
    ensures Run(s, events, cfg).engine.open <==> |events| <= cfg.timeoutTicks
    decreases |events|
  {
    SilenceAllowed(s, events, cfg);
    if events != [] {
      hide Run, AllowedRun, Tick;
      var n := |events| - 1;
      var earlier, last := events[..n], events[n];
      assert events == earlier + [last];
      assert last in events;
      GivesUpWithoutBlock(s, earlier, cfg);
      RunLast(s, earlier, last, cfg);
      SilentTickWithoutBlock(s, n, last.env, cfg);
    } else {
      assert Run(s, events, cfg) == Outcome(s, []);
    }
  }
}
