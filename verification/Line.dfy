/** duart_tx.pio joined to duart_rx.pio at equal clocks: whatever is written, whenever it is written,
    arrives unchanged and in order. */
module Line {
  import opened Bytes
  import opened LineCode
  import opened Receiver

  type Octet = b: nat | b < 0x100

  // ---------------------------------------------------------------- the transmit program

  /** The one instruction of the program puts two bits out and then waits seven cycles. count is the
      number of bits taken from osr since it was filled; at PULL_AT it is refilled from the FIFO. */
  datatype Tx = Tx(osr: nat, count: nat, delay: nat, pins: Pair, fifo: seq<nat>)

  const PULL_AT: nat := 24

  /** Autopull, in a cycle in which nothing is put out. */
  function Refill(t: Tx): Tx {
    if t.count >= PULL_AT && t.fifo != [] then t.(osr := t.fifo[0], count := 0, fifo := t.fifo[1..]) else t
  }

  /** One clock cycle: with an empty osr the program stalls, and the levels stay as they are. */
  function TxStep(t: Tx): Tx {
    if t.delay > 0 then Refill(t.(delay := t.delay - 1))
    else if t.count >= PULL_AT then Refill(t)
    else Refill(t.(pins := t.osr % 4, osr := t.osr / 4, count := t.count + 2, delay := 7))
  }

  class Transmitter {
    var osr: nat
    var count: nat
    var delay: nat
    var pins: Pair
    var fifo: seq<nat>

    function State(): Tx
      reads this
    {
      Tx(osr, count, delay, pins, fifo)
    }

    /** At its one instruction, with an empty osr and the line high. */
    constructor ()
      ensures State() == QUIET.tx
    {
      osr, count, delay, pins, fifo := 0, 32, 0, HIGH, [];
    }

    method AutoPull()
      modifies this
      ensures State() == Refill(old(State()))
    {
      if count >= PULL_AT && fifo != [] {
        osr, count, fifo := fifo[0], 0, fifo[1..];
      }
    }

    method Cycle()
      modifies this
      ensures State() == TxStep(old(State()))
    {
      if delay > 0 {
        delay := delay - 1;
      } else if count < PULL_AT {
        pins, osr, count, delay := osr % 4, osr / 4, count + 2, 7;
      }
      AutoPull();
    }

    /** duart_tx_program_put */
    method Write(txtab: array<nat>, b: Octet)
      requires txtab.Length == 0x100 && txtab[b] == Word(b)
      modifies this`fifo
      ensures State() == Put(old(State()), Some(b))
    {
      fifo := fifo + [txtab[b]];
    }
  }

  // ---------------------------------------------------------------- the line

  datatype Link = Link(tx: Tx, rx: Rx)

  /** duart_tx_program_put */
  function Put(t: Tx, b: Option<Octet>): Tx {
    match b
    case None => t
    case Some(value) => t.(fifo := t.fifo + [Word(value)])
  }

  function Cycle(l: Link, put: Option<Octet>): Link {
    var t := TxStep(Put(l.tx, put));
    Link(t, Step(l.rx, t.pins))
  }

  function Cycles(l: Link, puts: seq<Option<Octet>>): Link
    decreases |puts|
  {
    if puts == [] then l else Cycles(Cycle(l, puts[0]), puts[1..])
  }

  /** The line is high, nothing is to be sent, and the receiver waits. */
  const QUIET: Link := Link(Tx(0, 32, 0, HIGH, []), Rx(0, 0, 0, 0, false, []))

  function Sent(puts: seq<Option<Octet>>): seq<Octet> {
    if puts == [] then [] else (if puts[0].Some? then [puts[0].value] else []) + Sent(puts[1..])
  }

  /** duart_rx_program_get, for every word the receiver pushed. */
  function Received(m: seq<u16>, words: seq<u32>): (r: seq<u16>)
    requires |m| == 0x1_0000
    ensures |r| == |words|
  {
    seq(|words|, i requires 0 <= i < |words| => m[words[i] / 0x1_0000])
  }

  // ---------------------------------------------------------------- where the two programs are

  datatype Phase =
    | Idle
    | Loaded(b: Octet)
    | InFrame(c: nat, b: Octet, next: Option<Octet>)

  const FRAME: nat := 96

  predicate TxAt(t: Tx, p: Phase) {
    match p
    case Idle => t.delay == 0 && t.pins == HIGH && t.count >= PULL_AT
    case Loaded(b) => t.delay == 0 && t.pins == HIGH && t.count == 0 && t.osr == Word(b)
    case InFrame(c, b, next) =>
      && c < FRAME && t.delay == 7 - c % 8 && t.pins == Pairs(b)[c / 8]
      && match next
         case None => t.count == 2 * (c / 8 + 1) && t.osr == Value(Pairs(b)[c / 8 + 1..])
         case Some(n) => c >= 88 && t.count == 0 && t.osr == Word(n)
  }

  ghost predicate RxAt(r: Rx, p: Phase) {
    if p.InFrame? && p.c <= STOP_AT then Receiving(r, p.c, Symbols(p.b, 8)[..Sampled(p.c)], r.fifo)
    else Waiting(r)
  }

  /** Written but not yet received, apart from what is queued. */
  function InFlight(p: Phase): seq<Octet> {
    match p
    case Idle => []
    case Loaded(b) => [b]
    case InFrame(c, b, next) =>
      (if c <= STOP_AT then [b] else []) + (if next.Some? then [next.value] else [])
  }

  function WordsOf(queue: seq<Octet>): (w: seq<nat>)
    ensures |w| == |queue|
  {
    seq(|queue|, i requires 0 <= i < |queue| => Word(queue[i]))
  }

  /** The phase after a cycle that began with this queue, and what is left of the queue. */
  function Next(p: Phase, queue: seq<Octet>): (Phase, seq<Octet>) {
    match p
    case Idle => if queue == [] then (Idle, []) else (Loaded(queue[0]), queue[1..])
    case Loaded(b) => (InFrame(0, b, None), queue)
    case InFrame(c, b, next) =>
      if c + 1 < FRAME then
        if next.None? && c + 1 >= 88 && queue != [] then (InFrame(c + 1, b, Some(queue[0])), queue[1..])
        else (InFrame(c + 1, b, next), queue)
      else if next.Some? then (InFrame(0, next.value, None), queue)
      else if queue == [] then (Idle, [])
      else (Loaded(queue[0]), queue[1..])
  }

  lemma WordDigits(b: Octet, j: nat)
    requires j < 16
    ensures Value(Pairs(b)[j..]) % 4 == Pairs(b)[j]
    ensures Value(Pairs(b)[j..]) / 4 == Value(Pairs(b)[j + 1..])
  {
    hide Pairs;
    assert Pairs(b)[j..][1..] == Pairs(b)[j + 1..];
  }

  lemma StopPairs(b: Octet)
    ensures Pairs(b)[0] == LOW && Pairs(b)[9] == HIGH && Pairs(b)[10] == HIGH && Pairs(b)[11] == HIGH
    ensures forall k | 0 <= k < 8 :: Pairs(b)[k + 1] == Symbols(b, 8)[k]
  {
    hide Symbols;
  }

  /** A cycle in which the transmitter puts nothing out. */
  lemma TxWaits(t: Tx, p: Phase, queue: seq<Octet>)
    requires TxAt(t, p) && t.fifo == WordsOf(queue)
    requires p.Idle? || (p.InFrame? && p.c % 8 != 7)
    ensures var (q, rest) := Next(p, queue); TxAt(TxStep(t), q) && TxStep(t).fifo == WordsOf(rest)
  {
    hide Pairs, Value;
    assert queue != [] ==> WordsOf(queue)[1..] == WordsOf(queue[1..]);
  }

  /** A cycle in which a pair is put out, or would be if there were one. */
  lemma TxPutsOut(t: Tx, b: Octet, c: nat, next: Option<Octet>, queue: seq<Octet>)
    requires var p := InFrame(c, b, next); TxAt(t, p) && t.fifo == WordsOf(queue)
    requires c % 8 == 7
    ensures var (q, rest) := Next(InFrame(c, b, next), queue); TxAt(TxStep(t), q) && TxStep(t).fifo == WordsOf(rest)
  {
    hide Pairs, Value;
    assert queue != [] ==> WordsOf(queue)[1..] == WordsOf(queue[1..]);
    StopPairs(b);
    if c < 95 {
      WordDigits(b, c / 8 + 1);
    } else if next.Some? {
      StartPair(next.value);
    }
  }

  lemma TxNext(t: Tx, p: Phase, queue: seq<Octet>)
    requires TxAt(t, p) && t.fifo == WordsOf(queue)
    ensures var (q, rest) := Next(p, queue); TxAt(TxStep(t), q) && TxStep(t).fifo == WordsOf(rest)
  {
    if p.Loaded? {
      hide Pairs, Value;
      StartPair(p.b);
    } else {
      hide *;
      if p.InFrame? && p.c % 8 == 7 {
        TxPutsOut(t, p.b, p.c, p.next, queue);
      } else {
        TxWaits(t, p, queue);
      }
    }
  }

  lemma StartPair(b: Octet)
    ensures Word(b) % 4 == Pairs(b)[0] && Word(b) / 4 == Value(Pairs(b)[1..])
  {
    WordDigits(b, 0);
    assert Pairs(b)[0..] == Pairs(b);
  }

  lemma RxWaits(r: Rx, pins: Pair)
    requires Waiting(r)
    ensures Plus(pins) ==> Step(r, pins) == r
    ensures !Plus(pins) ==> Receiving(Step(r, pins), 0, [], r.fifo)
  {
    FrameEnds(r, [], [], pins);
  }

  /** The levels of a frame in cycle c: right where they are sampled, and high when it matters. */
  lemma LevelAt(b: Octet, c: nat)
    requires c < FRAME
    ensures c == 0 ==> !Plus(Pairs(b)[c / 8])
    ensures c >= STOP_AT ==> Plus(Pairs(b)[c / 8])
    ensures forall k | 0 <= k < 8 :: c == SampleAt(k) ==> Pairs(b)[c / 8] == Symbols(b, 8)[k]
  {
    hide Pairs, Symbols;
    StopPairs(b);
    forall k | 0 <= k < 8 && c == SampleAt(k) ensures Pairs(b)[c / 8] == Symbols(b, 8)[k] {
      assert c / 8 == k + 1;
    }
  }

  lemma RxInFrame(r: Rx, b: Octet, c: nat)
    requires c < STOP_AT && Receiving(r, c, Symbols(b, 8)[..Sampled(c)], r.fifo)
    ensures Receiving(Step(r, Pairs(b)[(c + 1) / 8]), c + 1, Symbols(b, 8)[..Sampled(c + 1)], r.fifo)
  {
    hide Pairs, Symbols, Receiving, Step, Plus;
    LevelAt(b, c + 1);
    SampledWhen(c);
    var pins, n := Pairs(b)[(c + 1) / 8], Sampled(c);
    ReceivingNext(r, c, Symbols(b, 8)[..n], r.fifo, pins);
    if Sampled(c + 1) > n {
      assert Symbols(b, 8)[..n] + [pins] == Symbols(b, 8)[..n + 1];
    }
  }

  lemma FifoKept(r: Rx, c: nat, seen: seq<Pair>, before: seq<u32>)
    ensures Receiving(r, c, seen, before) ==> r.fifo == before
  {
  }

  lemma RxNext(r: Rx, p: Phase, queue: seq<Octet>, pins: Pair)
    requires RxAt(r, p) && (p.InFrame? ==> p.c < FRAME)
    requires var q := Next(p, queue).0; pins == (if q.InFrame? then Pairs(q.b)[q.c / 8] else HIGH)
    ensures RxAt(Step(r, pins), Next(p, queue).0)
    ensures if p.InFrame? && p.c == STOP_AT
      then |Step(r, pins).fifo| == |r.fifo| + 1 && Step(r, pins).fifo[..|r.fifo|] == r.fifo
           && Step(r, pins).fifo[|r.fifo|] / 0x1_0000 == Code(p.b)
      else Step(r, pins).fifo == r.fifo
  {
    hide Pairs, Symbols, Receiving, Step, Waiting;
    var q := Next(p, queue).0;
    if q.InFrame? {
      LevelAt(q.b, q.c);
      assert Symbols(q.b, 8)[..Sampled(0)] == [];
    }
    if p.InFrame? && p.c < STOP_AT {
      RxInFrame(r, p.b, p.c);
      FifoKept(Step(r, pins), p.c + 1, Symbols(p.b, 8)[..Sampled(p.c + 1)], r.fifo);
    } else if p.InFrame? && p.c == STOP_AT {
      FrameEnds(r, Symbols(p.b, 8)[..8], r.fifo, pins);
      assert Symbols(p.b, 8)[..8] == Symbols(p.b, 8);
    } else {
      RxWaits(r, pins);
      FifoKept(Step(r, pins), 0, [], r.fifo);
    }
  }

  // ---------------------------------------------------------------- every cycle, every run

  /** Everything written so far is received, under way or queued, in this order. */
  ghost predicate Conserved(l: Link, p: Phase, queue: seq<Octet>, sent: seq<Octet>, m: seq<u16>) {
    && Maps(m, 0x100) && TxAt(l.tx, p) && RxAt(l.rx, p) && l.tx.fifo == WordsOf(queue)
    && Received(m, l.rx.fifo) + InFlight(p) + queue == sent
  }

  lemma PutQueues(t: Tx, p: Phase, queue: seq<Octet>, put: Option<Octet>)
    requires TxAt(t, p) && t.fifo == WordsOf(queue)
    ensures TxAt(Put(t, put), p)
    ensures Put(t, put).fifo == WordsOf(queue + if put.Some? then [put.value] else [])
  {
    hide Pairs, Word, Value;
    assert queue + [] == queue;
  }

  lemma LevelOf(t: Tx, p: Phase)
    requires TxAt(t, p)
    ensures p.InFrame? ==> p.c < FRAME
    ensures t.pins == if p.InFrame? then Pairs(p.b)[p.c / 8] else HIGH
  {
    hide Pairs;
  }

  lemma TakenIn(m: seq<u16>, before: seq<u32>, after: seq<u32>, b: Octet)
    requires Maps(m, 0x100) && |after| == |before| + 1 && after[..|before|] == before
    requires after[|before|] / 0x1_0000 == Code(b)
    ensures Received(m, after) == Received(m, before) + [b]
  {
    hide Code;
  }

  lemma NextKeepsOrder(p: Phase, queue: seq<Octet>)
    requires p.InFrame? ==> p.c < FRAME
    ensures var (q, rest) := Next(p, queue);
      (if p.InFrame? && p.c == STOP_AT then [p.b] else []) + InFlight(q) + rest == InFlight(p) + queue
  {
  }

  lemma Regroup(s: seq<u16>, taken: seq<u16>, flight: seq<u16>, queue: seq<u16>, added: seq<u16>, later: seq<u16>, rest: seq<u16>)
    requires taken + later + rest == flight + (queue + added)
    ensures s + taken + later + rest == s + flight + queue + added
  {
    assert s + taken + later + rest == s + (taken + later + rest);
    assert s + flight + queue + added == s + (flight + (queue + added));
  }

  lemma CycleMoves(l: Link, p: Phase, queue: seq<Octet>, m: seq<u16>, put: Option<Octet>)
    requires Maps(m, 0x100) && TxAt(l.tx, p) && RxAt(l.rx, p) && l.tx.fifo == WordsOf(queue)
    ensures var added := if put.Some? then [put.value] else [];
      var (q, rest) := Next(p, queue + added);
      var z := Cycle(l, put);
      && TxAt(z.tx, q) && RxAt(z.rx, q) && z.tx.fifo == WordsOf(rest)
      && Received(m, z.rx.fifo) == Received(m, l.rx.fifo) + if p.InFrame? && p.c == STOP_AT then [p.b] else []
  {
    hide TxStep, Step, TxAt, RxAt, Pairs, Code, Received, Maps, WordsOf;
    var added := if put.Some? then [put.value] else [];
    var (q, rest) := Next(p, queue + added);
    PutQueues(l.tx, p, queue, put);
    var t := Put(l.tx, put);
    TxNext(t, p, queue + added);
    hide Next, Put;
    LevelOf(TxStep(t), q);
    LevelOf(l.tx, p);
    RxNext(l.rx, p, queue + added, TxStep(t).pins);
    if p.InFrame? && p.c == STOP_AT {
      TakenIn(m, l.rx.fifo, Step(l.rx, TxStep(t).pins).fifo, p.b);
    }
  }

  /** A cycle loses nothing, adds nothing and keeps the order. */
  lemma CycleConserves(l: Link, p: Phase, queue: seq<Octet>, sent: seq<Octet>, m: seq<u16>, put: Option<Octet>)
    requires Conserved(l, p, queue, sent, m)
    ensures var added := if put.Some? then [put.value] else [];
      var (q, rest) := Next(p, queue + added);
      Conserved(Cycle(l, put), q, rest, sent + added, m)
  {
    hide TxAt, RxAt, Code, Received, Cycle, Next, InFlight;
    var added := if put.Some? then [put.value] else [];
    var (q, rest) := Next(p, queue + added);
    CycleMoves(l, p, queue, m, put);
    assert p.InFrame? ==> p.c < FRAME by { LevelOf(l.tx, p); }
    NextKeepsOrder(p, queue + added);
    var taken := if p.InFrame? && p.c == STOP_AT then [p.b] else [];
    Regroup(Received(m, l.rx.fifo), taken, InFlight(p), queue, added, InFlight(q), rest);
  }

  lemma {:induction false} RunConserves(
      l: Link, p: Phase, queue: seq<Octet>, sent: seq<Octet>, m: seq<u16>, puts: seq<Option<Octet>>)
    returns (q: Phase, rest: seq<Octet>)
    requires Conserved(l, p, queue, sent, m)
    ensures Conserved(Cycles(l, puts), q, rest, sent + Sent(puts), m)
    decreases |puts|
  {
    hide Conserved, Cycle, Next;
    if puts == [] {
      assert sent + [] == sent;
      return p, queue;
    }
    var added := if puts[0].Some? then [puts[0].value] else [];
    CycleConserves(l, p, queue, sent, m, puts[0]);
    var (p1, queue1) := Next(p, queue + added);
    assert sent + added + Sent(puts[1..]) == sent + (added + Sent(puts[1..]));
    q, rest := RunConserves(Cycle(l, puts[0]), p1, queue1, sent + added, m, puts[1..]);
  }

  lemma QuietConserved(m: seq<u16>)
    requires Maps(m, 0x100)
    ensures Conserved(QUIET, Idle, [], [], m)
  {
    assert Received(m, []) == [];
  }

  function Silent(n: nat): (s: seq<Option<Octet>>)
    ensures |s| == n && forall i | 0 <= i < n :: s[i] == None
  {
    seq(n, _ => None)
  }

  /** How many cycles it takes at most until nothing is under way. */
  function Left(p: Phase, queue: seq<Octet>): int {
    98 * |queue| +
      match p
      case Idle => 0
      case Loaded(_) => 97
      case InFrame(c, _, next) => if next.None? then 96 - c else 192 - c
  }

  lemma LeftDecreases(p: Phase, queue: seq<Octet>)
    requires p.InFrame? ==> p.c < FRAME && (p.next.Some? ==> p.c >= 88)
    ensures 0 <= Left(p, queue) <= 98 * (|queue| + 2)
    ensures Left(p, queue) == 0 ==> p == Idle && queue == []
    ensures Left(p, queue) > 0 ==> Left(Next(p, queue).0, Next(p, queue).1) < Left(p, queue)
    ensures Left(p, queue) == 0 ==> Next(p, queue) == (Idle, [])
  {
  }

  lemma PhaseOk(t: Tx, p: Phase)
    requires TxAt(t, p)
    ensures p.InFrame? ==> p.c < FRAME && (p.next.Some? ==> p.c >= 88)
    ensures t.count >= PULL_AT && t.delay == 0 ==> InFlight(p) == []
    ensures |InFlight(p)| <= 2
  {
    hide Pairs;
  }

  lemma {:induction false} Drains(l: Link, p: Phase, queue: seq<Octet>, sent: seq<Octet>, m: seq<u16>, n: nat)
    requires Conserved(l, p, queue, sent, m) && Left(p, queue) <= n
    ensures Received(m, Cycles(l, Silent(n)).rx.fifo) == sent
    decreases n
  {
    hide TxAt, RxAt, Cycle, Next, Received;
    PhaseOk(l.tx, p);
    LeftDecreases(p, queue);
    if n > 0 {
      CycleConserves(l, p, queue, sent, m, None);
      assert queue + [] == queue && sent + [] == sent;
      assert Silent(n)[1..] == Silent(n - 1);
      var (q, rest) := Next(p, queue);
      Drains(Cycle(l, None), q, rest, sent, m, n - 1);
    }
  }

  /** For every schedule of writes, cycle by cycle: what was received is at all times the beginning
      of what was written, at most two bytes are between the queue and the receiver, nothing is
      missing when the transmitter has run dry, and all has arrived 98 cycles for each byte after
      the writing stops. */
  lemma LineDelivers(m: seq<u16>, puts: seq<Option<Octet>>, n: nat)
    requires Maps(m, 0x100)
    ensures var l := Cycles(QUIET, puts);
      && Received(m, l.rx.fifo) <= Sent(puts)
      && |Sent(puts)| <= |Received(m, l.rx.fifo)| + 2 + |l.tx.fifo|
      && (l.tx.count >= PULL_AT && l.tx.delay == 0 && l.tx.fifo == [] ==> Received(m, l.rx.fifo) == Sent(puts))
      && (n >= 98 * (|l.tx.fifo| + 2) ==> Received(m, Cycles(l, Silent(n)).rx.fifo) == Sent(puts))
  {
    hide TxAt, RxAt, Cycles, Received, Left, Silent;
    QuietConserved(m);
    var q, rest := RunConserves(QUIET, Idle, [], [], m, puts);
    assert [] + Sent(puts) == Sent(puts);
    var l := Cycles(QUIET, puts);
    PhaseOk(l.tx, q);
    LeftDecreases(q, rest);
    if n >= 98 * (|l.tx.fifo| + 2) {
      Drains(l, q, rest, Sent(puts), m, n);
    }
  }

  // ---------------------------------------------------------------- the two machines and the tables

  lemma {:induction false} CyclesLast(l: Link, puts: seq<Option<Octet>>, put: Option<Octet>)
    ensures Cycles(l, puts + [put]) == Cycle(Cycles(l, puts), put)
    decreases |puts|
  {
    hide Cycle;
    if puts == [] {
      assert puts + [put] == [put] && [put][1..] == [];
    } else {
      CyclesLast(Cycle(l, puts[0]), puts[1..], put);
      assert (puts + [put])[1..] == puts[1..] + [put];
    }
  }

  /** What the processor has read already makes no difference to the program. */
  lemma ReadsDoNotMatter(r: Rx, n: nat, pins: Pair)
    requires n <= |r.fifo|
    ensures n <= |Step(r, pins).fifo|
    ensures Step(r.(fifo := r.fifo[n..]), pins) == Step(r, pins).(fifo := Step(r, pins).fifo[n..])
  {
  }

  lemma ReceivedMore(m: seq<u16>, words: seq<u32>, n: nat)
    requires Maps(m, 0x100) && n < |words|
    ensures m[words[n] / 0x1_0000] != 0xFFFF
    ensures Received(m, words[..n + 1]) == Received(m, words[..n]) + [m[words[n] / 0x1_0000]]
  {
    hide Code;
  }

  /** One look at the FIFO: what was got so far grows by the next byte, if there is one. */
  method Look(rx: Machine, rxmap: array<u16>, got: seq<u16>, ghost words: seq<u32>) returns (more: seq<u16>)
    requires Maps(rxmap[..], 0x100) && |got| <= |words| && rx.fifo == words[|got|..]
    requires got == Received(rxmap[..], words[..|got|])
    modifies rx`fifo
    ensures |more| <= |words| && rx.fifo == words[|more|..] && more == Received(rxmap[..], words[..|more|])
  {
    hide Received;
    var data := rx.Get(rxmap);
    more := got;
    if data != 0xFFFF {
      assert |got| < |words|;
      ReceivedMore(rxmap[..], words, |got|);
      more := got + [data];
    } else if |got| < |words| {
      ReceivedMore(rxmap[..], words, |got|);
      assert false;
    }
  }

  /** Both tables are filled, then in each cycle the processor writes a byte or not, both programs
      advance, and the processor looks for a byte or not. What it gets is the beginning of what it
      wrote, and all of it when nothing is left anywhere. */
  method Play(puts: seq<Option<Octet>>, looks: seq<bool>) returns (got: seq<u16>, dry: bool)
    requires |looks| == |puts|
    ensures got <= Sent(puts)
    ensures dry ==> got == Sent(puts)
  {
    hide Maps, Word, Cycle, Cycles, Received, Sent, Silent;
    var txtab, rxmap := new nat[0x100], new u16[0x1_0000];
    FillTransmitTable(txtab);
    FillReceiveTable(rxmap);
    ghost var m := rxmap[..];
    var tx := new Transmitter();
    var rx := new Machine();
    got := [];
    ghost var l := QUIET;
    StartsQuiet(m);
    for i := 0 to |puts|
      invariant rxmap[..] == m && forall b | 0 <= b < 0x100 :: txtab[b] == Word(b)
      invariant l == Cycles(QUIET, puts[..i]) && tx.State() == l.tx
      invariant |got| <= |l.rx.fifo| && rx.State() == l.rx.(fifo := l.rx.fifo[|got|..])
      invariant got == Received(m, l.rx.fifo[..|got|])
    {
      assert puts[..i + 1] == puts[..i] + [puts[i]];
      CyclesLast(QUIET, puts[..i], puts[i]);
      ghost var next := Cycle(l, puts[i]);
      AdvanceBoth(tx, rx, txtab, puts[i], l, |got|);
      assert next.rx.fifo[..|got|] == l.rx.fifo[..|got|];
      l := next;
      if looks[i] {
        got := Look(rx, rxmap, got, l.rx.fifo);
      }
    }
    dry := tx.count >= PULL_AT && tx.delay == 0 && tx.fifo == [] && rx.fifo == [];
    assert puts[..|puts|] == puts;
    LineDelivers(m, puts, 0);
    GotSoFar(m, l.rx.fifo, |got|);
  }

  lemma StartsQuiet(m: seq<u16>)
    requires |m| == 0x1_0000
    ensures QUIET == Cycles(QUIET, []) && Received(m, QUIET.rx.fifo[..0]) == [] && QUIET.rx.fifo == []
    ensures QUIET.rx == Rx(0, 0, 0, 0, false, [])
  {
  }

  lemma GotSoFar(m: seq<u16>, words: seq<u32>, n: nat)
    requires |m| == 0x1_0000 && n <= |words|
    ensures Received(m, words[..n]) <= Received(m, words)
    ensures words[n..] == [] ==> Received(m, words[..n]) == Received(m, words)
  {
  }

  /** One cycle of both machines, a byte written first if there is one. */
  method AdvanceBoth(tx: Transmitter, rx: Machine, txtab: array<nat>, put: Option<Octet>, ghost l: Link, ghost n: nat)
    requires txtab.Length == 0x100 && forall b | 0 <= b < 0x100 :: txtab[b] == Word(b)
    requires tx.State() == l.tx && n <= |l.rx.fifo| && rx.State() == l.rx.(fifo := l.rx.fifo[n..])
    modifies tx, rx
    ensures var z := Cycle(l, put);
      && tx.State() == z.tx && l.rx.fifo <= z.rx.fifo && rx.State() == z.rx.(fifo := z.rx.fifo[n..])
  {
    hide TxStep, Step, Word;
    if put.Some? {
      tx.Write(txtab, put.value);
    }
    tx.Cycle();
    ReadsDoNotMatter(l.rx, n, tx.pins);
    KeepsPrefix(l.rx, tx.pins);
    rx.Cycle(tx.pins);
  }

  lemma KeepsPrefix(r: Rx, pins: Pair)
    ensures r.fifo <= Step(r, pins).fifo
  {
  }

  // ---------------------------------------------------------------- the levels of one frame

  lemma {:induction false} FrameUnderWay(b: Octet, c: nat, m: seq<u16>)
    requires c < FRAME && Maps(m, 0x100)
    ensures Conserved(Cycles(QUIET, [Some(b)] + Silent(c + 1)), InFrame(c, b, None), [], [b], m)
    decreases c
  {
    hide Conserved, Cycle, Cycles;
    var before := Cycles(QUIET, [Some(b)] + Silent(c));
    assert [Some(b)] + Silent(c + 1) == [Some(b)] + Silent(c) + [None];
    CyclesLast(QUIET, [Some(b)] + Silent(c), None);
    assert [b] + [] == [b] && [] + [b] == [b];
    if c == 0 {
      QuietConserved(m);
      CycleConserves(QUIET, Idle, [], [], m, Some(b));
      assert [Some(b)] + Silent(0) == [] + [Some(b)];
      CyclesLast(QUIET, [], Some(b));
      CyclesNone(QUIET);
      CycleConserves(before, Loaded(b), [], [b], m, None);
    } else {
      FrameUnderWay(b, c - 1, m);
      CycleConserves(before, InFrame(c - 1, b, None), [], [b], m, None);
    }
  }

  lemma CyclesNone(l: Link)
    ensures Cycles(l, []) == l
  {
  }

  lemma ConservedPins(l: Link, c: nat, b: Octet, queue: seq<Octet>, sent: seq<Octet>, m: seq<u16>)
    requires c < FRAME && Conserved(l, InFrame(c, b, None), queue, sent, m)
    ensures l.tx.pins == Pairs(b)[c / 8]
  {
    hide Pairs;
  }

  /** A byte written to a quiet line: two cycles later its frame begins, 96 cycles long, eight for each
      bit. First the positive wire is low, then it is high for each 1 of the byte, from the lowest bit
      up, and low for each 0, and at last it is high for three bits; the other wire is always its
      opposite. */
  lemma FrameOnLine(b: Octet, c: nat, m: seq<u16>)
    requires c < 96 && Maps(m, 0x100)
    ensures Cycles(QUIET, [Some(b)] + Silent(c + 1)).tx.pins
      == if c < 8 then 2 else if c >= 72 || Bit(b, c / 8 - 1) then 1 else 2
  {
    hide Cycles, Conserved, Pairs;
    FrameUnderWay(b, c, m);
    ConservedPins(Cycles(QUIET, [Some(b)] + Silent(c + 1)), c, b, [], [b], m);
    PairsAre(b);
    if 8 <= c < 72 {
      var k := c / 8 - 1;
      assert Pairs(b)[k + 1] == if Bit(b, k) then 1 else 2;
    }
  }
}
