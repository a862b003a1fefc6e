/** duart_rx.pio: the receive program, one clock cycle at a time, and what it makes of a frame. */
module Receiver {
  import opened Bytes
  import opened LineCode

  /** The instructions the program uses, with their delays and with targets as addresses. */
  datatype Instruction =
    | WaitPin(high: bool)
    | SetX(value: nat, delay: nat)
    | InTwoPins
    | JmpXDec(target: nat, delay: nat)
    | JmpPin(target: nat)
    | Irq
    | Jmp(target: nat)
    | Push

  const PROGRAM: seq<Instruction> := [
    WaitPin(false),   // 0: start
    SetX(7, 10),      // 1
    InTwoPins,        // 2: bitloop
    JmpXDec(2, 6),    // 3
    JmpPin(8),        // 4
    Irq,              // 5
    WaitPin(true),    // 6
    Jmp(0),           // 7
    Push]             // 8: good_stop, and back to the start

  /** The state between two cycles: delay cycles pass before the instruction at pc is tried. */
  datatype Rx = Rx(pc: nat, delay: nat, x: nat, isr: u32, irq: bool, fifo: seq<u32>)

  predicate Plus(p: Pair) {
    p % 2 == 1
  }

  function Execute(r: Rx, i: Instruction, pins: Pair): Rx {
    match i
    case WaitPin(high) => if Plus(pins) == high then r.(pc := r.pc + 1) else r
    case SetX(value, delay) => r.(pc := r.pc + 1, x := value, delay := delay)
    case InTwoPins => r.(pc := r.pc + 1, isr := r.isr / 4 + pins * 0x4000_0000)
    case JmpXDec(target, delay) =>
      r.(pc := if r.x != 0 then target else r.pc + 1, x := (r.x - 1) % 0x1_0000_0000, delay := delay)
    case JmpPin(target) => r.(pc := if Plus(pins) then target else r.pc + 1)
    case Irq => r.(pc := r.pc + 1, irq := true)
    case Jmp(target) => r.(pc := target)
    case Push => r.(pc := 0, isr := 0, fifo := r.fifo + [r.isr])
  }

  /** One clock cycle with the given levels on the pins. */
  function Step(r: Rx, pins: Pair): Rx {
    if r.delay > 0 then r.(delay := r.delay - 1)
    else if r.pc < |PROGRAM| then Execute(r, PROGRAM[r.pc], pins)
    else r
  }

  function Run(r: Rx, pins: seq<Pair>): Rx
    decreases |pins|
  {
    if pins == [] then r else Run(Step(r, pins[0]), pins[1..])
  }

  /** The state machine itself, and the FIFO the processor reads from. */
  class Machine {
    var pc: nat
    var delay: nat
    var x: nat
    var isr: u32
    var irq: bool
    var fifo: seq<u32>

    function State(): Rx
      reads this
    {
      Rx(pc, delay, x, isr, irq, fifo)
    }

    constructor ()
      ensures State() == Rx(0, 0, 0, 0, false, [])
    {
      pc, delay, x, isr, irq, fifo := 0, 0, 0, 0, false, [];
    }

    method Cycle(pins: Pair)
      modifies this
      ensures State() == Step(old(State()), pins)
    {
      if delay > 0 {
        delay := delay - 1;
        return;
      }
      if pc >= |PROGRAM| {
        return;
      }
      match PROGRAM[pc] {
        case WaitPin(high) =>
          if Plus(pins) == high {
            pc := pc + 1;
          }
        case SetX(value, cycles) =>
          x, delay, pc := value, cycles, pc + 1;
        case InTwoPins =>
          isr, pc := isr / 4 + pins * 0x4000_0000, pc + 1;
        case JmpXDec(target, cycles) =>
          pc := if x != 0 then target else pc + 1;
          x, delay := (x - 1) % 0x1_0000_0000, cycles;
        case JmpPin(target) =>
          pc := if Plus(pins) then target else pc + 1;
        case Irq =>
          irq, pc := true, pc + 1;
        case Jmp(target) =>
          pc := target;
        case Push =>
          fifo, isr, pc := fifo + [isr], 0, 0;
      }
    }

    /** duart_rx_program_get */
    method Get(rxmap: array<u16>) returns (data: u16)
      requires rxmap.Length == 0x1_0000
      modifies this`fifo
      ensures if old(fifo) == [] then data == 0xFFFF && fifo == []
              else data == rxmap[old(fifo)[0] / 0x1_0000] && fifo == old(fifo)[1..]
    {
      if fifo == [] {
        return 0xFFFF;
      }
      data := rxmap[fifo[0] / 0x1_0000];
      fifo := fifo[1..];
    }
  }

  lemma {:induction false} RunConcat(r: Rx, a: seq<Pair>, b: seq<Pair>)
    ensures Run(r, a + b) == Run(Run(r, a), b)
    decreases |a|
  {
    hide Step;
    if a == [] {
      assert a + b == b;
    } else {
      RunConcat(Step(r, a[0]), a[1..], b);
      assert (a + b)[1..] == a[1..] + b;
    }
  }

  /** The program is at its start and waits for the line to go low. */
  predicate Waiting(r: Rx) {
    r.pc == 0 && r.delay == 0
  }

  lemma {:induction false} WaitsWhileHigh(r: Rx, pins: seq<Pair>)
    requires Waiting(r) && forall p <- pins :: Plus(p)
    ensures Run(r, pins) == r
    decreases |pins|
  {
    if pins != [] {
      assert pins[0] in pins;
      WaitsWhileHigh(Step(r, pins[0]), pins[1..]);
    }
  }

  // ---------------------------------------------------------------- one frame, cycle by cycle

  /** Bit k is sampled twelve and eight k cycles after the start edge was seen. */
  function SampleAt(k: nat): nat {
    12 + 8 * k
  }

  const STOP_AT: nat := 76
  const PUSHED_AT: nat := 77

  /** How many bits have been sampled up to cycle c. */
  function Sampled(c: nat): nat {
    if c < 12 then 0 else Min((c - 12) / 8 + 1, 8)
  }

  /** Where the program is after cycle c of a frame. */
  predicate Placed(r: Rx, c: nat) {
    if c == 0 then r.pc == 1 && r.delay == 0
    else if c < 12 then r.pc == 2 && r.delay == 11 - c && r.x == 7
    else if c < STOP_AT then
      var k, m := (c - 12) / 8, (c - 12) % 8;
      if m == 0 then r.pc == 3 && r.delay == 0 && r.x == 7 - k
      else r.delay == 7 - m && if k < 7 then r.pc == 2 && r.x == 6 - k else r.pc == 4
    else c == STOP_AT && r.pc == 8 && r.delay == 0
  }

  /** Without the n lowest pairs. */
  function Drop(isr: nat, n: nat): nat {
    if n == 0 then isr else Drop(isr / 4, n - 1)
  }

  /** The samples are the top digits of the shift register. */
  predicate Shifted(isr: u32, seen: seq<Pair>) {
    |seen| <= 8 && Drop(isr, 16 - |seen|) == Value(seen)
  }

  /** The receiver after cycle c of a frame, counted from the cycle that saw the start edge. */
  ghost predicate Receiving(r: Rx, c: nat, seen: seq<Pair>, before: seq<u32>) {
    Placed(r, c) && r.fifo == before && |seen| == Sampled(c) && Shifted(r.isr, seen)
  }

  lemma PlacedNext(r: Rx, c: nat, pins: Pair)
    requires c < STOP_AT && Placed(r, c)
    requires c + 1 == STOP_AT ==> Plus(pins)
    ensures Placed(Step(r, pins), c + 1) && Step(r, pins).fifo == r.fifo && Step(r, pins).irq == r.irq
    ensures r.pc == 2 && r.delay == 0 <==> Sampled(c) < 8 && c + 1 == SampleAt(Sampled(c))
    ensures Sampled(c + 1) == Sampled(c) + (if r.pc == 2 && r.delay == 0 then 1 else 0)
    ensures Step(r, pins).isr == if r.pc == 2 && r.delay == 0 then r.isr / 4 + pins * 0x4000_0000 else r.isr
  {
  }

  lemma {:induction false} DropSum(a: nat, p: Pair, m: nat, j: nat)
    requires j <= m
    ensures Drop(a + p * Pow4(m), j) == Drop(a, j) + p * Pow4(m - j)
    decreases j
  {
    if j > 0 {
      var q := p * Pow4(m - 1);
      assert p * Pow4(m) == 4 * q;
      assert (a + 4 * q) / 4 == a / 4 + q;
      DropSum(a / 4, p, m - 1, j - 1);
    }
  }

  lemma {:induction false} DropAll(a: nat, n: nat)
    requires a < Pow4(n)
    ensures Drop(a, n) == 0
  {
    if n > 0 {
      DropAll(a / 4, n - 1);
    }
  }

  lemma DropFour(a: nat, n: nat)
    requires n >= 4
    ensures Drop(a, n) == Drop(a / 0x100, n - 4)
  {
    assert Drop(a, n) == Drop(a / 4, n - 1) == Drop(a / 4 / 4, n - 2) == Drop(a / 4 / 4 / 4, n - 3);
    assert Drop(a / 4 / 4 / 4, n - 3) == Drop(a / 4 / 4 / 4 / 4, n - 4);
    assert a / 4 / 4 / 4 / 4 == a / 0x100;
  }

  lemma DropHalf(a: nat)
    ensures Drop(a, 8) == a / 0x1_0000
  {
    DropFour(a, 8);
    DropFour(a / 0x100, 4);
    assert a / 0x100 / 0x100 == a / 0x1_0000;
  }

  lemma Pow4At15()
    ensures Pow4(15) == 0x4000_0000
  {
    assert Pow4(8) == 0x1_0000;
  }

  lemma ValueAppend(seen: seq<Pair>, p: Pair)
    ensures Value(seen + [p]) == Value(seen) + p * Pow4(|seen|)
  {
    ValueConcat(seen, [p]);
    OneDigit(p);
    hide *;
  }

  lemma OneDigit(p: Pair)
    ensures Value([p]) == p
  {
    assert [p][1..] == [];
  }

  /** Shifting a pair in from the top adds the next digit. */
  lemma ShiftIn(isr: u32, seen: seq<Pair>, p: Pair)
    requires Shifted(isr, seen) && |seen| < 8
    ensures Shifted(isr / 4 + p * 0x4000_0000, seen + [p])
  {
    var n := |seen|;
    Pow4At15();
    DropSum(isr / 4, p, 15, 15 - n);
    ValueAppend(seen, p);
    assert Drop(isr, 16 - n) == Drop(isr / 4, 15 - n);
    hide *;
  }

  lemma ReceivingNext(r: Rx, c: nat, seen: seq<Pair>, before: seq<u32>, pins: Pair)
    requires c < STOP_AT && Receiving(r, c, seen, before)
    requires c + 1 == STOP_AT ==> Plus(pins)
    ensures Receiving(Step(r, pins), c + 1, if Sampled(c + 1) > Sampled(c) then seen + [pins] else seen, before)
  {
    hide Step, Placed, Shifted;
    PlacedNext(r, c, pins);
    if Sampled(c + 1) > Sampled(c) {
      ShiftIn(r.isr, seen, pins);
    }
  }

  lemma NothingShifted(isr: u32)
    ensures Shifted(isr, [])
  {
    assert Pow4(8) == 0x1_0000;
    assert Pow4(16) == 0x1_0000_0000;
    DropAll(isr, 16);
  }

  /** The start edge is seen, and after the last cycle the word is pushed and the program waits again. */
  lemma FrameEnds(r: Rx, seen: seq<Pair>, before: seq<u32>, pins: Pair)
    ensures Waiting(r) && !Plus(pins) ==> Receiving(Step(r, pins), 0, [], r.fifo)
    ensures Receiving(r, STOP_AT, seen, before) ==>
      var s := Step(r, pins);
      Waiting(s) && s.fifo == before + [r.isr] && r.isr / 0x1_0000 == Value(seen)
  {
    DropHalf(r.isr);
    if Waiting(r) {
      NothingShifted(r.isr);
    }
  }

  // ---------------------------------------------------------------- one frame as a whole

  /** The levels at the sampling points. What they are in between does not matter. */
  function SeenIn(pins: seq<Pair>, n: nat): (s: seq<Pair>)
    requires |pins| == PUSHED_AT + 1 && n <= 8
    ensures |s| == n && forall k | 0 <= k < n :: s[k] == pins[SampleAt(k)]
  {
    seq(n, k requires 0 <= k < n => pins[SampleAt(k)])
  }

  lemma {:induction false} ReceivesUpTo(r: Rx, pins: seq<Pair>, c: nat)
    requires Waiting(r) && |pins| == PUSHED_AT + 1 && !Plus(pins[0])
    requires c <= STOP_AT && (c == STOP_AT ==> Plus(pins[STOP_AT]))
    ensures Receiving(Run(r, pins[..c + 1]), c, SeenIn(pins, Sampled(c)), r.fifo)
    decreases c
  {
    hide Step, Receiving, Waiting, Plus;
    assert pins[..c + 1] == pins[..c] + [pins[c]];
    RunConcat(r, pins[..c], [pins[c]]);
    assert [pins[c]][1..] == [];
    if c == 0 {
      FrameEnds(r, [], [], pins[0]);
    } else {
      ReceivesUpTo(r, pins, c - 1);
      var before := Run(r, pins[..c]);
      SampledWhen(c - 1);
      var n := Sampled(c - 1);
      if Sampled(c) > n {
        assert SeenIn(pins, n) + [pins[c]] == SeenIn(pins, n + 1);
      }
      ReceivingNext(before, c - 1, SeenIn(pins, n), r.fifo, pins[c]);
    }
  }

  lemma {:induction false} NoErrorUpTo(r: Rx, pins: seq<Pair>, c: nat)
    requires Waiting(r) && |pins| == PUSHED_AT + 1 && !Plus(pins[0])
    requires c <= STOP_AT && (c == STOP_AT ==> Plus(pins[STOP_AT]))
    ensures Run(r, pins[..c + 1]).irq == r.irq
    decreases c
  {
    hide Step, Waiting, Plus, Placed, Shifted;
    RunLast(r, pins, c);
    if c > 0 {
      NoErrorUpTo(r, pins, c - 1);
      ReceivesUpTo(r, pins, c - 1);
      PlacedNext(Run(r, pins[..c]), c - 1, pins[c]);
    } else {
      assert pins[..0] == [];
      StartIsQuiet(r, pins[0]);
    }
  }

  lemma StartIsQuiet(r: Rx, pins: Pair)
    requires Waiting(r)
    ensures Step(r, pins).irq == r.irq
  {
  }

  lemma PushIsQuiet(r: Rx, seen: seq<Pair>, before: seq<u32>, pins: Pair)
    requires Receiving(r, STOP_AT, seen, before)
    ensures Step(r, pins).irq == r.irq && Step(r, pins).isr == 0
  {
  }

  lemma SampledWhen(c: nat)
    ensures Sampled(c + 1) == Sampled(c) || (Sampled(c + 1) == Sampled(c) + 1 && c + 1 == SampleAt(Sampled(c)))
    ensures Sampled(c + 1) <= 8
  {
  }

  lemma RunLast(r: Rx, pins: seq<Pair>, n: nat)
    requires n < |pins|
    ensures Run(r, pins[..n + 1]) == Step(Run(r, pins[..n]), pins[n])
  {
    hide Step;
    RunConcat(r, pins[..n], [pins[n]]);
    assert pins[..n + 1] == pins[..n] + [pins[n]];
    assert [pins[n]][1..] == [];
  }

  /** From the start edge to the push, the program takes in the eight sampled pairs. */
  lemma FrameTaken(r: Rx, pins: seq<Pair>)
    requires Waiting(r) && |pins| == PUSHED_AT + 1 && !Plus(pins[0]) && Plus(pins[STOP_AT])
    ensures var s := Run(r, pins);
      && Waiting(s) && |s.fifo| == |r.fifo| + 1 && s.fifo[..|r.fifo|] == r.fifo
      && s.fifo[|r.fifo|] / 0x1_0000 == Value(SeenIn(pins, 8))
      && s.irq == r.irq && s.isr == 0
  {
    hide Step, Receiving, Waiting, Plus, SeenIn;
    ReceivesUpTo(r, pins, STOP_AT);
    NoErrorUpTo(r, pins, STOP_AT);
    PushIsQuiet(Run(r, pins[..PUSHED_AT]), SeenIn(pins, 8), r.fifo, pins[PUSHED_AT]);
    FrameEnds(Run(r, pins[..PUSHED_AT]), SeenIn(pins, 8), r.fifo, pins[PUSHED_AT]);
    RunLast(r, pins, PUSHED_AT);
    assert pins[..PUSHED_AT + 1] == pins;
  }

  lemma AtStopBit(r: Rx, seen: seq<Pair>, before: seq<u32>, pins: Pair, next: Pair)
    requires Receiving(r, STOP_AT - 1, seen, before) && !Plus(pins)
    ensures var s := Step(Step(r, pins), next); s.pc == 6 && s.delay == 0 && s.fifo == before && s.irq
  {
  }

  /** Without a high level where the stop bit should be nothing is pushed. */
  lemma FrameRefused(r: Rx, pins: seq<Pair>)
    requires Waiting(r) && |pins| == PUSHED_AT + 1 && !Plus(pins[0]) && !Plus(pins[STOP_AT])
    ensures var s := Run(r, pins); s.pc == 6 && s.delay == 0 && s.fifo == r.fifo && s.irq
  {
    hide Step, Receiving, Waiting, Plus, SeenIn;
    ReceivesUpTo(r, pins, STOP_AT - 1);
    RunLast(r, pins, STOP_AT);
    RunLast(r, pins, PUSHED_AT);
    assert pins[..PUSHED_AT + 1] == pins;
    AtStopBit(Run(r, pins[..STOP_AT]), SeenIn(pins, Sampled(STOP_AT - 1)), r.fifo, pins[STOP_AT], pins[PUSHED_AT]);
  }

  /** After a missing stop bit the program waits for the line to go high, however long that takes, and
      is ready for the next start edge two cycles later. */
  lemma {:induction false} Recovers(r: Rx, lows: seq<Pair>, high: Pair, next: Pair)
    requires r.pc == 6 && r.delay == 0 && (forall p <- lows :: !Plus(p)) && Plus(high)
    ensures var s := Run(r, lows + [high, next]); Waiting(s) && s == r.(pc := 0)
    decreases |lows|
  {
    if lows == [] {
      assert [] + [high, next] == [high, next] && [high, next][1..] == [next] && [next][1..] == [];
      var s := Step(r, high);
      assert s == r.(pc := 7) && Step(s, next) == r.(pc := 0);
      assert Run(r, [high, next]) == Run(s, [next]) == Run(Step(s, next), []);
    } else {
      assert lows[0] in lows;
      Recovers(Step(r, lows[0]), lows[1..], high, next);
      assert (lows + [high, next])[1..] == lows[1..] + [high, next];
    }
  }
}
