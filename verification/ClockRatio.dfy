/** The same line when the two clocks differ: a bit lasts some real number of receiver cycles, and
    frames start at any real time. Eight is the number both programs are made for. */
module ClockRatio {
  import opened Bytes
  import opened LineCode
  import opened Receiver
  import opened Line

  /** A byte and how long the line is idle before it. */
  datatype Burst = Burst(gap: real, b: Octet)

  // ---------------------------------------------------------------- the levels over time

  /** The level at time u when each pair lasts as long as a bit; the last one stays. */
  function LevelIn(s: seq<Pair>, u: real, bit: real): Pair
    requires s != []
  {
    if |s| == 1 || u < bit then s[0] else LevelIn(s[1..], u - bit, bit)
  }

  const FRAME_BITS: real := 12.0

  function FramePairs(b: Octet): (s: seq<Pair>)
    ensures |s| == 12
  {
    Pairs(b)[..12]
  }

  function Level(bursts: seq<Burst>, bit: real, t: real): Pair
    decreases |bursts|
  {
    if bursts == [] || t < bursts[0].gap then HIGH
    else
      var u := t - bursts[0].gap;
      if u < FRAME_BITS * bit then LevelIn(FramePairs(bursts[0].b), u, bit)
      else Level(bursts[1..], bit, u - FRAME_BITS * bit)
  }

  /** What the receiver sees in n cycles, the first of them at time t. */
  function Seen(bursts: seq<Burst>, bit: real, t: real, n: nat): (s: seq<Pair>)
    ensures |s| == n && forall i | 0 <= i < n :: s[i] == Level(bursts, bit, t + i as real)
  {
    seq(n, i requires 0 <= i < n => Level(bursts, bit, t + i as real))
  }

  function Duration(bursts: seq<Burst>, bit: real): real {
    if bursts == [] then 0.0 else bursts[0].gap + FRAME_BITS * bit + Duration(bursts[1..], bit)
  }

  function BytesOf(bursts: seq<Burst>): (s: seq<Octet>)
    ensures |s| == |bursts|
  {
    seq(|bursts|, i requires 0 <= i < |bursts| => bursts[i].b)
  }

  ghost predicate Spaced(bursts: seq<Burst>) {
    forall f <- bursts :: f.gap >= 0.0
  }

  // ---------------------------------------------------------------- where the samples fall

  lemma Less(k: nat, bit: real)
    requires k > 0
    ensures (k - 1) as real * bit == k as real * bit - bit
  {
  }

  /** In the k-th bit time the level is the k-th pair. */
  lemma {:induction false} LevelInBit(s: seq<Pair>, u: real, bit: real, k: nat)
    requires bit > 0.0 && k < |s|
    requires k as real * bit <= u
    requires u < (k + 1) as real * bit || k == |s| - 1
    ensures LevelIn(s, u, bit) == s[k]
    decreases k
  {
    Less(k + 1, bit);
    if k > 0 {
      Less(k, bit);
      AtLeast(k, bit);
      LevelInBit(s[1..], u - bit, bit, k - 1);
    }
  }

  lemma AtLeast(k: nat, bit: real)
    requires k > 0 && bit > 0.0
    ensures k as real * bit >= bit
  {
  }

  /** A bit time for which every sample of a frame falls into its own bit. */
  predicate Workable(bit: real) {
    69.0 <= 9.0 * bit <= 76.0
  }

  /** phase after the start edge, in a frame of its own: each bit is sampled while it lasts. */
  lemma SamplesInBits(bit: real, phase: real, k: nat)
    requires Workable(bit) && 0.0 <= phase < 1.0 && k < 8
    ensures var u := phase + SampleAt(k) as real; (k + 1) as real * bit <= u < (k + 2) as real * bit
  {
    Ninth(k + 1, bit);
    Ninth(k + 2, bit);
    assert 9 * (SampleAt(k) + 1) <= 69 * (k + 2);
    assert 76 * (k + 1) <= 9 * SampleAt(k);
  }

  lemma Product(a: real, b: real)
    requires a >= 0.0 && b >= 0.0
    ensures a * b >= 0.0
  {
  }

  lemma Distributed(n: real, a: real, b: real)
    ensures n * (9.0 * a - b) == 9.0 * (n * a) - n * b
    ensures n * (b - 9.0 * a) == n * b - 9.0 * (n * a)
  {
  }

  lemma Ninth(k: nat, bit: real)
    requires Workable(bit)
    ensures (69 * k) as real <= 9.0 * (k as real * bit) <= (76 * k) as real
  {
    var n := k as real;
    Product(n, 9.0 * bit - 69.0);
    Product(n, 76.0 - 9.0 * bit);
    Distributed(n, bit, 69.0);
    Distributed(n, bit, 76.0);
  }

  /** The levels of one whole frame as the receiver sees them. */
  ghost predicate FrameSeen(pins: seq<Pair>, b: Octet) {
    |pins| == PUSHED_AT + 1 && !Plus(pins[0]) && Plus(pins[STOP_AT]) && SeenIn(pins, 8) == Symbols(b, 8)
  }

  lemma FrameIsSeen(bursts: seq<Burst>, bit: real, t: real)
    requires Workable(bit) && bursts != [] && 0.0 <= t - bursts[0].gap < 1.0
    ensures FrameSeen(Seen(bursts, bit, t, PUSHED_AT + 1), bursts[0].b)
  {
    hide Symbols, Pairs, SeenIn;
    var b, phase := bursts[0].b, t - bursts[0].gap;
    var pins := Seen(bursts, bit, t, PUSHED_AT + 1);
    var f := FramePairs(b);
    StopPairs(b);
    LevelInBit(f, phase, bit, 0);
    var j := if phase + 76.0 < 10.0 * bit then 9 else if phase + 76.0 < 11.0 * bit then 10 else 11;
    LevelInBit(f, phase + 76.0, bit, j);
    forall k | 0 <= k < 8 ensures SeenIn(pins, 8)[k] == Symbols(b, 8)[k] {
      SamplesInBits(bit, phase, k);
      LevelInBit(f, phase + SampleAt(k) as real, bit, k + 1);
    }
  }

  // ---------------------------------------------------------------- frame after frame

  lemma SeenSplit(bursts: seq<Burst>, bit: real, t: real, a: nat, b: nat)
    ensures Seen(bursts, bit, t, a + b) == Seen(bursts, bit, t, a) + Seen(bursts, bit, t + a as real, b)
  {
  }

  lemma SeenShift(bursts: seq<Burst>, bit: real, t: real, n: nat)
    requires Workable(bit) && bursts != [] && Spaced(bursts) && t - bursts[0].gap >= 9.0 * bit
    ensures Seen(bursts, bit, t, n) == Seen(bursts[1..], bit, t - bursts[0].gap - FRAME_BITS * bit, n)
  {
    var later := Seen(bursts[1..], bit, t - bursts[0].gap - FRAME_BITS * bit, n);
    forall i | 0 <= i < n ensures Seen(bursts, bit, t, n)[i] == later[i] {
      AfterStart(bursts, bit, t + i as real - bursts[0].gap);
    }
  }

  /** The stop bits are like an idle line. */
  lemma AfterStart(bursts: seq<Burst>, bit: real, u: real)
    requires bit > 0.0 && bursts != [] && Spaced(bursts) && u >= 9.0 * bit
    ensures Level(bursts, bit, bursts[0].gap + u) == Level(bursts[1..], bit, u - FRAME_BITS * bit)
  {
    hide Pairs;
    if u < FRAME_BITS * bit {
      var j := if u < 10.0 * bit then 9 else if u < 11.0 * bit then 10 else 11;
      StopPairs(bursts[0].b);
      LevelInBit(FramePairs(bursts[0].b), u, bit, j);
      assert bursts[1..] != [] ==> bursts[1..][0] in bursts;
    }
  }

  /** The cycles before the start edge of the first frame is seen. */
  function Ceiling(x: real): (n: nat)
    requires x >= 0.0
    ensures x <= n as real < x + 1.0
  {
    if x == x.Floor as real then x.Floor else x.Floor + 1
  }

  lemma HighBefore(bursts: seq<Burst>, bit: real, t: real, n: nat)
    requires bursts == [] || t + n as real < bursts[0].gap + 1.0
    ensures forall p <- Seen(bursts, bit, t, n) :: Plus(p)
  {
  }

  lemma {:induction false} Decodes(bursts: seq<Burst>, bit: real, t: real, n: nat, r: Rx, m: seq<u16>)
    requires Workable(bit) && Spaced(bursts) && Waiting(r) && Maps(m, 0x100)
    requires bursts != [] ==> t < bursts[0].gap + 1.0
    requires t + n as real >= Duration(bursts, bit)
    ensures Received(m, Run(r, Seen(bursts, bit, t, n)).fifo) == Received(m, r.fifo) + BytesOf(bursts)
    decreases |bursts|
  {
    hide Waiting, Level, Received, SeenIn, Plus, Symbols, Run;
    if bursts == [] {
      HighBefore(bursts, bit, t, n);
      WaitsWhileHigh(r, Seen(bursts, bit, t, n));
      assert Received(m, r.fifo) + [] == Received(m, r.fifo);
    } else {
      var gap, b, rest := bursts[0].gap, bursts[0].b, bursts[1..];
      var w := if t < gap then Ceiling(gap - t) else 0;
      var t0 := t + w as real;
      DurationPositive(rest, bit);
      assert n >= w + PUSHED_AT + 1 by { EnoughCycles(t, n, w, gap, bit, Duration(rest, bit)); }
      var left := n - w - (PUSHED_AT + 1);
      WaitFor(bursts, bit, t, w, n, r);
      var s := TakeFrame(bursts, bit, t0, n - w, r, m);
      var t1 := t0 + 78.0 - gap - FRAME_BITS * bit;
      assert t1 + left as real >= Duration(rest, bit);
      assert rest != [] ==> rest[0] in bursts;
      Decodes(rest, bit, t1, left, s, m);
      assert [b] + BytesOf(rest) == BytesOf(bursts);
      assert Received(m, r.fifo) + [b] + BytesOf(rest) == Received(m, r.fifo) + ([b] + BytesOf(rest));
    }
  }

  lemma {:induction false} DurationPositive(bursts: seq<Burst>, bit: real)
    requires bit > 0.0 && Spaced(bursts)
    ensures Duration(bursts, bit) >= 0.0
  {
    if bursts != [] {
      assert bursts[0] in bursts;
      DurationPositive(bursts[1..], bit);
    }
  }

  lemma EnoughCycles(t: real, n: nat, w: nat, gap: real, bit: real, more: real)
    requires Workable(bit) && t + w as real < gap + 1.0 && more >= 0.0
    requires t + n as real >= gap + FRAME_BITS * bit + more
    ensures n >= w + PUSHED_AT + 1
  {
    assert (n - w) as real >= 79.0;
  }

  lemma WaitFor(bursts: seq<Burst>, bit: real, t: real, w: nat, n: nat, r: Rx)
    requires Waiting(r) && bursts != [] && w <= n
    requires w > 0 ==> t + w as real < bursts[0].gap + 1.0
    ensures Run(r, Seen(bursts, bit, t, n)) == Run(r, Seen(bursts, bit, t + w as real, n - w))
  {
    hide Level, Waiting, Plus;
    SeenSplit(bursts, bit, t, w, n - w);
    RunConcat(r, Seen(bursts, bit, t, w), Seen(bursts, bit, t + w as real, n - w));
    if w > 0 {
      HighBefore(bursts, bit, t, w);
      WaitsWhileHigh(r, Seen(bursts, bit, t, w));
    }
  }

  /** One frame goes by, and the receiver waits again in time for the next. */
  lemma TakeFrame(bursts: seq<Burst>, bit: real, t: real, n: nat, r: Rx, m: seq<u16>) returns (s: Rx)
    requires Workable(bit) && Spaced(bursts) && Waiting(r) && Maps(m, 0x100) && bursts != []
    requires 0.0 <= t - bursts[0].gap < 1.0 && n >= PUSHED_AT + 1
    ensures Waiting(s) && Received(m, s.fifo) == Received(m, r.fifo) + [bursts[0].b]
    ensures Run(r, Seen(bursts, bit, t, n))
         == Run(s, Seen(bursts[1..], bit, t + 78.0 - bursts[0].gap - FRAME_BITS * bit, n - 78))
  {
    hide Level, Received, SeenIn, Plus, Symbols, Waiting;
    var pins := Seen(bursts, bit, t, PUSHED_AT + 1);
    s := Run(r, pins);
    FrameIsSeen(bursts, bit, t);
    FrameTaken(r, pins);
    TakenIn(m, r.fifo, s.fifo, bursts[0].b);
    SeenSplit(bursts, bit, t, 78, n - 78);
    RunConcat(r, pins, Seen(bursts, bit, t + 78.0, n - 78));
    SeenShift(bursts, bit, t + 78.0, n - 78);
  }

  // ---------------------------------------------------------------- outside the interval

  lemma {:induction false} ZeroIsLow(n: nat, i: nat)
    requires i < n
    ensures Symbols(0, n)[i] == LOW
    decreases n
  {
    if i > 0 {
      ZeroIsLow(n - 1, i - 1);
    }
  }

  lemma {:induction false} LowWhile(s: seq<Pair>, u: real, bit: real, k: nat)
    requires 0 < k < |s| && forall i | 0 <= i < k :: s[i] == LOW
    requires u < k as real * bit
    ensures LevelIn(s, u, bit) == LOW
    decreases k
  {
    Less(k, bit);
    if u >= bit {
      if k == 1 {
        assert false;
      } else {
        LowWhile(s[1..], u - bit, bit, k - 1);
      }
    }
  }

  /** A single byte 0: low for nine bit times, then high for ever. */
  const ZERO: seq<Burst> := [Burst(0.0, 0)]

  lemma ZeroLevel(bit: real, u: real)
    requires bit > 0.0 && u >= 0.0
    ensures Level(ZERO, bit, u) == if u < 9.0 * bit then LOW else HIGH
  {
    hide Pairs, Symbols;
    if u < 9.0 * bit {
      StopPairs(0);
      forall i | 0 <= i < 9 ensures FramePairs(0)[i] == LOW {
        if i > 0 {
          ZeroIsLow(8, i - 1);
        }
      }
      LowWhile(FramePairs(0), u, bit, 9);
    } else {
      AfterStart(ZERO, bit, u);
    }
  }

  /** After a missing stop bit nothing is pushed unless the line goes low anew. */
  lemma {:induction false} NoMorePushes(r: Rx, pins: seq<Pair>)
    requires r.pc == 6 && r.delay == 0
    requires forall i, j | 0 <= i < j < |pins| :: Plus(pins[i]) ==> Plus(pins[j])
    ensures Run(r, pins).fifo == r.fifo
    decreases |pins|
  {
    if pins != [] {
      if !Plus(pins[0]) {
        NoMorePushes(Step(r, pins[0]), pins[1..]);
      } else if |pins| > 1 {
        assert pins[1..][1..] == pins[2..];
        assert forall p <- pins[2..] :: Plus(p) by {
          assert forall j | 0 < j < |pins| :: Plus(pins[j]);
        }
        var s := Step(Step(r, pins[0]), pins[1]);
        assert Waiting(s) && s.fifo == r.fifo;
        WaitsWhileHigh(s, pins[2..]);
      }
    }
  }

  lemma TooSlow(bit: real, n: nat, r: Rx)
    requires 9.0 * bit > 76.0 && Waiting(r) && n >= PUSHED_AT + 1
    ensures Run(r, Seen(ZERO, bit, 0.0, n)).fifo == r.fifo
  {
    hide Level, Waiting, SeenIn;
    var pins, rest := Seen(ZERO, bit, 0.0, 78), Seen(ZERO, bit, 78.0, n - 78);
    ZeroLevel(bit, 0.0);
    ZeroLevel(bit, 76.0);
    FrameRefused(r, pins);
    SeenSplit(ZERO, bit, 0.0, 78, n - 78);
    RunConcat(r, pins, rest);
    forall i, j | 0 <= i < j < |rest| && Plus(rest[i]) ensures Plus(rest[j]) {
      ZeroLevel(bit, 78.0 + i as real);
      ZeroLevel(bit, 78.0 + j as real);
    }
    NoMorePushes(Run(r, pins), rest);
  }

  lemma TooFast(bit: real, n: nat, r: Rx, m: seq<u16>) returns (t: real)
    requires 0.0 < 9.0 * bit < 69.0 && Waiting(r) && n >= PUSHED_AT + 1 && Maps(m, 0x100)
    ensures 0.0 <= t < 1.0
    ensures Received(m, Run(r, Seen(ZERO, bit, t, n)).fifo) != Received(m, r.fifo) + [0]
  {
    hide Level, Waiting, Code;
    t := if 9.0 * bit < 68.0 then 0.0 else 9.0 * bit - 68.0;
    var pins, rest := Seen(ZERO, bit, t, 78), Seen(ZERO, bit, t + 78.0, n - 78);
    ZeroLevel(bit, t);
    ZeroLevel(bit, t + 68.0);
    ZeroLevel(bit, t + 76.0);
    FrameTaken(r, pins);
    var s := Run(r, pins);
    NotZero(SeenIn(pins, 8));
    assert SeenIn(pins, 8)[7] == pins[SampleAt(7)] == HIGH;
    SeenSplit(ZERO, bit, t, 78, n - 78);
    RunConcat(r, pins, rest);
    forall p <- rest ensures Plus(p) {
      var i :| 0 <= i < |rest| && rest[i] == p;
      ZeroLevel(bit, t + 78.0 + i as real);
    }
    WaitsWhileHigh(s, rest);
    assert Received(m, s.fifo)[|r.fifo|] != 0;
  }

  lemma NotZero(s: seq<Pair>)
    requires |s| == 8 && s[7] == HIGH
    ensures Value(s) != Code(0)
  {
    ZeroIsLow(8, 7);
    if Value(s) == Code(0) {
      ValueInjective(s, Symbols(0, 8));
    }
  }

  // ---------------------------------------------------------------- exactly the workable ratios

  /** Every sequence of bytes, at every distance from each other, arrives as it was sent, wherever in
      its own cycle the receiver is when it begins, once the line has gone through all of it. */
  ghost predicate DecodesAll(bit: real, m: seq<u16>)
    requires |m| == 0x1_0000
  {
    forall bursts: seq<Burst>, t: real, n: nat ::
      Spaced(bursts) && 0.0 <= t < 1.0 && t + n as real >= Duration(bursts, bit) ==>
        Received(m, Run(QUIET.rx, Seen(bursts, bit, t, n)).fifo) == BytesOf(bursts)
  }

  lemma WorkableDecodes(bit: real, m: seq<u16>)
    requires Workable(bit) && Maps(m, 0x100)
    ensures DecodesAll(bit, m)
  {
    hide Seen, Run;
    forall bursts: seq<Burst>, t: real, n: nat
      | Spaced(bursts) && 0.0 <= t < 1.0 && t + n as real >= Duration(bursts, bit)
      ensures Received(m, Run(QUIET.rx, Seen(bursts, bit, t, n)).fifo) == BytesOf(bursts)
    {
      assert bursts != [] ==> bursts[0] in bursts;
      Decodes(bursts, bit, t, n, QUIET.rx, m);
      assert Received(m, []) + BytesOf(bursts) == BytesOf(bursts);
    }
  }

  lemma UnworkableFails(bit: real, m: seq<u16>)
    requires bit > 0.0 && !Workable(bit) && Maps(m, 0x100)
    ensures !DecodesAll(bit, m)
  {
    hide Seen, Run;
    var n := Ceiling(FRAME_BITS * bit) + 78;
    assert Duration(ZERO, bit) == FRAME_BITS * bit by {
      assert ZERO[1..] == [];
    }
    assert BytesOf(ZERO) == [0];
    var t := 0.0;
    if 9.0 * bit > 76.0 {
      TooSlow(bit, n, QUIET.rx);
    } else {
      t := TooFast(bit, n, QUIET.rx, m);
    }
    assert Received(m, Run(QUIET.rx, Seen(ZERO, bit, t, n)).fifo) != BytesOf(ZERO);
  }

  /** With a transmitter cycle of ratio receiver cycles the line works if and only if the ratio is
      between 69/72 and 76/72. */
  lemma RatioExact(ratio: real, m: seq<u16>)
    requires ratio > 0.0 && Maps(m, 0x100)
    ensures DecodesAll(8.0 * ratio, m) <==> 69.0 <= 72.0 * ratio <= 76.0
  {
    hide DecodesAll;
    if Workable(8.0 * ratio) {
      WorkableDecodes(8.0 * ratio, m);
    } else {
      UnworkableFails(8.0 * ratio, m);
    }
  }
}
