/** The CRC as polynomial long division, and the errors its check bytes detect. */
module CrcTheory {
  import opened Bytes
  import opened Gf2
  import opened Register
  import opened Order
  import opened Crc

  // ---------------------------------------------------------------- the register of a byte string

  const ONES: word := seq(16, _ => true)

  lemma OnesHeld()
    ensures Holds(0xffff, ONES)
  {
  }

  lemma TopByteHeld(b: byte, t: word)
    requires forall i | 0 <= i < 16 :: t[i] == (i < 8 && Bits(b)[i])
    ensures Holds((b as bv16) << 8, t)
  {
  }

  /** Eight message bits through the register are one byte through crc_update. */
  lemma HoldsUpdate(r: bv16, w: word, m: bits, n: nat, b: byte)
    requires n + 8 <= |m| && Holds(r, ShiftTo(w, m, n))
    requires forall k | 0 <= k < 8 :: m[n + k] == Bits(b)[k]
    ensures Holds(Update(r, b), ShiftTo(w, m, n + |Bits(b)|))
  {
    hide Xs, Holds, Bits, TimesXn;
    var v, t := ShiftTo(w, m, n), Top(m[n..], |Bits(b)|);
    ShiftSplit(w, m, n, |Bits(b)|);
    ShiftTop(v, m[n..], |Bits(b)|);
    TopByteHeld(b, t);
    HoldsXor(r, (b as bv16) << 8, v, t);
    HoldsXs(|Bits(b)|, r ^ ((b as bv16) << 8), Xor(v, t));
  }

  lemma BitsOfByte(data: seq<byte>, n: nat)
    requires n < |data|
    ensures forall k | 0 <= k < 8 :: BitsOf(data)[8 * n + k] == Bits(data[n])[k]
  {
    hide Bits;
    forall k | 0 <= k < 8 ensures BitsOf(data)[8 * n + k] == Bits(data[n])[k] {
      assert (8 * n + k) / 8 == n && (8 * n + k) % 8 == k;
    }
  }

  lemma CrcNone(r: bv16, data: seq<byte>)
    ensures CrcTo(r, data, 0) == r
  {
  }

  lemma CrcNext(r: bv16, data: seq<byte>, n: nat)
    requires n < |data|
    ensures CrcTo(r, data, n + 1) == Update(CrcTo(r, data, n), data[n])
  {
    hide Update;
  }

  lemma ShiftNone(w: word, m: bits)
    ensures ShiftTo(w, m, 0) == w
  {
  }

  /** The table-driven register holds the remainder of the bits seen so far. */
  lemma {:induction false} HoldsCrcTo(data: seq<byte>, n: nat)
    requires n <= |data|
    ensures Holds(CrcTo(0xffff, data, n), ShiftTo(ONES, BitsOf(data), 8 * n))
  {
    hide *;
    if n == 0 {
      CrcNone(0xffff, data);
      ShiftNone(ONES, BitsOf(data));
      OnesHeld();
    } else {
      HoldsCrcTo(data, n - 1);
      BitsOfByte(data, n - 1);
      HoldsUpdate(CrcTo(0xffff, data, n - 1), ONES, BitsOf(data), 8 * (n - 1), data[n - 1]);
      CrcNext(0xffff, data, n - 1);
    }
  }

  // ---------------------------------------------------------------- long division

  /** Cancel the leading term of d with the generator and drop it. */
  function Reduce(d: bits): (r: bits)
    requires |d| > 16
    ensures |r| == |d| - 1
    ensures forall i | 0 <= i < |r| :: r[i] == (d[i + 1] != (d[0] && i < 16 && Tap(i)))
  {
    seq(|d| - 1, i requires 0 <= i < |d| - 1 => d[i + 1] != (d[0] && i < 16 && Tap(i)))
  }

  /** Polynomial long division as done on paper: the remainder of d by the generator. */
  function LongDivision(d: bits): word
    requires |d| >= 16
    decreases |d|
  {
    if |d| == 16 then d else LongDivision(Reduce(d))
  }

  /** m followed by sixteen zeros, with w added onto the first sixteen bits. */
  function Dividend(w: word, m: bits): (d: bits)
    ensures |d| == |m| + 16
    ensures forall i | 0 <= i < |d| :: d[i] == ((i < |m| && m[i]) != (i < 16 && w[i]))
  {
    seq(|m| + 16, i requires 0 <= i < |m| + 16 => (i < |m| && m[i]) != (i < 16 && w[i]))
  }

  lemma ReduceDividend(w: word, m: bits)
    requires m != []
    ensures Reduce(Dividend(w, m)) == Dividend(BitStep(w, m[0]), m[1..])
  {
  }

  lemma ShiftFirst(w: word, m: bits)
    requires m != []
    ensures ShiftTo(w, m, |m|) == ShiftTo(BitStep(w, m[0]), m[1..], |m| - 1)
  {
    hide *;
    ShiftSplit(w, m, 1, |m| - 1);
    ShiftNone(w, m);
    ShiftNext(w, m, 0);
  }

  /** The shift register computes the remainder of long division. */
  lemma {:induction false} ShiftIsDivision(w: word, m: bits)
    ensures LongDivision(Dividend(w, m)) == ShiftTo(w, m, |m|)
    decreases |m|
  {
    if m == [] {
      assert Dividend(w, m) == w;
    } else {
      ReduceDividend(w, m);
      ShiftIsDivision(BitStep(w, m[0]), m[1..]);
      ShiftFirst(w, m);
    }
  }

  /** The CRC of data is the remainder of dividing its bits followed by sixteen zeros, the first
      sixteen of them complemented, by x^16 + x^12 + x^5 + 1. */
  lemma CrcIsLongDivision(data: seq<byte>)
    ensures Holds(CrcOf(data), LongDivision(Dividend(ONES, BitsOf(data))))
  {
    hide Holds, ShiftTo, LongDivision;
    HoldsCrcTo(data, |data|);
    ShiftIsDivision(ONES, BitsOf(data));
  }

  // ---------------------------------------------------------------- error patterns

  /** p with the bits of e flipped. */
  function XorBytes(p: seq<byte>, e: seq<byte>): (r: seq<byte>)
    requires |p| == |e|
    ensures |r| == |p| && forall i | 0 <= i < |p| :: r[i] == p[i] ^ e[i]
  {
    seq(|p|, i requires 0 <= i < |p| => p[i] ^ e[i])
  }

  lemma BitsXor(a: byte, b: byte)
    ensures ((a ^ b) & 0x80 != 0) == ((a & 0x80 != 0) != (b & 0x80 != 0))
    ensures ((a ^ b) & 0x40 != 0) == ((a & 0x40 != 0) != (b & 0x40 != 0))
    ensures ((a ^ b) & 0x20 != 0) == ((a & 0x20 != 0) != (b & 0x20 != 0))
    ensures ((a ^ b) & 0x10 != 0) == ((a & 0x10 != 0) != (b & 0x10 != 0))
    ensures ((a ^ b) & 0x08 != 0) == ((a & 0x08 != 0) != (b & 0x08 != 0))
    ensures ((a ^ b) & 0x04 != 0) == ((a & 0x04 != 0) != (b & 0x04 != 0))
    ensures ((a ^ b) & 0x02 != 0) == ((a & 0x02 != 0) != (b & 0x02 != 0))
    ensures ((a ^ b) & 0x01 != 0) == ((a & 0x01 != 0) != (b & 0x01 != 0))
  {
  }

  lemma BitsAt(b: byte, m: bits)
    requires m == Bits(b)
    ensures |m| == 8
    ensures m[0] == (b & 0x80 != 0)
    ensures m[1] == (b & 0x40 != 0)
    ensures m[2] == (b & 0x20 != 0)
    ensures m[3] == (b & 0x10 != 0)
    ensures m[4] == (b & 0x08 != 0)
    ensures m[5] == (b & 0x04 != 0)
    ensures m[6] == (b & 0x02 != 0)
    ensures m[7] == (b & 0x01 != 0)
  {
  }

  lemma BitByBit(a: byte, b: byte, x: bits, y: bits, z: bits)
    requires x == Bits(a) && y == Bits(b) && z == Bits(a ^ b)
    ensures z[0] == (x[0] != y[0])
    ensures z[1] == (x[1] != y[1])
    ensures z[2] == (x[2] != y[2])
    ensures z[3] == (x[3] != y[3])
    ensures z[4] == (x[4] != y[4])
    ensures z[5] == (x[5] != y[5])
    ensures z[6] == (x[6] != y[6])
    ensures z[7] == (x[7] != y[7])
  {
    hide Bits;
    BitsXor(a, b);
    BitsAt(a, x);
    BitsAt(b, y);
    BitsAt(a ^ b, z);
  }

  lemma EachBit(x: bits, y: bits, z: bits, k: nat)
    requires |x| == |y| == |z| == 8 && k < 8
    requires z[0] == (x[0] != y[0]) && z[1] == (x[1] != y[1]) && z[2] == (x[2] != y[2]) && z[3] == (x[3] != y[3])
    requires z[4] == (x[4] != y[4]) && z[5] == (x[5] != y[5]) && z[6] == (x[6] != y[6]) && z[7] == (x[7] != y[7])
    ensures z[k] == (x[k] != y[k])
  {
  }

  lemma BitsOfXor(a: byte, b: byte, k: nat)
    requires k < 8
    ensures Bits(a ^ b)[k] == (Bits(a)[k] != Bits(b)[k])
  {
    hide *;
    var x, y, z := Bits(a), Bits(b), Bits(a ^ b);
    BitByBit(a, b, x, y, z);
    EachBit(x, y, z, k);
  }

  lemma BitsOfXorBytes(p: seq<byte>, e: seq<byte>)
    requires |p| == |e|
    ensures forall i | 0 <= i < 8 * |p| :: BitsOf(XorBytes(p, e))[i] == (BitsOf(p)[i] != BitsOf(e)[i])
  {
    hide Bits;
    forall i | 0 <= i < 8 * |p| ensures BitsOf(XorBytes(p, e))[i] == (BitsOf(p)[i] != BitsOf(e)[i]) {
      BitsOfXor(p[i / 8], e[i / 8], i % 8);
    }
  }

  /** What flipping the bits of e does to the remainder. */
  function Syndrome(e: bits): word {
    ShiftTo(Zeros(16), e, |e|)
  }

  lemma ShiftFlipped(p: bits, e: bits, q: bits)
    requires |p| == |e| == |q| && forall i | 0 <= i < |p| :: q[i] == (p[i] != e[i])
    ensures ShiftTo(ONES, q, |q|) == Xor(ShiftTo(ONES, p, |p|), Syndrome(e))
  {
    hide ShiftTo;
    ShiftXor(ONES, Zeros(16), p, e, q, |p|);
    assert Xor(ONES, Zeros(16)) == ONES;
  }

  lemma XorZero(w: word, s: word)
    ensures Xor(w, s) == w <==> s == Zeros(16)
  {
    if Xor(w, s) == w {
      forall i | 0 <= i < 16 ensures !s[i] {
        assert Xor(w, s)[i] == w[i];
      }
    }
  }

  /** Flipped bits go unnoticed exactly when their own remainder is zero, whatever the message. */
  lemma CrcUnchangedIff(p: seq<byte>, e: seq<byte>)
    requires |p| == |e|
    ensures CrcOf(XorBytes(p, e)) == CrcOf(p) <==> Syndrome(BitsOf(e)) == Zeros(16)
  {
    hide Holds, ShiftTo, CrcTo, Bits, Syndrome;
    var q := XorBytes(p, e);
    var v, w, s := ShiftTo(ONES, BitsOf(p), 8 * |p|), ShiftTo(ONES, BitsOf(q), 8 * |q|), Syndrome(BitsOf(e));
    HoldsCrcTo(p, |p|);
    HoldsCrcTo(q, |q|);
    BitsOfXorBytes(p, e);
    ShiftFlipped(BitsOf(p), BitsOf(e), BitsOf(q));
    XorZero(v, s);
    if CrcOf(q) == CrcOf(p) {
      HoldsUnique(CrcOf(p), v, w);
    }
    if s == Zeros(16) {
      HoldsOne(CrcOf(p), CrcOf(q), v);
    }
  }

  // ---------------------------------------------------------------- bursts

  /** All flipped bits lie among the sixteen from position i on, and there is one. */
  ghost predicate Burst(e: bits, i: nat) {
    && (exists j | i <= j < |e| && j < i + 16 :: e[j])
    && (forall j | 0 <= j < |e| && !(i <= j < i + 16) :: !e[j])
  }

  lemma NonZeroStays(n: nat, w: word)
    requires w != Zeros(16)
    ensures TimesXn(n, w) != Zeros(16)
  {
    TimesXnZero(n);
    if TimesXn(n, w) == Zeros(16) {
      TimesXnInjective(n, w, Zeros(16));
    }
  }

  lemma BurstSyndrome(e: bits, i: nat)
    requires Burst(e, i)
    ensures Syndrome(e) != Zeros(16)
  {
    hide TimesXn, ShiftTo;
    var k := Min(16, |e| - i);
    var j :| i <= j < |e| && j < i + 16 && e[j];
    var before := ShiftTo(Zeros(16), e, i);
    ShiftZeros(Zeros(16), e, 0, i);
    ShiftNone(Zeros(16), e);
    TimesXnZero(i);
    ShiftSplit(Zeros(16), e, i, k);
    ShiftTop(before, e[i..], k);
    var t := Xor(Zeros(16), Top(e[i..], k));
    assert t[j - i];
    NonZeroStays(k, t);
    ShiftZeros(Zeros(16), e, i + k, |e|);
    NonZeroStays(|e| - i - k, TimesXn(k, t));
  }

  // ---------------------------------------------------------------- odd numbers of flips

  /** The parity of the first n bits. */
  function Odd(m: bits, n: nat): bool
    requires n <= |m|
  {
    n > 0 && (m[n - 1] != Odd(m, n - 1))
  }

  lemma {:induction false} OddFrom(a: bits, b: bits, n: nat)
    requires 0 < n <= |a| && n <= |b| && a[0] != b[0] && forall i | 0 < i < n :: a[i] == b[i]
    ensures Odd(a, n) != Odd(b, n)
  {
    if n > 1 {
      OddFrom(a, b, n - 1);
    }
  }

  /** How many of the first n feedback taps there are, modulo two. */
  predicate OddTaps(n: nat) {
    (n > 3) != ((n > 10) != (n > 15))
  }

  lemma {:induction false} OddTimesX(w: word, n: nat)
    requires n < 16
    ensures Odd(TimesX(w), n) == (Odd(w, n + 1) != (w[0] && !OddTaps(n)))
  {
    if n > 0 {
      OddTimesX(w, n - 1);
    }
  }

  /** The generator is divisible by x + 1, so the register keeps count of the parity. */
  lemma OddStep(w: word, b: bool)
    ensures Odd(BitStep(w, b), 16) == (Odd(w, 16) != b)
  {
    var v := w[0 := w[0] != b];
    OddTimesX(v, 15);
    if b {
      OddFrom(v, w, 16);
    } else {
      assert v == w;
    }
  }

  lemma {:induction false} OddShift(w: word, m: bits, n: nat)
    requires n <= |m|
    ensures Odd(ShiftTo(w, m, n), 16) == (Odd(w, 16) != Odd(m, n))
  {
    hide BitStep;
    if n > 0 {
      OddShift(w, m, n - 1);
      OddStep(ShiftTo(w, m, n - 1), m[n - 1]);
    }
  }

  lemma {:induction false} OddZeros(n: nat)
    requires n <= 16
    ensures !Odd(Zeros(16), n)
  {
    if n > 0 {
      OddZeros(n - 1);
    }
  }

  lemma OddSyndrome(e: bits)
    requires Odd(e, |e|)
    ensures Syndrome(e) != Zeros(16)
  {
    OddShift(Zeros(16), e, |e|);
    OddZeros(16);
  }

  // ---------------------------------------------------------------- two flipped bits

  /** Exactly the bits i and j are flipped. */
  ghost predicate Pair(e: bits, i: nat, j: nat) {
    i < j < |e| && forall k | 0 <= k < |e| :: e[k] <==> k == i || k == j
  }

  const ONE: word := Zeros(16)[15 := true]

  lemma OneHeld()
    ensures Holds(1, ONE)
  {
  }

  lemma PowersOfX(d: nat)
    ensures TimesXn(d, ONE) == ONE <==> d % 32767 == 0
  {
    hide Xs, Holds, TimesXn;
    OneHeld();
    HoldsXs(d, 1, ONE);
    OrderOfX(d);
    if Xs(d, 1) == 1 {
      HoldsUnique(1, ONE, TimesXn(d, ONE));
    }
    if TimesXn(d, ONE) == ONE {
      HoldsOne(1, Xs(d, 1), ONE);
    }
  }

  /** A single flipped bit is x^16. */
  lemma FlipIsPower(w: word)
    ensures BitStep(w, true) == Xor(TimesX(w), TimesXn(16, ONE))
  {
    UnitReachesTop(15, 15, true);
    assert Unit(15, true) == ONE;
    assert TimesXn(16, ONE) == TimesX(Unit(0, true));
    TimesXLinear(w, Unit(0, true));
    assert Xor(w, Unit(0, true)) == w[0 := w[0] != true];
  }

  lemma XorIsZero(v: word, w: word)
    ensures Xor(v, w) == Zeros(16) <==> v == w
  {
    if Xor(v, w) == Zeros(16) {
      forall i | 0 <= i < 16 ensures v[i] == w[i] {
        assert !Xor(v, w)[i];
      }
    }
  }

  /** Two flips d apart cancel exactly when 32767 divides d. */
  lemma FlipsCancel(d: nat, v: word)
    requires v == TimesXn(16, ONE)
    ensures Xor(TimesXn(d, v), v) == Zeros(16) <==> d % 32767 == 0
  {
    hide TimesXn;
    XorIsZero(TimesXn(d, v), v);
    PowersOfX(d);
    TimesXnAdds(d, 16, ONE);
    TimesXnAdds(16, d, ONE);
    if TimesXn(16, TimesXn(d, ONE)) == TimesXn(16, ONE) {
      TimesXnInjective(16, TimesXn(d, ONE), ONE);
    }
  }

  lemma ShiftNext(w: word, m: bits, n: nat)
    requires n < |m|
    ensures ShiftTo(w, m, n + 1) == BitStep(ShiftTo(w, m, n), m[n])
  {
  }

  lemma TimesXnNext(n: nat, w: word)
    ensures TimesX(TimesXn(n, w)) == TimesXn(n + 1, w)
  {
  }

  lemma FirstFlip(e: bits, i: nat, j: nat, v: word)
    requires Pair(e, i, j) && v == TimesXn(16, ONE)
    ensures ShiftTo(Zeros(16), e, i + 1) == v
  {
    hide TimesXn, BitStep, ShiftTo;
    var z := Zeros(16);
    ShiftZeros(z, e, 0, i);
    ShiftNone(z, e);
    TimesXnZero(i);
    ShiftNext(z, e, i);
    FlipIsPower(z);
    assert Xor(TimesX(z), v) == v;
  }

  lemma SecondFlip(e: bits, i: nat, j: nat, v: word)
    requires Pair(e, i, j) && v == TimesXn(16, ONE)
    ensures ShiftTo(Zeros(16), e, j + 1) == Xor(TimesXn(j - i, v), v)
  {
    hide *;
    var z := Zeros(16);
    assert i < j < |e| && e[j] && forall k | i < k < j :: !e[k] by { PairBits(e, i, j); }
    FirstFlip(e, i, j, v);
    ShiftZeros(z, e, i + 1, j);
    ShiftNext(z, e, j);
    FlipIsPower(ShiftTo(z, e, j));
    TimesXnNext(j - i - 1, v);
  }

  lemma PairBits(e: bits, i: nat, j: nat)
    requires Pair(e, i, j)
    ensures i < j < |e| && e[j]
    ensures forall k | i < k < j :: !e[k]
    ensures forall k | j < k < |e| :: !e[k]
  {
  }

  lemma PairSyndrome(e: bits, i: nat, j: nat)
    requires Pair(e, i, j)
    ensures Syndrome(e) == Zeros(16) <==> (j - i) % 32767 == 0
  {
    hide TimesXn, ShiftTo, Pair;
    var z, v := Zeros(16), TimesXn(16, ONE);
    PairBits(e, i, j);
    SecondFlip(e, i, j, v);
    FlipsCancel(j - i, v);
    var w := Xor(TimesXn(j - i, v), v);
    ShiftZeros(z, e, j + 1, |e|);
    TimesXnZero(|e| - j - 1);
    if w != z {
      NonZeroStays(|e| - j - 1, w);
    }
  }

  // ---------------------------------------------------------------- check bytes

  /** The remainder a packet that carries its check bytes leaves. */
  predicate Accepts(p: seq<byte>) {
    CrcOf(p) == 0x1d0f
  }

  function Sealed(body: seq<byte>): seq<byte> {
    body + CheckBytes(body)
  }

  lemma TwoBytes(x: bv16, y: bv16, u: bv16, z: bv16, v: bv16, w: bv16, n: nat)
    requires u == Xs(n, x) && z == Xs(n, y) && v == u ^ z && w == x ^ y
    ensures Xs(n, v) == Xs(n + n, w)
  {
    hide *;
    XsLinear(n, x, y);
    XsAdds(n, n, w);
  }

  lemma UpdateIs(r: bv16, b: byte, v: bv16, n: nat)
    requires v == r ^ ((b as bv16) << 8) && n == 8
    ensures Update(r, b) == Xs(n, v)
  {
    hide Xs;
  }

  lemma LowByteIsLow(b: byte)
    ensures (b as bv16) & 0xff00 == 0
  {
  }

  lemma LowByteShifted(b: byte, z: bv16, n: nat)
    requires z == (b as bv16) << 8 && n == 8
    ensures z == Xs(n, b as bv16)
  {
    LowByteIsLow(b);
    LowByteMovesUp(b as bv16, n);
  }

  lemma LastUpdate(u: bv16, lo: byte, z: bv16, v: bv16, n: nat)
    requires z == (lo as bv16) << 8 && v == u ^ z && n == 8
    ensures Update(u, lo) == Xs(n, v)
  {
    hide *;
    UpdateIs(u, lo, v, n);
  }

  lemma BothBytes(lo: byte, x: bv16, u: bv16, z: bv16, v: bv16, w: bv16, n: nat)
    requires n == 8 && w == x ^ (lo as bv16)
    requires u == Xs(n, x) && z == (lo as bv16) << 8 && v == u ^ z
    ensures Xs(n, v) == Xs(n + n, w)
  {
    hide *;
    LowByteShifted(lo, z, n);
    TwoBytes(x, lo as bv16, u, z, v, w, n);
  }

  /** Two bytes through crc_update, as one word. */
  lemma TwoUpdates(c: bv16, hi: byte, lo: byte, x: bv16, w: bv16, n: nat)
    requires n == 8 && x == c ^ ((hi as bv16) << 8) && w == x ^ (lo as bv16)
    ensures Update(Update(c, hi), lo) == Xs(n + n, w)
  {
    hide *;
    var u, z := Update(c, hi), (lo as bv16) << 8;
    UpdateIs(c, hi, x, n);
    LastUpdate(u, lo, z, u ^ z, n);
    BothBytes(lo, x, u, z, u ^ z, w, n);
  }

  lemma AllOnesResidue(n: nat)
    requires n == 8
    ensures Xs(n + n, 0xffff) == 0x1d0f
  {
    EightTimes(0xffff, n);
    EightTimes(X8(0xffff), n);
    XsAdds(n, n, 0xffff);
  }

  lemma ComplementFills(c: bv16, hi: byte, lo: byte)
    requires hi == (c >> 8) as byte ^ 0xff && lo == (c & 0xff) as byte ^ 0xff
    ensures (c ^ ((hi as bv16) << 8)) ^ (lo as bv16) == 0xffff
  {
  }

  lemma FillsHigh(c: bv16, hi: byte, lo: byte)
    requires (c ^ ((hi as bv16) << 8)) ^ (lo as bv16) == 0xffff
    ensures hi == (c >> 8) as byte ^ 0xff
  {
  }

  lemma FillsLow(c: bv16, hi: byte, lo: byte)
    requires (c ^ ((hi as bv16) << 8)) ^ (lo as bv16) == 0xffff
    ensures lo == (c & 0xff) as byte ^ 0xff
  {
  }

  lemma {:induction false} CrcPrefix(r: bv16, a: seq<byte>, b: seq<byte>, n: nat)
    requires n <= |a|
    ensures CrcTo(r, a + b, n) == CrcTo(r, a, n)
  {
    hide Update;
    if n > 0 {
      CrcPrefix(r, a, b, n - 1);
    }
  }

  lemma CrcOfTail(body: seq<byte>, hi: byte, lo: byte)
    ensures CrcOf(body + [hi, lo]) == Update(Update(CrcOf(body), hi), lo)
  {
    hide Update, CrcTo;
    var p, n := body + [hi, lo], |body|;
    CrcPrefix(0xffff, body, [hi, lo], n);
    CrcNext(0xffff, p, n);
    CrcNext(0xffff, p, n + 1);
  }

  lemma TailAccepted(c: bv16, hi: byte, lo: byte)
    ensures Update(Update(c, hi), lo) == 0x1d0f
      <==> hi == (c >> 8) as byte ^ 0xff && lo == (c & 0xff) as byte ^ 0xff
  {
    hide *;
    var n := |Bits(hi)|;
    var x := c ^ ((hi as bv16) << 8);
    var v := x ^ (lo as bv16);
    TwoUpdates(c, hi, lo, x, v, n);
    AllOnesResidue(n);
    if Xs(n + n, v) == 0x1d0f {
      XsInjective(n + n, v, 0xffff);
      FillsHigh(c, hi, lo);
      FillsLow(c, hi, lo);
    }
    if hi == (c >> 8) as byte ^ 0xff && lo == (c & 0xff) as byte ^ 0xff {
      ComplementFills(c, hi, lo);
    }
  }

  lemma SealedTail(body: seq<byte>, hi: byte, lo: byte)
    ensures body + [hi, lo] == Sealed(body) <==>
      hi == (CrcOf(body) >> 8) as byte ^ 0xff && lo == (CrcOf(body) & 0xff) as byte ^ 0xff
  {
    hide CrcOf;
    var p, s, n := body + [hi, lo], Sealed(body), |body|;
    assert p[n] == hi && p[n + 1] == lo && s[n] == CheckBytes(body)[0] && s[n + 1] == CheckBytes(body)[1];
  }

  /** A packet leaves the remainder 0x1d0f exactly when it ends in its own check bytes. */
  lemma AcceptsIffSealed(p: seq<byte>)
    requires |p| >= 2
    ensures Accepts(p) <==> p == Sealed(p[..|p| - 2])
  {
    hide CrcOf, Update, Sealed;
    var body, hi, lo := p[..|p| - 2], p[|p| - 2], p[|p| - 1];
    assert p == body + [hi, lo];
    CrcOfTail(body, hi, lo);
    TailAccepted(CrcOf(body), hi, lo);
    SealedTail(body, hi, lo);
  }

  lemma SealedAccepted(body: seq<byte>)
    ensures Accepts(Sealed(body))
  {
    hide Accepts;
    assert Sealed(body)[..|body|] == body;
    AcceptsIffSealed(Sealed(body));
  }

  // ---------------------------------------------------------------- what the check bytes detect

  /** Every burst of errors within sixteen consecutive bits is detected, wherever it falls. */
  lemma BurstDetected(p: seq<byte>, e: seq<byte>, i: nat)
    requires |p| == |e| && Accepts(p) && Burst(BitsOf(e), i)
    ensures !Accepts(XorBytes(p, e))
  {
    hide CrcOf, Syndrome, Burst;
    CrcUnchangedIff(p, e);
    BurstSyndrome(BitsOf(e), i);
  }

  /** Every odd number of flipped bits is detected. */
  lemma OddDetected(p: seq<byte>, e: seq<byte>)
    requires |p| == |e| && Accepts(p) && Odd(BitsOf(e), 8 * |e|)
    ensures !Accepts(XorBytes(p, e))
  {
    hide CrcOf, Syndrome, Odd;
    CrcUnchangedIff(p, e);
    OddSyndrome(BitsOf(e));
  }

  /** Two flipped bits go unnoticed exactly when their distance is a multiple of 32767. */
  lemma PairUndetectedIff(p: seq<byte>, e: seq<byte>, i: nat, j: nat)
    requires |p| == |e| && Accepts(p) && Pair(BitsOf(e), i, j)
    ensures Accepts(XorBytes(p, e)) <==> (j - i) % 32767 == 0
  {
    hide CrcOf, Syndrome, Pair;
    CrcUnchangedIff(p, e);
    PairSyndrome(BitsOf(e), i, j);
  }

  /** In a packet no longer than the gateway sends, any two flipped bits are detected. */
  lemma PairDetected(p: seq<byte>, e: seq<byte>, i: nat, j: nat)
    requires |p| == |e| <= 1009 && Accepts(p) && Pair(BitsOf(e), i, j)
    ensures !Accepts(XorBytes(p, e))
  {
    PairUndetectedIff(p, e, i, j);
  }
}
