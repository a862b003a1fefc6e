/** Bit strings as polynomials over GF(2), and their remainders modulo the CRC generator
    x^16 + x^12 + x^5 + 1. */
module Gf2 {
  import opened Bytes

  type bits = seq<bool>

  /** A remainder: sixteen coefficients, that of x^15 first. */
  type word = w: bits | |w| == 16 witness seq(16, _ => false)

  // ---------------------------------------------------------------- bit strings

  function Zeros(n: nat): (z: bits)
    ensures |z| == n && forall i | 0 <= i < n :: !z[i]
  {
    seq(n, _ => false)
  }

  function Xor(a: bits, b: bits): (c: bits)
    requires |a| == |b|
    ensures |c| == |a| && forall i | 0 <= i < |a| :: c[i] == (a[i] != b[i])
  {
    seq(|a|, i requires 0 <= i < |a| => a[i] != b[i])
  }

  /** The bits of a byte, most significant first. */
  function Bits(b: byte): (m: bits)
    ensures |m| == 8
  {
    [b & 0x80 != 0, b & 0x40 != 0, b & 0x20 != 0, b & 0x10 != 0,
     b & 0x08 != 0, b & 0x04 != 0, b & 0x02 != 0, b & 0x01 != 0]
  }

  /** The bits of a byte string. */
  function BitsOf(data: seq<byte>): (m: bits)
    ensures |m| == 8 * |data|
    ensures forall i | 0 <= i < |m| :: m[i] == Bits(data[i / 8])[i % 8]
  {
    seq(8 * |data|, i requires 0 <= i < 8 * |data| => Bits(data[i / 8])[i % 8])
  }

  // ---------------------------------------------------------------- the shift register

  /** The generator has terms at x^12, x^5 and 1 below its leading term. */
  predicate Tap(i: nat) {
    i == 3 || i == 10 || i == 15
  }

  /** Multiplication by x modulo the generator. */
  function TimesX(w: word): (r: word)
    ensures forall i | 0 <= i < 15 :: r[i] == (w[i + 1] != (w[0] && Tap(i)))
    ensures r[15] == w[0]
  {
    seq(16, i requires 0 <= i < 16 => (i < 15 && w[i + 1]) != (w[0] && Tap(i)))
  }

  /** Multiplication by x^n modulo the generator. */
  function TimesXn(n: nat, w: word): word {
    if n == 0 then w else TimesX(TimesXn(n - 1, w))
  }

  /** One message bit through the register. */
  function BitStep(w: word, b: bool): word {
    TimesX(w[0 := w[0] != b])
  }

  /** The register after the first n bits of m. */
  function ShiftTo(w: word, m: bits, n: nat): word
    requires n <= |m|
  {
    if n == 0 then w else BitStep(ShiftTo(w, m, n - 1), m[n - 1])
  }

  // ---------------------------------------------------------------- algebra of the register

  lemma TimesXLinear(a: word, b: word)
    ensures TimesX(Xor(a, b)) == Xor(TimesX(a), TimesX(b))
  {
  }

  lemma {:induction false} TimesXnLinear(n: nat, a: word, b: word)
    ensures TimesXn(n, Xor(a, b)) == Xor(TimesXn(n, a), TimesXn(n, b))
  {
    if n > 0 {
      TimesXnLinear(n - 1, a, b);
      TimesXLinear(TimesXn(n - 1, a), TimesXn(n - 1, b));
    }
  }

  lemma {:induction false} TimesXnAdds(m: nat, n: nat, w: word)
    ensures TimesXn(m, TimesXn(n, w)) == TimesXn(m + n, w)
  {
    if m > 0 {
      TimesXnAdds(m - 1, n, w);
    }
  }

  /** Multiplication by x loses nothing: the constant term of the generator is 1. */
  lemma TimesXInjective(a: word, b: word)
    requires TimesX(a) == TimesX(b)
    ensures a == b
  {
    assert a[0] == TimesX(a)[15] == b[0];
    forall j | 0 < j < 16 ensures a[j] == b[j] {
      assert TimesX(a)[j - 1] == TimesX(b)[j - 1];
    }
  }

  lemma {:induction false} TimesXnInjective(n: nat, a: word, b: word)
    requires TimesXn(n, a) == TimesXn(n, b)
    ensures a == b
  {
    if n > 0 {
      TimesXInjective(TimesXn(n - 1, a), TimesXn(n - 1, b));
      TimesXnInjective(n - 1, a, b);
    }
  }

  lemma {:induction false} TimesXnZero(n: nat)
    ensures TimesXn(n, Zeros(16)) == Zeros(16)
  {
    if n > 0 {
      TimesXnZero(n - 1);
      assert TimesX(Zeros(16)) == Zeros(16);
    }
  }

  lemma StepXor(r: word, s: word, a: bool, b: bool)
    ensures BitStep(Xor(r, s), a != b) == Xor(BitStep(r, a), BitStep(s, b))
  {
  }

  /** Shifting is linear: flipped message bits change the register by the shift of the flips alone. */
  lemma {:induction false} ShiftXor(r: word, s: word, a: bits, b: bits, c: bits, n: nat)
    requires n <= |a| == |b| == |c| && forall i | 0 <= i < n :: c[i] == (a[i] != b[i])
    ensures ShiftTo(Xor(r, s), c, n) == Xor(ShiftTo(r, a, n), ShiftTo(s, b, n))
  {
    if n > 0 {
      ShiftXor(r, s, a, b, c, n - 1);
      StepXor(ShiftTo(r, a, n - 1), ShiftTo(s, b, n - 1), a[n - 1], b[n - 1]);
    }
  }

  lemma {:induction false} ShiftSplit(w: word, m: bits, i: nat, k: nat)
    requires i + k <= |m|
    ensures ShiftTo(w, m, i + k) == ShiftTo(ShiftTo(w, m, i), m[i..], k)
  {
    if k > 0 {
      ShiftSplit(w, m, i, k - 1);
    }
  }

  /** Zero bits only multiply by powers of x. */
  lemma {:induction false} ShiftZeros(w: word, m: bits, i: nat, j: nat)
    requires i <= j <= |m| && forall k | i <= k < j :: !m[k]
    ensures ShiftTo(w, m, j) == TimesXn(j - i, ShiftTo(w, m, i))
  {
    if i < j {
      ShiftZeros(w, m, i, j - 1);
      var before := ShiftTo(w, m, j - 1);
      assert before[0 := before[0] != false] == before;
    }
  }

  // ---------------------------------------------------------------- the first sixteen bits

  /** The word whose only possible term is i places below the top. */
  function Unit(i: nat, b: bool): word
    requires i < 16
  {
    Zeros(16)[i := b]
  }

  lemma {:induction false} UnitReachesTop(i: nat, k: nat, b: bool)
    requires k <= i < 16
    ensures TimesXn(k, Unit(i, b)) == Unit(i - k, b)
  {
    if k > 0 {
      UnitReachesTop(i, k - 1, b);
      assert TimesX(Unit(i - k + 1, b)) == Unit(i - k, b);
    }
  }

  /** The first n bits of m at the top of a word. */
  function Top(m: bits, n: nat): (t: word)
    requires n <= 16 && n <= |m|
    ensures forall i | 0 <= i < 16 :: t[i] == (i < n && m[i])
  {
    seq(16, i requires 0 <= i < 16 => i < n && m[i])
  }

  lemma TopSplit(w: word, m: bits, n: nat)
    requires 0 < n <= 16 && n <= |m|
    ensures Xor(w, Top(m, n)) == Xor(Xor(w, Top(m, n - 1)), Unit(n - 1, m[n - 1]))
  {
  }

  lemma FlipFirst(w: word, b: bool)
    ensures Xor(w, Unit(0, b)) == w[0 := w[0] != b]
  {
  }

  /** Up to sixteen message bits act as if they had been in the register from the start. */
  lemma {:induction false} ShiftTop(w: word, m: bits, n: nat)
    requires n <= 16 && n <= |m|
    ensures ShiftTo(w, m, n) == TimesXn(n, Xor(w, Top(m, n)))
  {
    hide TimesX;
    if n == 0 {
      assert Xor(w, Top(m, n)) == w;
    } else {
      hide Xor, Top, Unit;
      ShiftTop(w, m, n - 1);
      var before, u := Xor(w, Top(m, n - 1)), Unit(n - 1, m[n - 1]);
      TopSplit(w, m, n);
      TimesXnLinear(n - 1, before, u);
      UnitReachesTop(n - 1, n - 1, m[n - 1]);
      FlipFirst(TimesXn(n - 1, before), m[n - 1]);
    }
  }
}
