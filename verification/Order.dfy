/** The multiplicative order of x modulo the CRC generator: 32767 = 7 * 31 * 151. */
module Order {
  import opened Register

  // ---------------------------------------------------------------- powers by squaring

  /** The square of a polynomial: over GF(2) the terms are squared one by one. */
  function Square(r: bv16): bv16 {
    ((r & 0x4000) >> 14) ^ ((r & 0xc000) >> 13) ^ ((r & 0x9000) >> 12) ^ ((r & 0x2000) >> 11) ^
    ((r & 0x4400) >> 10) ^ ((r & 0xc800) >> 9) ^ ((r & 0xd100) >> 8) ^ ((r & 0xb200) >> 7) ^
    ((r & 0x6400) >> 6) ^ ((r & 0xcc00) >> 5) ^ ((r & 0x9800) >> 4) ^ ((r & 0x3100) >> 3) ^
    ((r & 0x2200) >> 2) ^ ((r & 0x0400) >> 1) ^ (r & 0x1801) ^ ((r & 0x3002) << 1) ^
    ((r & 0x2404) << 2) ^ ((r & 0x0808) << 3) ^ ((r & 0x0110) << 4) ^ ((r & 0x0220) << 5) ^
    ((r & 0x0040) << 6) ^ ((r & 0x0080) << 7)
  }

  lemma SquareTimesX1(r: bv16)
    ensures Square(X(r)) & 0xf000 == X(X(Square(r))) & 0xf000
  {
  }

  lemma SquareTimesX2(r: bv16)
    ensures Square(X(r)) & 0x0f00 == X(X(Square(r))) & 0x0f00
  {
  }

  lemma SquareTimesX3(r: bv16)
    ensures Square(X(r)) & 0x00f0 == X(X(Square(r))) & 0x00f0
  {
  }

  lemma SquareTimesX4(r: bv16)
    ensures Square(X(r)) & 0x000f == X(X(Square(r))) & 0x000f
  {
  }

  lemma Same4(a: bv16, b: bv16)
    requires a & 0xf000 == b & 0xf000 && a & 0x0f00 == b & 0x0f00
    requires a & 0x00f0 == b & 0x00f0 && a & 0x000f == b & 0x000f
    ensures a == b
  {
  }

  lemma SquareTimesX(r: bv16)
    ensures Square(X(r)) == X(X(Square(r)))
  {
    hide X, Square;
    SquareTimesX1(r);
    SquareTimesX2(r);
    SquareTimesX3(r);
    SquareTimesX4(r);
    Same4(Square(X(r)), X(X(Square(r))));
  }

  lemma SquareOfOne()
    ensures Square(1) == 1
  {
  }

  lemma {:induction false} EvenPower(n: nat)
    ensures Xs(2 * n, 1) == Square(Xs(n, 1))
  {
    hide X, Square;
    if n > 0 {
      EvenPower(n - 1);
      SquareTimesX(Xs(n - 1, 1));
      assert Xs(2 * n, 1) == X(Xs(2 * n - 1, 1));
    } else {
      SquareOfOne();
    }
  }

  function Power(n: nat): bv16 {
    if n == 0 then 1
    else if n % 2 == 0 then Square(Power(n / 2))
    else X(Square(Power(n / 2)))
  }

  lemma {:induction false} PowerIsXs(n: nat)
    ensures Power(n) == Xs(n, 1)
  {
    hide X, Square;
    if n > 0 {
      PowerIsXs(n / 2);
      EvenPower(n / 2);
      assert n % 2 == 0 ==> n == 2 * (n / 2);
      assert n % 2 == 1 ==> n == 2 * (n / 2) + 1;
    }
  }

  /** Below x^16 there is nothing to reduce. */
  lemma LowPower(n: nat)
    ensures n == 8 ==> Power(n) == 0x0100
    ensures n == 9 ==> Power(n) == 0x0200
    ensures n == 13 ==> Power(n) == 0x2000
    ensures n == 15 ==> Power(n) == 0x8000
  {
    if n == 8 || n == 9 {
      assert Power(1) == 2;
      assert Power(2) == 4;
      assert Power(4) == 16;
    } else if n == 13 {
      assert Power(3) == 8;
      assert Power(6) == 64;
    } else if n == 15 {
      assert Power(3) == 8;
      assert Power(7) == 128;
    }
  }

  lemma PowerTwice(n: nat)
    requires n > 0
    ensures Power(2 * n) == Square(Power(n))
    ensures Power(2 * n + 1) == X(Square(Power(n)))
  {
    hide X, Square;
    assert 2 * n % 2 == 0 && 2 * n / 2 == n;
    assert (2 * n + 1) % 2 == 1 && (2 * n + 1) / 2 == n;
  }

  lemma DoublePower(n: nat, r: bv16)
    requires n > 0 && Power(n) == r
    ensures Power(2 * n) == Square(r)
  {
    hide *;
    PowerTwice(n);
  }

  lemma Power4681()
    ensures Power(4681) != 1
  {
    hide Power;
    LowPower(9);
    DoublePower(9, 0x0200);
    DoublePower(18, 0x4084);
    NextPower(36, 0x4363);
    DoublePower(73, 0x8fa6);
    DoublePower(146, 0x4388);
    NextPower(292, 0x1396);
    DoublePower(585, 0x4500);
    DoublePower(1170, 0x0163);
    NextPower(2340, 0x0424);
  }

  lemma Power1057()
    ensures Power(1057) != 1
  {
    hide Power;
    LowPower(8);
    DoublePower(8, 0x0100);
    NextPower(16, 0x1021);
    DoublePower(33, 0x6e60);
    DoublePower(66, 0xc1c6);
    DoublePower(132, 0x4e8a);
    DoublePower(264, 0x5946);
    NextPower(528, 0x78b3);
  }

  lemma Power217()
    ensures Power(217) != 1
  {
    hide Power;
    LowPower(13);
    NextPower(13, 0x2000);
    DoublePower(27, 0x89a9);
    DoublePower(54, 0x1168);
    NextPower(108, 0x3750);
  }

  lemma NextPower(n: nat, r: bv16)
    requires n > 0 && Power(n) == r
    ensures Power(2 * n + 1) == X(Square(r))
  {
    hide *;
    PowerTwice(n);
  }

  lemma Power32767()
    ensures Power(32767) == 1
  {
    hide Power;
    LowPower(15);
    NextPower(15, 0x8000);
    NextPower(31, 0x1b98);
    NextPower(63, 0xd420);
    NextPower(127, 0x577e);
    NextPower(255, 0xcf04);
    NextPower(511, 0x09fe);
    NextPower(1023, 0x1b62);
    NextPower(2047, 0x7ea8);
    NextPower(4095, 0x554f);
    NextPower(8191, 0x440e);
    NextPower(16383, 0x222c);
  }

  // ---------------------------------------------------------------- the order of x

  /** x^d is 1. */
  ghost predicate Period(d: nat) {
    Xs(d, 1) == 1
  }

  lemma XInjective(a: bv16, b: bv16)
    requires X(a) == X(b)
    ensures a == b
  {
  }

  lemma {:induction false} XsInjective(n: nat, a: bv16, b: bv16)
    requires Xs(n, a) == Xs(n, b)
    ensures a == b
  {
    hide X;
    if n > 0 {
      XInjective(Xs(n - 1, a), Xs(n - 1, b));
      XsInjective(n - 1, a, b);
    }
  }

  lemma {:induction false} XsAdds(m: nat, n: nat, r: bv16)
    ensures Xs(m, Xs(n, r)) == Xs(m + n, r)
  {
    hide X;
    if m > 0 {
      XsAdds(m - 1, n, r);
    }
  }

  lemma PeriodDifference(a: nat, b: nat)
    requires Period(a) && Period(a + b)
    ensures Period(b)
  {
    hide X;
    XsAdds(a, b, 1);
    XsInjective(a, Xs(b, 1), 1);
  }

  lemma PeriodSum(a: nat, b: nat)
    requires Period(a) && Period(b)
    ensures Period(a + b)
  {
    hide X;
    XsAdds(a, b, 1);
  }

  lemma {:induction false} PeriodMultiple(a: nat, k: nat)
    requires Period(a)
    ensures Period(k * a)
  {
    hide X;
    if k > 0 {
      PeriodMultiple(a, k - 1);
      PeriodSum(a, (k - 1) * a);
      assert a + (k - 1) * a == k * a;
    } else {
      assert Xs(0, 1) == 1;
    }
  }

  ghost predicate Prime(p: nat) {
    p > 1 && forall a | 1 < a < p :: p % a != 0
  }

  /** Periods q * p and q * a with a not a multiple of the prime p leave q itself a period. */
  lemma {:induction false} Descend(q: nat, p: nat, a: nat)
    requires Prime(p) && 0 < a < p
    requires Period(p * q) && Period(a * q)
    ensures Period(q)
    decreases a
  {
    if a > 1 {
      var k, b := p / a, p % a;
      PeriodMultiple(a * q, k);
      assert k * (a * q) + b * q == p * q;
      PeriodDifference(k * (a * q), b * q);
      Descend(q, p, b);
    } else {
      assert a * q == q;
    }
  }

  /** A period is a multiple of every prime p whose cofactor q is no period. */
  lemma PrimeDivides(p: nat, q: nat, d: nat)
    requires Prime(p) && Period(p * q) && Period(d) && !Period(q)
    ensures d % p == 0
  {
    if d % p != 0 {
      var k, a := d / p, d % p;
      PeriodMultiple(d, q);
      PeriodMultiple(p * q, k);
      assert k * (p * q) + a * q == q * d by { assert d == k * p + a; }
      PeriodDifference(k * (p * q), a * q);
      Descend(q, p, a);
    }
  }

  lemma Primes()
    ensures Prime(7) && Prime(31) && Prime(151)
  {
  }

  lemma Periods()
    ensures Period(7 * 4681) && Period(31 * 1057) && Period(151 * 217)
    ensures !Period(4681) && !Period(1057) && !Period(217)
  {
    hide Power, Xs;
    Power32767();
    PowerIsXs(32767);
    Power4681();
    PowerIsXs(4681);
    Power1057();
    PowerIsXs(1057);
    Power217();
    PowerIsXs(217);
  }

  lemma CommonMultiple(d: nat)
    requires d % 7 == 0 && d % 31 == 0 && d % 151 == 0
    ensures d % 32767 == 0
  {
    var i, j, k := d / 7, d / 31, d / 151;
    assert i == 31 * (9 * j - 2 * i);
    var l := 9 * j - 2 * i;
    assert d == 217 * l == 151 * k;
    assert l == 151 * (23 * l - 16 * k);
  }

  /** x^d is 1 exactly when 32767 divides d. */
  lemma OrderOfX(d: nat)
    ensures Period(d) <==> d % 32767 == 0
  {
    hide Period;
    Primes();
    Periods();
    if Period(d) {
      PrimeDivides(7, 4681, d);
      PrimeDivides(31, 1057, d);
      PrimeDivides(151, 217, d);
      CommonMultiple(d);
    }
    if d % 32767 == 0 {
      PeriodMultiple(7 * 4681, d / 32767);
    }
  }
}
