/** The register of Gf2 as the 16-bit machine word that crc_update computes with. */
module Register {
  import opened Gf2

  /** The bits of r are the coefficients of w. */
  ghost predicate Holds(r: bv16, w: word) {
    && w[0] == (r & 0x8000 != 0) && w[1] == (r & 0x4000 != 0)
    && w[2] == (r & 0x2000 != 0) && w[3] == (r & 0x1000 != 0)
    && w[4] == (r & 0x0800 != 0) && w[5] == (r & 0x0400 != 0)
    && w[6] == (r & 0x0200 != 0) && w[7] == (r & 0x0100 != 0)
    && w[8] == (r & 0x0080 != 0) && w[9] == (r & 0x0040 != 0)
    && w[10] == (r & 0x0020 != 0) && w[11] == (r & 0x0010 != 0)
    && w[12] == (r & 0x0008 != 0) && w[13] == (r & 0x0004 != 0)
    && w[14] == (r & 0x0002 != 0) && w[15] == (r & 0x0001 != 0)
  }

  /** TimesX on machine words: the feedback enters at bits 12, 5 and 0. */
  function X(r: bv16): bv16 {
    (r << 1) ^ (r >> 15) ^ ((r >> 15) << 5) ^ ((r >> 15) << 12)
  }

  lemma XBits(r: bv16)
    ensures (X(r) & 0x8000 != 0) == (r & 0x4000 != 0)
    ensures (X(r) & 0x4000 != 0) == (r & 0x2000 != 0)
    ensures (X(r) & 0x2000 != 0) == (r & 0x1000 != 0)
    ensures (X(r) & 0x1000 != 0) == ((r & 0x0800 != 0) != (r & 0x8000 != 0))
    ensures (X(r) & 0x0800 != 0) == (r & 0x0400 != 0)
    ensures (X(r) & 0x0400 != 0) == (r & 0x0200 != 0)
    ensures (X(r) & 0x0200 != 0) == (r & 0x0100 != 0)
    ensures (X(r) & 0x0100 != 0) == (r & 0x0080 != 0)
    ensures (X(r) & 0x0080 != 0) == (r & 0x0040 != 0)
    ensures (X(r) & 0x0040 != 0) == (r & 0x0020 != 0)
    ensures (X(r) & 0x0020 != 0) == ((r & 0x0010 != 0) != (r & 0x8000 != 0))
    ensures (X(r) & 0x0010 != 0) == (r & 0x0008 != 0)
    ensures (X(r) & 0x0008 != 0) == (r & 0x0004 != 0)
    ensures (X(r) & 0x0004 != 0) == (r & 0x0002 != 0)
    ensures (X(r) & 0x0002 != 0) == (r & 0x0001 != 0)
    ensures (X(r) & 0x0001 != 0) == (r & 0x8000 != 0)
  {
  }

  lemma TimesXBits(w: word, v: word)
    requires v == TimesX(w)
    ensures v[0] == w[1]
    ensures v[1] == w[2]
    ensures v[2] == w[3]
    ensures v[3] == (w[4] != w[0])
    ensures v[4] == w[5]
    ensures v[5] == w[6]
    ensures v[6] == w[7]
    ensures v[7] == w[8]
    ensures v[8] == w[9]
    ensures v[9] == w[10]
    ensures v[10] == (w[11] != w[0])
    ensures v[11] == w[12]
    ensures v[12] == w[13]
    ensures v[13] == w[14]
    ensures v[14] == w[15]
    ensures v[15] == w[0]
  {
  }

  lemma HoldsTimesX(r: bv16, w: word)
    requires Holds(r, w)
    ensures Holds(X(r), TimesX(w))
  {
    hide X, Tap;
    XBits(r);
    TimesXBits(w, TimesX(w));
  }

  lemma BitsXor(a: bv16, b: bv16)
    ensures ((a ^ b) & 0x8000 != 0) == ((a & 0x8000 != 0) != (b & 0x8000 != 0))
    ensures ((a ^ b) & 0x4000 != 0) == ((a & 0x4000 != 0) != (b & 0x4000 != 0))
    ensures ((a ^ b) & 0x2000 != 0) == ((a & 0x2000 != 0) != (b & 0x2000 != 0))
    ensures ((a ^ b) & 0x1000 != 0) == ((a & 0x1000 != 0) != (b & 0x1000 != 0))
    ensures ((a ^ b) & 0x0800 != 0) == ((a & 0x0800 != 0) != (b & 0x0800 != 0))
    ensures ((a ^ b) & 0x0400 != 0) == ((a & 0x0400 != 0) != (b & 0x0400 != 0))
    ensures ((a ^ b) & 0x0200 != 0) == ((a & 0x0200 != 0) != (b & 0x0200 != 0))
    ensures ((a ^ b) & 0x0100 != 0) == ((a & 0x0100 != 0) != (b & 0x0100 != 0))
    ensures ((a ^ b) & 0x0080 != 0) == ((a & 0x0080 != 0) != (b & 0x0080 != 0))
    ensures ((a ^ b) & 0x0040 != 0) == ((a & 0x0040 != 0) != (b & 0x0040 != 0))
    ensures ((a ^ b) & 0x0020 != 0) == ((a & 0x0020 != 0) != (b & 0x0020 != 0))
    ensures ((a ^ b) & 0x0010 != 0) == ((a & 0x0010 != 0) != (b & 0x0010 != 0))
    ensures ((a ^ b) & 0x0008 != 0) == ((a & 0x0008 != 0) != (b & 0x0008 != 0))
    ensures ((a ^ b) & 0x0004 != 0) == ((a & 0x0004 != 0) != (b & 0x0004 != 0))
    ensures ((a ^ b) & 0x0002 != 0) == ((a & 0x0002 != 0) != (b & 0x0002 != 0))
    ensures ((a ^ b) & 0x0001 != 0) == ((a & 0x0001 != 0) != (b & 0x0001 != 0))
  {
  }

  lemma XorBits(v: word, w: word, x: word)
    requires x == Xor(v, w)
    ensures x[0] == (v[0] != w[0])
    ensures x[1] == (v[1] != w[1])
    ensures x[2] == (v[2] != w[2])
    ensures x[3] == (v[3] != w[3])
    ensures x[4] == (v[4] != w[4])
    ensures x[5] == (v[5] != w[5])
    ensures x[6] == (v[6] != w[6])
    ensures x[7] == (v[7] != w[7])
    ensures x[8] == (v[8] != w[8])
    ensures x[9] == (v[9] != w[9])
    ensures x[10] == (v[10] != w[10])
    ensures x[11] == (v[11] != w[11])
    ensures x[12] == (v[12] != w[12])
    ensures x[13] == (v[13] != w[13])
    ensures x[14] == (v[14] != w[14])
    ensures x[15] == (v[15] != w[15])
  {
  }

  lemma HoldsXorOf(a: bv16, b: bv16, c: bv16, v: word, w: word)
    requires Holds(a, v) && Holds(b, w)
    requires (c & 0x8000 != 0) == ((a & 0x8000 != 0) != (b & 0x8000 != 0))
    requires (c & 0x4000 != 0) == ((a & 0x4000 != 0) != (b & 0x4000 != 0))
    requires (c & 0x2000 != 0) == ((a & 0x2000 != 0) != (b & 0x2000 != 0))
    requires (c & 0x1000 != 0) == ((a & 0x1000 != 0) != (b & 0x1000 != 0))
    requires (c & 0x0800 != 0) == ((a & 0x0800 != 0) != (b & 0x0800 != 0))
    requires (c & 0x0400 != 0) == ((a & 0x0400 != 0) != (b & 0x0400 != 0))
    requires (c & 0x0200 != 0) == ((a & 0x0200 != 0) != (b & 0x0200 != 0))
    requires (c & 0x0100 != 0) == ((a & 0x0100 != 0) != (b & 0x0100 != 0))
    requires (c & 0x0080 != 0) == ((a & 0x0080 != 0) != (b & 0x0080 != 0))
    requires (c & 0x0040 != 0) == ((a & 0x0040 != 0) != (b & 0x0040 != 0))
    requires (c & 0x0020 != 0) == ((a & 0x0020 != 0) != (b & 0x0020 != 0))
    requires (c & 0x0010 != 0) == ((a & 0x0010 != 0) != (b & 0x0010 != 0))
    requires (c & 0x0008 != 0) == ((a & 0x0008 != 0) != (b & 0x0008 != 0))
    requires (c & 0x0004 != 0) == ((a & 0x0004 != 0) != (b & 0x0004 != 0))
    requires (c & 0x0002 != 0) == ((a & 0x0002 != 0) != (b & 0x0002 != 0))
    requires (c & 0x0001 != 0) == ((a & 0x0001 != 0) != (b & 0x0001 != 0))
    ensures Holds(c, Xor(v, w))
  {
    hide Xor;
    XorBits(v, w, Xor(v, w));
  }

  lemma HoldsXor(a: bv16, b: bv16, v: word, w: word)
    requires Holds(a, v) && Holds(b, w)
    ensures Holds(a ^ b, Xor(v, w))
  {
    hide *;
    BitsXor(a, b);
    HoldsXorOf(a, b, a ^ b, v, w);
  }

  lemma SameBits(a: bv16, b: bv16)
    requires (a & 0x8000 != 0) == (b & 0x8000 != 0) && (a & 0x4000 != 0) == (b & 0x4000 != 0)
    requires (a & 0x2000 != 0) == (b & 0x2000 != 0) && (a & 0x1000 != 0) == (b & 0x1000 != 0)
    requires (a & 0x0800 != 0) == (b & 0x0800 != 0) && (a & 0x0400 != 0) == (b & 0x0400 != 0)
    requires (a & 0x0200 != 0) == (b & 0x0200 != 0) && (a & 0x0100 != 0) == (b & 0x0100 != 0)
    requires (a & 0x0080 != 0) == (b & 0x0080 != 0) && (a & 0x0040 != 0) == (b & 0x0040 != 0)
    requires (a & 0x0020 != 0) == (b & 0x0020 != 0) && (a & 0x0010 != 0) == (b & 0x0010 != 0)
    requires (a & 0x0008 != 0) == (b & 0x0008 != 0) && (a & 0x0004 != 0) == (b & 0x0004 != 0)
    requires (a & 0x0002 != 0) == (b & 0x0002 != 0) && (a & 0x0001 != 0) == (b & 0x0001 != 0)
    ensures a == b
  {
  }

  lemma HoldsOne(a: bv16, b: bv16, w: word)
    requires Holds(a, w) && Holds(b, w)
    ensures a == b
  {
    SameBits(a, b);
  }

  lemma HoldsUnique(a: bv16, v: word, w: word)
    requires Holds(a, v) && Holds(a, w)
    ensures v == w
  {
  }

  // ---------------------------------------------------------------- n zero bits at once

  function Xs(n: nat, r: bv16): bv16 {
    if n == 0 then r else X(Xs(n - 1, r))
  }

  lemma {:induction false} HoldsXs(n: nat, r: bv16, w: word)
    requires Holds(r, w)
    ensures Holds(Xs(n, r), TimesXn(n, w))
  {
    hide Holds, X, TimesX;
    if n > 0 {
      HoldsXs(n - 1, r, w);
      HoldsTimesX(Xs(n - 1, r), TimesXn(n - 1, w));
    }
  }

  lemma XLinear(a: bv16, b: bv16)
    ensures X(a ^ b) == X(a) ^ X(b)
  {
  }

  lemma {:induction false} XsLinear(n: nat, a: bv16, b: bv16)
    ensures Xs(n, a ^ b) == Xs(n, a) ^ Xs(n, b)
  {
    if n > 0 {
      XsLinear(n - 1, a, b);
      XLinear(Xs(n - 1, a), Xs(n - 1, b));
    }
  }
}
