/** The tables of duart_tx.pio and duart_rx.pio: bytes as pairs of opposite levels on the two wires
    of the line. A pair is a number below four, the positive wire in its low bit. */
module LineCode {
  import opened Bytes

  type Pair = p: nat | p < 4

  const HIGH: Pair := 1
  const LOW: Pair := 2

  const NO_CODE: u16 := 0xEFEF

  function Symbol(one: bool): Pair {
    if one then HIGH else LOW
  }

  /** The number that has these pairs as its digits, least significant first. */
  function Value(s: seq<Pair>): nat {
    if s == [] then 0 else s[0] + 4 * Value(s[1..])
  }

  /** The low n bits of i, least significant first. */
  function Symbols(i: nat, n: nat): (s: seq<Pair>)
    ensures |s| == n
  {
    if n == 0 then [] else [Symbol(i % 2 == 1)] + Symbols(i / 2, n - 1)
  }

  /** The sixteen pairs of an entry of txtab: start, eight data bits, and the rest high. */
  function Pairs(b: nat): (s: seq<Pair>)
    ensures |s| == 16
  {
    [LOW] + Symbols(b, 8) + [HIGH, HIGH, HIGH, HIGH, HIGH, HIGH, HIGH]
  }

  function Word(b: nat): nat {
    Value(Pairs(b))
  }

  /** The index of byte b in rxmap. */
  function Code(b: nat): nat {
    Value(Symbols(b, 8))
  }

  function Pow4(n: nat): (p: nat)
    ensures p > 0
  {
    if n == 0 then 1 else 4 * Pow4(n - 1)
  }

  // ---------------------------------------------------------------- digits

  lemma {:induction false} ValueBound(s: seq<Pair>)
    ensures Value(s) < Pow4(|s|)
  {
    if s != [] {
      ValueBound(s[1..]);
    }
  }

  lemma {:induction false} ValueConcat(a: seq<Pair>, b: seq<Pair>)
    ensures Value(a + b) == Value(a) + Pow4(|a|) * Value(b)
  {
    if a == [] {
      assert a + b == b;
    } else {
      ValueConcat(a[1..], b);
      assert (a + b)[1..] == a[1..] + b;
      FourTimes(Pow4(|a| - 1), Value(b));
    }
  }

  lemma FourTimes(p: nat, v: nat)
    ensures 4 * (p * v) == 4 * p * v
  {
  }

  lemma {:induction false} ValueInjective(a: seq<Pair>, b: seq<Pair>)
    requires |a| == |b| && Value(a) == Value(b)
    ensures a == b
  {
    if a != [] {
      ValueInjective(a[1..], b[1..]);
      assert a == [a[0]] + a[1..] && b == [b[0]] + b[1..];
    }
  }

  function Pow2(n: nat): nat {
    if n == 0 then 1 else 2 * Pow2(n - 1)
  }

  lemma {:induction false} SymbolsInjective(i: nat, j: nat, n: nat)
    requires i < Pow2(n) && j < Pow2(n) && Symbols(i, n) == Symbols(j, n)
    ensures i == j
  {
    if n > 0 {
      assert Symbols(i, n)[0] == Symbols(j, n)[0];
      assert Symbols(i, n)[1..] == Symbols(i / 2, n - 1) && Symbols(j, n)[1..] == Symbols(j / 2, n - 1);
      SymbolsInjective(i / 2, j / 2, n - 1);
    }
  }

  /** Different bytes have different codes, and a code fits in sixteen bits. */
  lemma CodeInjective(i: nat, j: nat)
    requires i < 0x100 && j < 0x100
    ensures Code(i) < 0x1_0000
    ensures Code(i) == Code(j) ==> i == j
  {
    ValueBound(Symbols(i, 8));
    assert Pow4(8) == 0x1_0000 && Pow2(8) == 0x100;
    if Code(i) == Code(j) {
      ValueInjective(Symbols(i, 8), Symbols(j, 8));
      SymbolsInjective(i, j, 8);
    }
  }

  // ---------------------------------------------------------------- the loops that fill the tables

  /** One branch of the table expression: bit k of i selects 0b01 or 0b10. */
  function Select(i: nat, bit: nat): nat
    requires bit > 0
  {
    if i / bit % 2 == 1 then 1 else 2
  }

  /** The eight selected pairs, as the source writes them out: the fields do not overlap. */
  function Spelled(i: nat): nat {
    Select(i, 1) + 0x4 * Select(i, 2) + 0x10 * Select(i, 4) + 0x40 * Select(i, 8)
      + 0x100 * Select(i, 16) + 0x400 * Select(i, 32) + 0x1000 * Select(i, 64) + 0x4000 * Select(i, 128)
  }

  lemma SymbolsStep(m: nat, n: nat)
    requires n > 0
    ensures Value(Symbols(m, n)) == Select(m, 1) + 4 * Value(Symbols(m / 2, n - 1))
  {
    assert Symbols(m, n)[1..] == Symbols(m / 2, n - 1);
  }

  lemma FourSymbols(m: nat, n: nat)
    requires n >= 4
    ensures Value(Symbols(m, n))
         == Select(m, 1) + 0x4 * Select(m, 2) + 0x10 * Select(m, 4) + 0x40 * Select(m, 8) + 0x100 * Value(Symbols(m / 16, n - 4))
  {
    hide Symbols, Value;
    SymbolsStep(m, n);
    SymbolsStep(m / 2, n - 1);
    SymbolsStep(m / 4, n - 2);
    SymbolsStep(m / 8, n - 3);
    assert m / 2 / 2 == m / 4 && m / 4 / 2 == m / 8 && m / 8 / 2 == m / 16;
  }

  lemma SpelledIsCode(i: nat)
    ensures Spelled(i) == Code(i)
  {
    hide Symbols, Value;
    FourSymbols(i, 8);
    FourSymbols(i / 16, 4);
    NoSymbols(i / 256);
    assert i / 16 / 2 == i / 32 && i / 16 / 4 == i / 64 && i / 16 / 8 == i / 128 && i / 16 / 16 == i / 256;
  }

  lemma NoSymbols(m: nat)
    ensures Value(Symbols(m, 0)) == 0
  {
  }

  lemma SevenHighs()
    ensures Value([HIGH, HIGH, HIGH, HIGH, HIGH, HIGH, HIGH]) == 0x1555
  {
    ValueConcat([HIGH, HIGH, HIGH, HIGH], [HIGH, HIGH, HIGH]);
    assert [HIGH, HIGH, HIGH, HIGH] + [HIGH, HIGH, HIGH] == [HIGH, HIGH, HIGH, HIGH, HIGH, HIGH, HIGH];
    assert [HIGH, HIGH, HIGH, HIGH][1..] == [HIGH, HIGH, HIGH];
    assert [HIGH, HIGH, HIGH][1..] == [HIGH, HIGH];
    assert [HIGH, HIGH][1..] == [HIGH];
    assert [HIGH][1..] == [];
    assert Value([HIGH]) == 1;
    assert Pow4(4) == 0x100;
  }

  lemma WordIsCode(i: nat)
    ensures Word(i) == 0x5554_0002 + 4 * Code(i)
  {
    var highs: seq<Pair> := [HIGH, HIGH, HIGH, HIGH, HIGH, HIGH, HIGH];
    ValueConcat([LOW] + Symbols(i, 8), highs);
    assert ([LOW] + Symbols(i, 8))[1..] == Symbols(i, 8);
    SevenHighs();
    assert Pow4(9) == 0x4_0000;
  }

  method FillTransmitTable(txtab: array<nat>)
    requires txtab.Length == 0x100
    modifies txtab
    ensures forall i | 0 <= i < 0x100 :: txtab[i] == Word(i)
  {
    hide Spelled, Word, Code;
    for i := 0 to 0x100
      invariant forall k | 0 <= k < i :: txtab[k] == Word(k)
    {
      txtab[i] := 0x5554_0002 + 4 * Spelled(i);
      SpelledIsCode(i);
      WordIsCode(i);
    }
  }

  /** The first n bytes are in the map, and nothing else is. */
  ghost predicate Maps(m: seq<u16>, n: nat) {
    && |m| == 0x1_0000
    && (forall b | 0 <= b < n :: Code(b) < |m| && m[Code(b)] == b)
    && (forall a | 0 <= a < |m| && m[a] != NO_CODE :: m[a] < n && Code(m[a]) == a)
  }

  lemma MapsOneMore(m: seq<u16>, n: nat)
    requires Maps(m, n) && n < 0x100
    ensures Code(n) < |m| && Maps(m[Code(n) := n], n + 1)
  {
    hide Code;
    forall b | 0 <= b <= n ensures Code(b) < 0x1_0000 && (Code(b) == Code(n) ==> b == n) {
      CodeInjective(b, n);
    }
  }

  method FillReceiveTable(rxmap: array<u16>)
    requires rxmap.Length == 0x1_0000
    modifies rxmap
    ensures Maps(rxmap[..], 0x100)
  {
    hide Code;
    for i := 0 to 0x1_0000
      invariant forall k | 0 <= k < i :: rxmap[k] == NO_CODE
    {
      rxmap[i] := NO_CODE;
    }
    for i := 0 to 0x100
      invariant Maps(rxmap[..], i)
    {
      SpelledIsCode(i);
      MapsOneMore(rxmap[..], i);
      ghost var before := rxmap[..];
      var a := Spelled(i);
      rxmap[a] := i;
      assert rxmap[..] == before[Code(i) := i];
    }
  }

  /** The receive table takes back what the transmit table coded, and knows every other sixteen bits
      for an error. */
  lemma TableInverts(m: seq<u16>, a: nat)
    requires Maps(m, 0x100) && a < 0x1_0000
    ensures m[a] == 0xEFEF <==> forall b | 0 <= b < 0x100 :: Code(b) != a
    ensures forall b | 0 <= b < 0x100 :: Code(b) == a <==> m[a] == b
  {
    hide Code;
  }

  // ---------------------------------------------------------------- the levels by their values

  /** Bit k of i. */
  predicate Bit(i: nat, k: nat) {
    if k == 0 then i % 2 == 1 else Bit(i / 2, k - 1)
  }

  lemma {:induction false} SymbolAt(i: nat, n: nat, k: nat)
    requires k < n
    ensures Symbols(i, n)[k] == if Bit(i, k) then 1 else 2
    decreases k
  {
    if k > 0 {
      SymbolAt(i / 2, n - 1, k - 1);
    }
  }

  /** On the wires: a start bit with the positive wire low, the bits of the byte from the lowest up,
      each 1 with the positive wire high, and then the positive wire high. */
  lemma PairsAre(b: nat)
    ensures Pairs(b)[0] == 2 && forall k | 9 <= k < 16 :: Pairs(b)[k] == 1
    ensures forall k | 0 <= k < 8 :: Pairs(b)[k + 1] == if Bit(b, k) then 1 else 2
  {
    hide Symbols, Bit;
    forall k | 0 <= k < 8 ensures Pairs(b)[k + 1] == if Bit(b, k) then 1 else 2 {
      SymbolAt(b, 8, k);
    }
  }
}
