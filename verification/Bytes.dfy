/** Fixed-width integers and byte strings shared by every part of the gateway model. */
module Bytes {
  type byte = bv8
  type u16 = n: int | 0 <= n < 0x1_0000
  type u32 = n: int | 0 <= n < 0x1_0000_0000

  datatype Option<+T> = None | Some(value: T)

  /** The low byte of n, as the C casts to uint8_t keep it. */
  function Lo(n: nat): byte {
    (n % 256) as byte
  }

  lemma {:induction false} ByteOfNat(n: nat) returns (b: byte)
    requires n < 256
    ensures b as int == n && n as byte == b
  {
    if n == 0 {
      b := 0;
    } else {
      var c := ByteOfNat(n - 1);
      b := c + 1;
    }
  }

  /** Lo keeps exactly the residue modulo 256. */
  lemma LoKeepsResidue(m: nat, n: nat)
    ensures Lo(m) as int == m % 256
    ensures Lo(m) == Lo(n) <==> m % 256 == n % 256
  {
    var b := ByteOfNat(m % 256);
    var c := ByteOfNat(n % 256);
  }

  function Val(b: byte): (v: nat)
    ensures v < 0x100
  {
    b as int
  }

  /** The number in two bytes at an offset, the more significant byte first. */
  function Network(p: seq<byte>, at: nat): (n: u16)
    requires at + 2 <= |p|
  {
    Val(p[at]) * 0x100 + Val(p[at + 1])
  }

  lemma ValLo(n: nat)
    ensures Val(Lo(n)) == n % 0x100
  {
    LoKeepsResidue(n, 0);
  }

  lemma ValZero()
    ensures Val(0) == 0
  {
  }

  lemma NetworkOfBytes(n: nat)
    ensures Val(Lo(n / 0x100)) * 0x100 + Val(Lo(n)) == n % 0x1_0000
  {
    hide *;
    ValLo(n / 0x100);
    ValLo(n);
    TwoDigits(n);
  }

  lemma TwoDigits(n: nat)
    ensures n / 0x100 % 0x100 * 0x100 + n % 0x100 == n % 0x1_0000
  {
    var h, q := n / 0x100, n / 0x1_0000;
    assert n == h * 0x100 + n % 0x100;
    assert h / 0x100 == q;
    assert h == q * 0x100 + h % 0x100;
  }

  function Min(a: nat, b: nat): (m: nat)
    ensures m <= a && m <= b && (m == a || m == b)
  {
    if a < b then a else b
  }

  /** The bytes of a buffer chain, link after link. */
  function Flatten(chain: seq<seq<byte>>): seq<byte> {
    if chain == [] then [] else chain[0] + Flatten(chain[1..])
  }

  lemma FlattenFirst(first: seq<byte>, chain: seq<seq<byte>>)
    ensures Flatten([first] + chain) == first + Flatten(chain)
  {
    assert ([first] + chain)[1..] == chain;
  }

  lemma Associative<T>(a: seq<T>, b: seq<T>, c: seq<T>)
    ensures a + b + c == a + (b + c)
  {
  }

  lemma FlattenStep(first: seq<byte>, rest: seq<seq<byte>>, more: seq<seq<byte>>)
    requires Flatten(rest + more) == Flatten(rest) + Flatten(more)
    ensures Flatten([first] + rest + more) == Flatten([first] + rest) + Flatten(more)
  {
    hide Flatten;
    Associative([first], rest, more);
    FlattenFirst(first, rest + more);
    FlattenFirst(first, rest);
    Associative(first, Flatten(rest), Flatten(more));
  }

  lemma {:induction false} FlattenConcat(a: seq<seq<byte>>, b: seq<seq<byte>>)
    ensures Flatten(a + b) == Flatten(a) + Flatten(b)
    decreases |a|
  {
    if a == [] {
      assert a + b == b;
    } else {
      hide Flatten;
      var rest := a[1..];
      assert [a[0]] + rest == a;
      FlattenConcat(rest, b);
      FlattenStep(a[0], rest, b);
    }
  }

  lemma FlattenLast(chain: seq<seq<byte>>, last: seq<byte>)
    ensures Flatten(chain + [last]) == Flatten(chain) + last
  {
    FlattenConcat(chain, [last]);
    FlattenFirst(last, []);
    assert [last] + [] == [last];
  }
}
