/** File names: the gateway's "%06x" and "%08x" against the packetizer's "%06x%02x". */
module Names {
  import opened Bytes

  const DIGITS: string := "0123456789abcdef"

  function Power16(k: nat): nat {
    if k == 0 then 1 else 16 * Power16(k - 1)
  }

  /** The hexadecimal digits of n without leading zeros. */
  function Digits(n: nat): (s: string)
    ensures |s| > 0
  {
    if n < 16 then [DIGITS[n]] else Digits(n / 16) + [DIGITS[n % 16]]
  }

  function Padding(k: int): string {
    if k <= 0 then [] else "0" + Padding(k - 1)
  }

  /** printf's "%0<width>x". */
  function Hex(width: nat, n: nat): string {
    Padding(width - |Digits(n)|) + Digits(n)
  }

  /** Exactly width digits. */
  function Fixed(width: nat, n: nat): (s: string)
    ensures |s| == width
  {
    if width == 0 then [] else Fixed(width - 1, n / 16) + [DIGITS[n % 16]]
  }

  lemma {:induction false} FixedZero(width: nat)
    ensures Fixed(width, 0) == Padding(width)
  {
    if width > 0 {
      FixedZero(width - 1);
      PaddingEnd(width);
    }
  }

  lemma {:induction false} PaddingEnd(k: nat)
    requires k > 0
    ensures Padding(k) == Padding(k - 1) + "0"
  {
    if k > 1 {
      PaddingEnd(k - 1);
    }
  }

  lemma HexStep(width: nat, n: nat)
    requires 0 < width && 16 <= n
    ensures Hex(width, n) == Hex(width - 1, n / 16) + [DIGITS[n % 16]]
  {
    var before, last := Digits(n / 16), [DIGITS[n % 16]];
    assert Digits(n) == before + last;
    hide Digits, Padding;
    Associative(Padding(width - |before| - 1), before, last);
  }

  /** A number that fits is printed with exactly width digits. */
  lemma {:induction false} HexIsFixed(width: nat, n: nat)
    requires 0 < width && n < Power16(width)
    ensures Hex(width, n) == Fixed(width, n)
  {
    if n < 16 {
      FixedZero(width - 1);
    } else {
      HexIsFixed(width - 1, n / 16);
      HexStep(width, n);
    }
  }

  /** A number below 256 fills the last two places. */
  lemma LastTwoDigits(width: nat, m: nat, n: nat)
    requires n < 0x100
    ensures Fixed(width + 2, m * 0x100 + n) == Fixed(width, m) + Fixed(2, n)
  {
    var k := m * 0x100 + n;
    assert k / 16 == m * 16 + n / 16 && k % 16 == n % 16 && k / 16 / 16 == m && k / 16 % 16 == n / 16;
    assert Fixed(width + 2, k) == Fixed(width, m) + [DIGITS[n / 16]] + [DIGITS[n % 16]];
    assert Fixed(2, n) == Fixed(1, n / 16) + [DIGITS[n % 16]];
    assert Fixed(1, n / 16) == Fixed(0, n / 16 / 16) + [DIGITS[n / 16]];
  }

  lemma {:induction false} FixedInjective(width: nat, m: nat, n: nat)
    requires m < Power16(width) && n < Power16(width) && Fixed(width, m) == Fixed(width, n)
    ensures m == n
  {
    if width > 0 {
      var s, t := Fixed(width, m), Fixed(width, n);
      assert s[..width - 1] == Fixed(width - 1, m / 16) && t[..width - 1] == Fixed(width - 1, n / 16);
      FixedInjective(width - 1, m / 16, n / 16);
      assert s[width - 1] == t[width - 1];
      assert m % 16 == n % 16 by { DigitsDiffer(m % 16, n % 16); }
    }
  }

  lemma DigitsDiffer(i: nat, j: nat)
    requires i < 16 && j < 16
    ensures DIGITS[i] == DIGITS[j] <==> i == j
  {
  }

  // ---------------------------------------------------------------- the names themselves

  /** The file that holds a whole segment. */
  function SegmentName(segment: nat): string {
    "/nabu/" + Hex(6, segment) + ".nabu"
  }

  /** The file the gateway asks for when it wants one packet. */
  function PacketName(request: nat): string {
    "/nabu/" + Hex(8, request) + ".pak"
  }

  /** The file the packetizer writes for one packet. */
  function ToolName(segment: nat, packet: nat): string {
    Hex(6, segment) + Hex(2, packet) + ".pak"
  }

  /** The gateway asks for a packet under the name the packetizer gave it. */
  lemma NamesAgree(segment: nat, packet: nat)
    requires segment < 0x100_0000 && packet < 0x100
    ensures PacketName(segment * 0x100 + packet) == "/nabu/" + ToolName(segment, packet)
  {
    assert Power16(2) == 0x100 && Power16(6) == 0x100_0000 && Power16(8) == 0x1_0000_0000;
    HexIsFixed(6, segment);
    HexIsFixed(2, packet);
    HexIsFixed(8, segment * 0x100 + packet);
    LastTwoDigits(6, segment, packet);
    assert PacketName(segment * 0x100 + packet) == "/nabu/" + ((Fixed(6, segment) + Fixed(2, packet)) + ".pak");
  }

  /** Distinct requests ask for distinct files, distinct segments likewise. */
  lemma NamesDistinct(m: nat, n: nat)
    ensures m < 0x1_0000_0000 && n < 0x1_0000_0000 && PacketName(m) == PacketName(n) ==> m == n
    ensures m < 0x100_0000 && n < 0x100_0000 && SegmentName(m) == SegmentName(n) ==> m == n
  {
    assert Power16(6) == 0x100_0000 && Power16(8) == 0x1_0000_0000;
    if m < 0x1_0000_0000 && n < 0x1_0000_0000 && PacketName(m) == PacketName(n) {
      HexIsFixed(8, m);
      HexIsFixed(8, n);
      assert PacketName(m)[6..14] == Fixed(8, m) && PacketName(n)[6..14] == Fixed(8, n);
      FixedInjective(8, m, n);
    }
    if m < 0x100_0000 && n < 0x100_0000 && SegmentName(m) == SegmentName(n) {
      HexIsFixed(6, m);
      HexIsFixed(6, n);
      assert SegmentName(m)[6..12] == Fixed(6, m) && SegmentName(n)[6..12] == Fixed(6, n);
      FixedInjective(6, m, n);
    }
  }

  // ---------------------------------------------------------------- names in a request

  /** The characters of a name as they go into a request. */
  function NameBytes(name: string): (b: seq<byte>)
    ensures |b| == |name|
  {
    seq(|name|, i requires 0 <= i < |name| => Lo(name[i] as int))
  }

  predicate Plain(s: string) {
    forall c <- s :: 0 < c as int < 0x100
  }

  lemma PlainBytes(s: string)
    requires Plain(s)
    ensures 0 !in NameBytes(s)
  {
    forall i | 0 <= i < |s| ensures NameBytes(s)[i] != 0 {
      assert s[i] in s;
      LoKeepsResidue(s[i] as int, 0);
    }
  }

  lemma DigitIsPlain(i: nat)
    requires i < 16
    ensures Plain([DIGITS[i]])
  {
  }

  lemma {:induction false} FixedIsPlain(width: nat, n: nat)
    ensures Plain(Fixed(width, n))
  {
    if width > 0 {
      FixedIsPlain(width - 1, n / 16);
      DigitIsPlain(n % 16);
    }
  }

  /** A segment's name can be sent in a request: it is short, and none of its characters ends it. */
  lemma SegmentNameFits(segment: nat)
    requires segment < 0x100_0000
    ensures |SegmentName(segment)| == 17 && 0 !in NameBytes(SegmentName(segment))
  {
    assert Power16(6) == 0x100_0000;
    HexIsFixed(6, segment);
    FixedIsPlain(6, segment);
    assert Plain("/nabu/") && Plain(".nabu");
    hide Hex, Fixed, NameBytes;
    PlainBytes(SegmentName(segment));
  }

  // ---------------------------------------------------------------- reading a name back

  /** The value of a hexadecimal digit. */
  function DigitValue(c: char): nat {
    if '0' <= c <= '9' then c as int - '0' as int
    else if 'a' <= c <= 'f' then c as int - 'a' as int + 10
    else 16
  }

  function HexValue(s: string): nat {
    if s == [] then 0 else 16 * HexValue(s[..|s| - 1]) + DigitValue(s[|s| - 1])
  }

  lemma DigitReads(i: nat)
    requires i < 16
    ensures DigitValue(DIGITS[i]) == i
  {
  }

  lemma {:induction false} FixedReads(width: nat, n: nat)
    requires n < Power16(width)
    ensures HexValue(Fixed(width, n)) == n
  {
    if width > 0 {
      FixedReads(width - 1, n / 16);
      DigitReads(n % 16);
      assert Fixed(width, n)[..width - 1] == Fixed(width - 1, n / 16);
    }
  }

  /** The names of both kinds of files, read back: six digits of the segment between /nabu/ and
      .nabu, and eight digits of the request between /nabu/ and .pak. */
  lemma NamesRead(segment: nat, request: nat)
    requires segment < 0x100_0000 && request < 0x1_0000_0000
    ensures var s := SegmentName(segment);
      |s| == 17 && s[..6] == "/nabu/" && HexValue(s[6..12]) == segment && s[12..] == ".nabu"
    ensures var p := PacketName(request);
      |p| == 18 && p[..6] == "/nabu/" && HexValue(p[6..14]) == request && p[14..] == ".pak"
  {
    assert Power16(6) == 0x100_0000 && Power16(8) == 0x1_0000_0000;
    HexIsFixed(6, segment);
    HexIsFixed(8, request);
    FixedReads(6, segment);
    FixedReads(8, request);
    hide Hex, Fixed, HexValue;
    assert SegmentName(segment)[6..12] == Fixed(6, segment);
    assert PacketName(request)[6..14] == Fixed(8, request);
  }
}
