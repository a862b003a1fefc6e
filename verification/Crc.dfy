/** crctab.h and crc_update: the table-driven form of the division in Gf2. */
module Crc {
  import opened Bytes
  import opened Gf2
  import opened Register

  // The 256 entries of crc_table in their order, as eight runs of 32.

  const TABLE_0: seq<bv16> := [
    0x0000, 0x1021, 0x2042, 0x3063, 0x4084, 0x50a5, 0x60c6, 0x70e7, 0x8108, 0x9129, 0xa14a, 0xb16b,
    0xc18c, 0xd1ad, 0xe1ce, 0xf1ef, 0x1231, 0x0210, 0x3273, 0x2252, 0x52b5, 0x4294, 0x72f7, 0x62d6,
    0x9339, 0x8318, 0xb37b, 0xa35a, 0xd3bd, 0xc39c, 0xf3ff, 0xe3de
  ]

  const TABLE_1: seq<bv16> := [
    0x2462, 0x3443, 0x0420, 0x1401, 0x64e6, 0x74c7, 0x44a4, 0x5485, 0xa56a, 0xb54b, 0x8528, 0x9509,
    0xe5ee, 0xf5cf, 0xc5ac, 0xd58d, 0x3653, 0x2672, 0x1611, 0x0630, 0x76d7, 0x66f6, 0x5695, 0x46b4,
    0xb75b, 0xa77a, 0x9719, 0x8738, 0xf7df, 0xe7fe, 0xd79d, 0xc7bc
  ]

  const TABLE_2: seq<bv16> := [
    0x48c4, 0x58e5, 0x6886, 0x78a7, 0x0840, 0x1861, 0x2802, 0x3823, 0xc9cc, 0xd9ed, 0xe98e, 0xf9af,
    0x8948, 0x9969, 0xa90a, 0xb92b, 0x5af5, 0x4ad4, 0x7ab7, 0x6a96, 0x1a71, 0x0a50, 0x3a33, 0x2a12,
    0xdbfd, 0xcbdc, 0xfbbf, 0xeb9e, 0x9b79, 0x8b58, 0xbb3b, 0xab1a
  ]

  const TABLE_3: seq<bv16> := [
    0x6ca6, 0x7c87, 0x4ce4, 0x5cc5, 0x2c22, 0x3c03, 0x0c60, 0x1c41, 0xedae, 0xfd8f, 0xcdec, 0xddcd,
    0xad2a, 0xbd0b, 0x8d68, 0x9d49, 0x7e97, 0x6eb6, 0x5ed5, 0x4ef4, 0x3e13, 0x2e32, 0x1e51, 0x0e70,
    0xff9f, 0xefbe, 0xdfdd, 0xcffc, 0xbf1b, 0xaf3a, 0x9f59, 0x8f78
  ]

  const TABLE_4: seq<bv16> := [
    0x9188, 0x81a9, 0xb1ca, 0xa1eb, 0xd10c, 0xc12d, 0xf14e, 0xe16f, 0x1080, 0x00a1, 0x30c2, 0x20e3,
    0x5004, 0x4025, 0x7046, 0x6067, 0x83b9, 0x9398, 0xa3fb, 0xb3da, 0xc33d, 0xd31c, 0xe37f, 0xf35e,
    0x02b1, 0x1290, 0x22f3, 0x32d2, 0x4235, 0x5214, 0x6277, 0x7256
  ]

  const TABLE_5: seq<bv16> := [
    0xb5ea, 0xa5cb, 0x95a8, 0x8589, 0xf56e, 0xe54f, 0xd52c, 0xc50d, 0x34e2, 0x24c3, 0x14a0, 0x0481,
    0x7466, 0x6447, 0x5424, 0x4405, 0xa7db, 0xb7fa, 0x8799, 0x97b8, 0xe75f, 0xf77e, 0xc71d, 0xd73c,
    0x26d3, 0x36f2, 0x0691, 0x16b0, 0x6657, 0x7676, 0x4615, 0x5634
  ]

  const TABLE_6: seq<bv16> := [
    0xd94c, 0xc96d, 0xf90e, 0xe92f, 0x99c8, 0x89e9, 0xb98a, 0xa9ab, 0x5844, 0x4865, 0x7806, 0x6827,
    0x18c0, 0x08e1, 0x3882, 0x28a3, 0xcb7d, 0xdb5c, 0xeb3f, 0xfb1e, 0x8bf9, 0x9bd8, 0xabbb, 0xbb9a,
    0x4a75, 0x5a54, 0x6a37, 0x7a16, 0x0af1, 0x1ad0, 0x2ab3, 0x3a92
  ]

  const TABLE_7: seq<bv16> := [
    0xfd2e, 0xed0f, 0xdd6c, 0xcd4d, 0xbdaa, 0xad8b, 0x9de8, 0x8dc9, 0x7c26, 0x6c07, 0x5c64, 0x4c45,
    0x3ca2, 0x2c83, 0x1ce0, 0x0cc1, 0xef1f, 0xff3e, 0xcf5d, 0xdf7c, 0xaf9b, 0xbfba, 0x8fd9, 0x9ff8,
    0x6e17, 0x7e36, 0x4e55, 0x5e74, 0x2e93, 0x3eb2, 0x0ed1, 0x1ef0
  ]

  /** crc_table[i] */
  function CrcTable(i: byte): bv16 {
    var run :=
      if i >> 5 == 0 then TABLE_0 else if i >> 5 == 1 then TABLE_1
      else if i >> 5 == 2 then TABLE_2 else if i >> 5 == 3 then TABLE_3
      else if i >> 5 == 4 then TABLE_4 else if i >> 5 == 5 then TABLE_5
      else if i >> 5 == 6 then TABLE_6 else TABLE_7;
    run[(i & 31) as int]
  }

  // ---------------------------------------------------------------- what one table step computes

  function X8(r: bv16): bv16 {
    X(X(X(X(X(X(X(X(r))))))))
  }

  lemma EightTimes(r: bv16, n: nat)
    requires n == 8
    ensures X8(r) == Xs(n, r)
  {
    var r1 := X(r);
    var r2 := X(r1);
    var r3 := X(r2);
    var r4 := X(r3);
    var r5 := X(r4);
    var r6 := X(r5);
    assert Xs(0, r) == r;
    assert Xs(1, r) == r1;
    assert Xs(2, r) == r2;
    assert Xs(3, r) == r3;
    assert Xs(4, r) == r4;
    assert Xs(5, r) == r5;
    assert Xs(6, r) == r6;
    assert Xs(7, r) == X(r6);
  }

  /** A run of 32 table entries, those whose index starts with the bits of part. */
  ghost predicate Generated(entries: seq<bv16>, part: byte) {
    |entries| == 32 &&
    forall b: byte {:trigger b & 31} | b >> 5 == part :: entries[(b & 31) as int] == X8((b as bv16) << 8)
  }

  lemma Table0Generated()
    ensures Generated(TABLE_0, 0)
  {
  }

  lemma Table1Generated()
    ensures Generated(TABLE_1, 1)
  {
  }

  lemma Table2Generated()
    ensures Generated(TABLE_2, 2)
  {
  }

  lemma Table3Generated()
    ensures Generated(TABLE_3, 3)
  {
  }

  lemma Table4Generated()
    ensures Generated(TABLE_4, 4)
  {
  }

  lemma Table5Generated()
    ensures Generated(TABLE_5, 5)
  {
  }

  lemma Table6Generated()
    ensures Generated(TABLE_6, 6)
  {
  }

  lemma Table7Generated()
    ensures Generated(TABLE_7, 7)
  {
  }


  /** Every entry is what eight zero bits leave of its index in the high byte. */
  lemma TableIsGenerated(i: byte)
    ensures CrcTable(i) == X8((i as bv16) << 8)
  {
    if i >> 5 == 0 { Table0Generated(); }
    else if i >> 5 == 1 { Table1Generated(); }
    else if i >> 5 == 2 { Table2Generated(); }
    else if i >> 5 == 3 { Table3Generated(); }
    else if i >> 5 == 4 { Table4Generated(); }
    else if i >> 5 == 5 { Table5Generated(); }
    else if i >> 5 == 6 { Table6Generated(); }
    else { Table7Generated(); }
  }

  lemma LowByteMovesUp(lo: bv16, n: nat)
    requires lo & 0xff00 == 0 && n == 8
    ensures Xs(n, lo) == lo << 8
  {
    EightTimes(lo, n);
  }

  lemma SplitRegister(r: bv16, b: byte, hi: bv16, lo: bv16)
    requires hi == (((r >> 8) as byte ^ b) as bv16) << 8 && lo == r & 0xff
    ensures r ^ ((b as bv16) << 8) == lo ^ hi && r << 8 == lo << 8 && lo & 0xff00 == 0
  {
  }

  lemma HalvesTogether(lo: bv16, hi: bv16, n: nat)
    requires lo & 0xff00 == 0 && n == 8
    ensures (lo << 8) ^ Xs(n, hi) == Xs(n, lo ^ hi)
  {
    LowByteMovesUp(lo, n);
    XsLinear(n, lo, hi);
  }

  /** The register after the eight bits of b, by division. */
  function Update(r: bv16, b: byte): bv16 {
    Xs(|Bits(b)|, r ^ ((b as bv16) << 8))
  }

  lemma TableStep(r: bv16, b: byte, entry: bv16)
    requires entry == X8((((r >> 8) as byte ^ b) as bv16) << 8)
    ensures (r << 8) ^ entry == Update(r, b)
  {
    hide Xs, X8;
    var hi, lo := (((r >> 8) as byte ^ b) as bv16) << 8, r & 0xff;
    SplitRegister(r, b, hi, lo);
    EightTimes(hi, |Bits(b)|);
    HalvesTogether(lo, hi, |Bits(b)|);
  }

  /** crc_update: one table step is eight division steps. */
  method CrcUpdate(de: bv16, a: byte) returns (r: bv16)
    ensures r == Update(de, a)
  {
    hide *;
    var bc := (de >> 8) as byte ^ a;
    r := de << 8;
    r := r ^ CrcTable(bc);
    TableIsGenerated(bc);
    TableStep(de, a, CrcTable(bc));
  }

  /** The register after the first n bytes of data. */
  function CrcTo(r: bv16, data: seq<byte>, n: nat): bv16
    requires n <= |data|
  {
    if n == 0 then r else Update(CrcTo(r, data, n - 1), data[n - 1])
  }

  function CrcOf(data: seq<byte>): bv16 {
    CrcTo(0xffff, data, |data|)
  }

  /** The complemented register, high byte first. */
  function CheckBytes(data: seq<byte>): (c: seq<byte>)
    ensures |c| == 2
  {
    [(CrcOf(data) >> 8) as byte ^ 0xff, (CrcOf(data) & 0xff) as byte ^ 0xff]
  }
}
