/** Packets of a segment: header, payload, check bytes, and how a segment is cut into them. */
module Packet {
  import opened Bytes
  import opened Crc
  import opened CrcTheory

  const MAX_SEGMENT: nat := 65536
  const MAX_PACKET: nat := 1024
  const MAX_PAYLOAD: nat := 991

  /** PacketNumber * MAXPAYLOAD, stored in sixteen bits. */
  function Offset(n: u16): u16 {
    (n * MAX_PAYLOAD) % 0x1_0000
  }

  function TypeByte(n: u16, last: bool): byte {
    (if last then 0x10 else 0x00) | (if n == 0 then 0xa1 else 0x20)
  }

  function Header(segment: u32, n: u16, last: bool): (h: seq<byte>)
    ensures |h| == 16
  {
    [Lo(segment / 0x1_0000), Lo(segment / 0x100), Lo(segment), Lo(n),
     0x01, 0x7f, 0xff, 0xff, 0xff, 0x7f, 0x80, TypeByte(n, last),
     Lo(n), Lo(n / 0x100), Lo(Offset(n) / 0x100), Lo(Offset(n))]
  }

  // ---------------------------------------------------------------- the packets of a segment

  function Count(size: nat): nat {
    (size + MAX_PAYLOAD - 1) / MAX_PAYLOAD
  }

  function Payload(data: seq<byte>, n: nat): seq<byte> {
    data[Min(n * MAX_PAYLOAD, |data|)..Min((n + 1) * MAX_PAYLOAD, |data|)]
  }

  predicate IsLast(size: nat, n: nat) {
    size <= (n + 1) * MAX_PAYLOAD
  }

  /** Packet n of the segment that holds data. */
  function PacketOf(segment: u32, n: u16, data: seq<byte>): seq<byte> {
    Sealed(Header(segment, n, IsLast(|data|, n)) + Payload(data, n))
  }

  /** The payloads of the packets from n on. */
  function PayloadsFrom(data: seq<byte>, n: nat): seq<byte>
    decreases Count(|data|) - n
  {
    if n < Count(|data|) then Payload(data, n) + PayloadsFrom(data, n + 1) else []
  }

  lemma {:induction false} PayloadsFromIsRest(data: seq<byte>, n: nat)
    ensures PayloadsFrom(data, n) == data[Min(n * MAX_PAYLOAD, |data|)..]
    decreases Count(|data|) - n
  {
    if n < Count(|data|) {
      PayloadsFromIsRest(data, n + 1);
    }
  }

  /** The facts about one packet of a segment. */
  ghost predicate WellCut(segment: u32, data: seq<byte>, n: u16) {
    && n * 991 < |data| && |Payload(data, n)| == Min(991, |data| - n * 991)
    && (IsLast(|data|, n) <==> n == Count(|data|) - 1)
    && Offset(n) == n * 991
    && |PacketOf(segment, n, data)| == 18 + |Payload(data, n)| <= 1009 <= MAX_PACKET
  }

  lemma PacketWellCut(segment: u32, data: seq<byte>, n: u16)
    requires n < Count(|data|) && |data| <= MAX_SEGMENT
    ensures WellCut(segment, data, n)
  {
    hide Sealed, Header;
    SealedLength(Header(segment, n, IsLast(|data|, n)) + Payload(data, n));
  }

  /** Cutting a segment into packets loses nothing and adds nothing, every packet carries something,
      only the final one is marked last, the 16-bit offset field is the true start of the payload
      and every packet fits the packet buffer. */
  lemma SegmentPartition(segment: u32, data: seq<byte>)
    requires |data| <= MAX_SEGMENT
    ensures PayloadsFrom(data, 0) == data
    ensures forall n: u16 | n < Count(|data|) :: WellCut(segment, data, n)
  {
    hide WellCut;
    PayloadsFromIsRest(data, 0);
    forall n: u16 | n < Count(|data|) {
      PacketWellCut(segment, data, n);
    }
  }

  lemma SealedLength(body: seq<byte>)
    ensures |Sealed(body)| == |body| + 2
  {
  }

  // ---------------------------------------------------------------- reading a packet back

  datatype Reading = Damaged | Reading(last: bool, payload: seq<byte>)

  /** What the loader of the machine takes from a packet whose check bytes agree. */
  function ReadPacket(p: seq<byte>): Reading {
    if |p| < 18 || !Accepts(p) then Damaged
    else Reading(EndMark(p[11]), p[16..|p| - 2])
  }

  lemma TypeByteMarksLast(n: u16, last: bool)
    ensures EndMark(TypeByte(n, last)) == last
    ensures Kind(TypeByte(n, last)) == if n == 0 then 0xa1 else 0x20
  {
  }

  /** What the fields of a packet header say: the segment, the packet number twice, once modulo 256
      and once with its low byte first, where the payload starts, whether it is the last packet and
      whether it is the first; and what never changes. */
  ghost predicate HeaderSays(p: seq<byte>, segment: u32, n: u16, start: nat, last: bool) {
    && |p| >= 16
    && Val(p[0]) == segment / 0x1_0000 % 0x100 && Network(p, 1) == segment % 0x1_0000
    && Val(p[3]) == n % 0x100 && Val(p[12]) + Val(p[13]) * 0x100 == n
    && Unchanging(p)
    && EndMark(p[11]) == last && Kind(p[11]) == (if n == 0 then 0xa1 else 0x20)
    && Network(p, 14) == start
  }

  /** Owner, tier and the two bytes nobody knows the meaning of. */
  predicate Unchanging(p: seq<byte>)
    requires |p| >= 16
  {
    && p[4] == 0x01 && p[5] == 0x7f && p[6] == 0xff && p[7] == 0xff && p[8] == 0xff
    && p[9] == 0x7f && p[10] == 0x80
  }

  /** Bit 4 of the type byte marks the end of the segment. */
  predicate EndMark(b: byte) {
    b & 0x10 != 0
  }

  /** The other bits say what kind of packet it is. */
  function Kind(b: byte): byte {
    b & 0xef
  }

  lemma HeaderBytes(segment: u32, n: u16, last: bool)
    ensures var h := Header(segment, n, last);
      && h[0] == Lo(segment / 0x1_0000) && h[1] == Lo(segment / 0x100) && h[2] == Lo(segment)
      && h[3] == Lo(n) && Unchanging(h) && h[11] == TypeByte(n, last)
      && h[12] == Lo(n) && h[13] == Lo(n / 0x100) && h[14] == Lo(Offset(n) / 0x100) && h[15] == Lo(Offset(n))
  {
    hide Lo, TypeByte;
  }

  lemma NumberBytes(n: u16)
    ensures Val(Lo(n)) == n % 0x100 && Val(Lo(n / 0x100)) * 0x100 + Val(Lo(n)) == n
  {
    hide *;
    ValLo(n);
    NetworkOfBytes(n);
  }

  lemma SegmentBytes(segment: u32)
    ensures Val(Lo(segment / 0x1_0000)) == segment / 0x1_0000 % 0x100
    ensures Val(Lo(segment / 0x100)) * 0x100 + Val(Lo(segment)) == segment % 0x1_0000
  {
    hide *;
    ValLo(segment / 0x1_0000);
    NetworkOfBytes(segment);
  }

  lemma HeaderReads(segment: u32, n: u16, last: bool)
    ensures HeaderSays(Header(segment, n, last), segment, n, Offset(n), last)
  {
    hide Lo, TypeByte, Val, EndMark, Kind, Header, Offset, Unchanging;
    TypeByteMarksLast(n, last);
    HeaderBytes(segment, n, last);
    SegmentBytes(segment);
    NumberBytes(n);
    NumberBytes(Offset(n));
  }

  lemma SameHeader(p: seq<byte>, h: seq<byte>, segment: u32, n: u16, start: nat, last: bool)
    requires |h| == 16 <= |p| && p[..16] == h
    ensures HeaderSays(p, segment, n, start, last) <==> HeaderSays(h, segment, n, start, last)
  {
    hide Val, EndMark, Kind;
    forall i | 0 <= i < 16 ensures p[i] == h[i] {
      assert p[i] == p[..16][i];
    }
  }

  /** Every packet of a segment says in its header which one it is, and where its payload starts. */
  lemma PacketHeader(segment: u32, n: u16, data: seq<byte>)
    requires n * 991 < |data| <= MAX_SEGMENT
    ensures HeaderSays(PacketOf(segment, n, data), segment, n, n * 991, |data| <= (n + 1) * 991)
  {
    hide Header, CheckBytes, HeaderSays, Payload, Offset;
    var last := IsLast(|data|, n);
    OffsetExact(n);
    HeaderReads(segment, n, last);
    HeaderFirst(Header(segment, n, last), Payload(data, n));
    hide PacketOf, Sealed;
    SameHeader(Sealed(Header(segment, n, last) + Payload(data, n)), Header(segment, n, last), segment, n, n * 991, last);
    PacketIsSealed(segment, n, data);
  }

  lemma PacketIsSealed(segment: u32, n: u16, data: seq<byte>)
    ensures PacketOf(segment, n, data) == Sealed(Header(segment, n, IsLast(|data|, n)) + Payload(data, n))
  {
  }

  lemma OffsetExact(n: u16)
    ensures n * 991 < 0x1_0000 ==> Offset(n) == n * 991
  {
  }

  lemma HeaderFirst(h: seq<byte>, d: seq<byte>)
    requires |h| == 16
    ensures |Sealed(h + d)| >= 16 && Sealed(h + d)[..16] == h
  {
    hide CheckBytes;
  }

  /** A packet read back gives its payload and says whether it is the last one. */
  lemma ReadPacketOf(segment: u32, n: u16, data: seq<byte>)
    ensures ReadPacket(PacketOf(segment, n, data)) == Reading(IsLast(|data|, n), Payload(data, n))
  {
    hide Accepts, CheckBytes, TypeByte;
    var h, d := Header(segment, n, IsLast(|data|, n)), Payload(data, n);
    var p := PacketOf(segment, n, data);
    SealedAccepted(h + d);
    TypeByteMarksLast(n, IsLast(|data|, n));
    assert p == h + d + CheckBytes(h + d);
    assert p[16..|p| - 2] == d;
  }

  // ---------------------------------------------------------------- what PacketizeSegment sends

  /** (SegmentWritePtr - PacketOffset) in sixteen bits. */
  function Remaining(written: u16, n: u16): u16 {
    (written - Offset(n)) % 0x1_0000
  }

  /** The payload lies within SegmentBuffer. */
  predicate InBuffer(written: u16, n: u16) {
    Offset(n) + Min(MAX_PAYLOAD, Remaining(written, n)) <= MAX_SEGMENT
  }

  /** The packet sent for packet number n of a buffer with written bytes, if one is sent. */
  function Packetized(buffer: seq<byte>, written: u16, segment: u32, n: u16): Option<seq<byte>>
    requires |buffer| == MAX_SEGMENT && InBuffer(written, n)
  {
    if segment == 0 || segment == 0xffff_ffff || written == 0 || Remaining(written, n) == 0 then None
    else
      var size := Min(MAX_PAYLOAD, Remaining(written, n));
      var last := size == Remaining(written, n);
      Some(Sealed(Header(segment, n, last) + buffer[Offset(n)..Offset(n) + size]))
  }

  /** For a packet number within the segment that is the segment's packet. */
  lemma PacketizedInRange(buffer: seq<byte>, written: u16, segment: u32, n: u16)
    requires |buffer| == MAX_SEGMENT && n * MAX_PAYLOAD < written
    requires segment != 0 && segment != 0xffff_ffff
    ensures InBuffer(written, n)
    ensures Packetized(buffer, written, segment, n) == Some(PacketOf(segment, n, buffer[..written]))
  {
    hide Sealed, Header;
    assert Offset(n) == n * MAX_PAYLOAD && Remaining(written, n) == written - n * MAX_PAYLOAD;
    var size, data := Min(MAX_PAYLOAD, Remaining(written, n)), buffer[..written];
    assert Min((n + 1) * MAX_PAYLOAD, |data|) == n * MAX_PAYLOAD + size;
    assert buffer[Offset(n)..Offset(n) + size] == Payload(data, n);
  }
}
