/** tools/packetize.c: the packetizer that writes .pak files ahead of time. */
module PakTool {
  import opened Bytes
  import opened Crc
  import opened CrcTheory
  import opened Packet
  import opened Names

  function ToolHeader(segment: u32, packet: nat, last: bool): (h: seq<byte>)
    requires packet < 0x100
    ensures |h| == 16
  {
    [Lo(segment / 0x100_0000), Lo(segment / 0x100), Lo(segment), Lo(packet),
     0x01, 0x7f, 0xff, 0xff, 0xff, 0x7f, 0x80, ToolTypeByte(packet, last),
     Lo(packet), 0x00, Lo(Offset(packet) / 0x100), Lo(Offset(packet))]
  }

  /** The .pak file for packet number packet when rest is what is left of the segment. */
  function PakOf(segment: u32, packet: nat, rest: seq<byte>): seq<byte>
    requires packet < 0x100
  {
    Sealed(ToolHeader(segment, packet, |rest| <= MAX_PAYLOAD) + rest[..Min(|rest|, MAX_PAYLOAD)])
  }

  function ToolTypeByte(n: nat, last: bool): byte {
    if last then 0x30 else if n == 0 then 0xa1 else 0x20
  }

  lemma ToolTypeByteMarksLast(n: nat, last: bool)
    ensures EndMark(ToolTypeByte(n, last)) == last
    ensures Kind(ToolTypeByte(n, last)) == if n == 0 && !last then 0xa1 else 0x20
  {
  }

  /** What the header of a prepared packet says. Its first byte is the top byte of the segment number,
      and the only packet of a segment is not marked as the first one. */
  ghost predicate ToolHeaderSays(p: seq<byte>, segment: u32, n: nat, start: nat, last: bool) {
    && |p| >= 16
    && Val(p[0]) == segment / 0x100_0000 && Network(p, 1) == segment % 0x1_0000
    && Val(p[3]) == n && Val(p[12]) == n && Val(p[13]) == 0
    && Unchanging(p)
    && EndMark(p[11]) == last && Kind(p[11]) == (if n == 0 && !last then 0xa1 else 0x20)
    && Network(p, 14) == start
  }

  lemma ToolHeaderBytes(segment: u32, n: nat, last: bool)
    requires n < 0x100
    ensures var h := ToolHeader(segment, n, last);
      && h[0] == Lo(segment / 0x100_0000) && h[1] == Lo(segment / 0x100) && h[2] == Lo(segment)
      && h[3] == Lo(n) && Unchanging(h) && h[11] == ToolTypeByte(n, last)
      && h[12] == Lo(n) && h[13] == 0 && h[14] == Lo(Offset(n) / 0x100) && h[15] == Lo(Offset(n))
  {
    hide Lo, ToolTypeByte;
  }

  lemma ToolHeaderReads(segment: u32, n: nat, last: bool)
    requires n < 0x100
    ensures ToolHeaderSays(ToolHeader(segment, n, last), segment, n, Offset(n), last)
  {
    hide Lo, Val, ToolTypeByte, EndMark, Kind, ToolHeader, Offset, Unchanging;
    var h := ToolHeader(segment, n, last);
    ToolHeaderBytes(segment, n, last);
    ToolTypeByteMarksLast(n, last);
    ValLo(segment / 0x100_0000);
    ValLo(n);
    ValZero();
    NetworkOfBytes(segment);
    NetworkOfBytes(Offset(n));
  }

  lemma SameToolHeader(p: seq<byte>, h: seq<byte>, segment: u32, n: nat, start: nat, last: bool)
    requires |h| == 16 <= |p| && p[..16] == h
    ensures ToolHeaderSays(p, segment, n, start, last) <==> ToolHeaderSays(h, segment, n, start, last)
  {
    hide Val, EndMark, Kind;
    forall i | 0 <= i < 16 ensures p[i] == h[i] {
      assert p[i] == p[..16][i];
    }
  }

  lemma ToolMark(segment: u32, n: nat, last: bool)
    requires n < 0x100
    ensures EndMark(ToolHeader(segment, n, last)[11]) == last
  {
    hide Lo, EndMark, Kind, ToolTypeByte;
    ToolTypeByteMarksLast(n, last);
  }

  /** Every prepared packet says in its header which one it is, where its payload starts and whether
      it is the last; its check bytes agree, and it reads back as that payload. */
  lemma PakReads(segment: u32, n: nat, data: seq<byte>)
    requires n < 0x100 && n * 991 < |data| <= MAX_SEGMENT
    ensures var p := PakOf(segment, n, data[n * 991..]);
      && ToolHeaderSays(p, segment, n, n * 991, |data| <= (n + 1) * 991)
      && ReadPacket(p) == Reading(|data| <= (n + 1) * 991, Payload(data, n))
  {
    hide ToolHeader, CheckBytes, Accepts, Payload, ToolHeaderSays, EndMark;
    var last := IsLast(|data|, n);
    PayloadsAgree(data, n);
    ToolHeaderReads(segment, n, last);
    ToolMark(segment, n, last);
    var h, d := ToolHeader(segment, n, last), Payload(data, n);
    var p := PakOf(segment, n, data[n * 991..]);
    assert p == h + d + CheckBytes(h + d);
    SealedAccepted(h + d);
    assert p[..16] == h && p[16..|p| - 2] == d;
    assert p[11] == p[..16][11];
    SameToolHeader(p, h, segment, n, n * 991, last);
  }

  /** The register after more of the same data. */
  lemma CrcGoesOn(body: seq<byte>, more: seq<byte>, n: nat)
    requires n < |more|
    ensures CrcTo(0xffff, body + more, |body| + n + 1)
         == Update(CrcTo(0xffff, body + more, |body| + n), more[n])
  {
    hide Update;
    CrcNext(0xffff, body + more, |body| + n);
  }

  method MakeHeader(segment: u32, packet: nat, last: bool) returns (header: array<byte>)
    requires packet < 0x100
    ensures fresh(header) && header.Length == 16 && header[..] == ToolHeader(segment, packet, last)
  {
    hide Lo;
    var offset := (packet * MAX_PAYLOAD) % 0x1_0000;
    header := new byte[16] [
      Lo(segment / 0x100_0000), Lo(segment / 0x100), Lo(segment), Lo(packet),
      0x01, 0x7f, 0xff, 0xff, 0xff, 0x7f, 0x80, ToolTypeByte(packet, last),
      Lo(packet), 0x00, Lo(offset / 0x100), Lo(offset)];
  }

  /** The CRC of the header and then of the payload. */
  method CrcBoth(header: array<byte>, buf: array<byte>, start: nat, payload: nat) returns (crc: bv16)
    requires header.Length == 16 && start + payload <= buf.Length
    ensures crc == CrcOf(header[..] + buf[start..start + payload])
  {
    hide Update;
    ghost var h, d := header[..], buf[start..start + payload];
    crc := 0xffff;
    var i := 0;
    while i < 16
      invariant 0 <= i <= 16
      invariant crc == CrcTo(0xffff, h + d, i)
    {
      crc := CrcUpdate(crc, header[i]);
      CrcNext(0xffff, h + d, i);
      i := i + 1;
    }
    i := 0;
    while i < payload
      invariant 0 <= i <= payload
      invariant crc == CrcTo(0xffff, h + d, 16 + i)
    {
      crc := CrcUpdate(crc, buf[start + i]);
      CrcGoesOn(h, d, i);
      i := i + 1;
    }
  }

  method WritePacket(segment: u32, packet: nat, buf: array<byte>, start: nat, size: nat)
    returns (file: seq<byte>, payload: nat)
    requires packet < 0x100 && start + size <= buf.Length
    ensures payload == Min(size, MAX_PAYLOAD)
    ensures file == PakOf(segment, packet, buf[start..start + size])
  {
    hide CrcOf, ToolHeader;
    payload := if size < MAX_PAYLOAD then size else MAX_PAYLOAD;
    var header := MakeHeader(segment, packet, payload == size);
    file := header[..] + buf[start..start + payload];
    var crc := CrcBoth(header, buf, start, payload);
    header[0] := (crc >> 8) as byte ^ 0xff;
    header[1] := (crc & 0xff) as byte ^ 0xff;
    assert header[..2] == CheckBytes(file);
    assert buf[start..start + size][..payload] == buf[start..start + payload];
    file := file + header[..2];
  }

  /** The packet loop of main: the name and contents of every file it writes. */
  method Packetize(segment: u32, buf: array<byte>) returns (files: seq<(string, seq<byte>)>)
    requires buf.Length <= MAX_SEGMENT
    ensures |files| == Count(buf.Length)
    ensures forall k | 0 <= k < |files| ::
      files[k] == (ToolName(segment, k), PakOf(segment, k, buf[k * MAX_PAYLOAD..]))
  {
    hide PakOf, ToolName;
    files := [];
    var i, packet := 0, 0;
    while i < buf.Length
      invariant packet == |files| <= Count(buf.Length)
      invariant i == Min(packet * MAX_PAYLOAD, buf.Length)
      invariant forall k | 0 <= k < packet ::
        files[k] == (ToolName(segment, k), PakOf(segment, k, buf[k * MAX_PAYLOAD..]))
    {
      var file, written := WritePacket(segment, packet, buf, i, buf.Length - i);
      assert buf[i..i + (buf.Length - i)] == buf[packet * MAX_PAYLOAD..];
      files := files + [(ToolName(segment, packet), file)];
      i := i + written;
      packet := packet + 1;
    }
  }

  // ---------------------------------------------------------------- the two packetizers compared

  lemma TypeBytesAgreeIff(n: u16, last: bool)
    ensures TypeByte(n, last) == ToolTypeByte(n, last) <==> !(n == 0 && last)
  {
  }

  lemma HeadersAgreeIff(segment: u32, n: nat, last: bool)
    requires n < 0x100
    ensures ToolHeader(segment, n, last) == Header(segment, n, last)
      <==> Lo(segment / 0x100_0000) == Lo(segment / 0x1_0000) && !(n == 0 && last)
  {
    hide TypeByte, ToolTypeByte;
    var t, h := ToolHeader(segment, n, last), Header(segment, n, last);
    TypeBytesAgreeIff(n, last);
    LoKeepsResidue(n / 0x100, 0);
    assert h[13] == 0x00;
    assert t[0] == Lo(segment / 0x100_0000) && h[0] == Lo(segment / 0x1_0000);
    assert h[11] == TypeByte(n, last);
  }

  lemma SealedInjective(h: seq<byte>, g: seq<byte>, d: seq<byte>)
    requires |h| == |g|
    ensures Sealed(h + d) == Sealed(g + d) <==> h == g
  {
    hide CheckBytes;
    if Sealed(h + d) == Sealed(g + d) {
      assert h == Sealed(h + d)[..|h|] && g == Sealed(g + d)[..|h|];
    }
  }

  lemma PayloadsAgree(data: seq<byte>, n: nat)
    requires n * MAX_PAYLOAD < |data|
    ensures var rest := data[n * MAX_PAYLOAD..];
            && rest[..Min(|rest|, MAX_PAYLOAD)] == Payload(data, n)
            && (|rest| <= MAX_PAYLOAD <==> IsLast(|data|, n))
  {
  }

  /** A prepared packet is the packet the gateway would make exactly when bits 16-23 of the segment
      number repeat bits 24-31 and the segment is not a single packet. */
  lemma PakIsPacketIff(segment: u32, n: nat, data: seq<byte>)
    requires n < 0x100 && n * MAX_PAYLOAD < |data|
    ensures PakOf(segment, n, data[n * MAX_PAYLOAD..]) == PacketOf(segment, n, data)
      <==> (segment / 0x1_0000) % 0x100 == segment / 0x100_0000 && !(n == 0 && |data| <= MAX_PAYLOAD)
  {
    hide Sealed, Header, ToolHeader, Lo, Payload;
    var last := IsLast(|data|, n);
    PayloadsAgree(data, n);
    SealedInjective(ToolHeader(segment, n, last), Header(segment, n, last), Payload(data, n));
    HeadersAgreeIff(segment, n, last);
    LoKeepsResidue(segment / 0x100_0000, segment / 0x1_0000);
  }

  /** For the segment numbers the packetizer accepts: the two agree below segment 0x10000 only. */
  lemma ToolAgreesIff(segment: u32, n: nat, data: seq<byte>)
    requires segment <= 0x7f_fffe && n < 0x100 && n * MAX_PAYLOAD < |data|
    ensures PakOf(segment, n, data[n * MAX_PAYLOAD..]) == PacketOf(segment, n, data)
      <==> segment < 0x1_0000 && !(n == 0 && |data| <= MAX_PAYLOAD)
  {
    hide PakOf, PacketOf;
    PakIsPacketIff(segment, n, data);
  }
}
