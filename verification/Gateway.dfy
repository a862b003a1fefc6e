/** wifi.c, packet.c and main.c: the globals of the gateway and the functions that update them. Every
    method does to the state what its namesake in Gate does to a value. */
module Gateway {
  import opened Bytes
  import opened Frame
  import opened Duart
  import opened Crc
  import opened CrcTheory
  import opened Packet
  import opened Names
  import Gate

  type Line = Gate.Line

  lemma NothingToSend()
    ensures Stuff(Flatten([])) == []
  {
  }

  lemma OneMoreLink(chain: seq<seq<byte>>, i: nat)
    requires i < |chain|
    ensures Stuff(Flatten(chain[..i + 1])) == Stuff(Flatten(chain[..i])) + Stuff(chain[i])
  {
    hide Stuff, Flatten;
    FlattenLast(chain[..i], chain[i]);
    StuffConcat(Flatten(chain[..i]), chain[i]);
    assert chain[..i + 1] == chain[..i] + [chain[i]];
  }

  class Device {
    const segmentBuffer: array<byte>
    const packetBuffer: array<byte>
    const port: Port
    var segmentWritePtr: u16
    var packetWritePtr: nat
    var packetMode: bool
    var prologSent: bool
    var segmentNumber: u32
    var packetNumber: u16
    var packetOffset: u16
    var handling: bool
    var handled: bool
    var gets: seq<string>

    predicate Valid() {
      segmentBuffer.Length == MAX_SEGMENT && packetBuffer.Length == MAX_PACKET && segmentBuffer != packetBuffer
    }

    function Wire(): Line
      reads port
    {
      Gate.Line(port.polls, port.out)
    }

    function State(): Gate.Gate
      reads this, segmentBuffer, port
    {
      Gate.Gate(segmentBuffer[..], segmentWritePtr, packetMode, prologSent, segmentNumber, packetNumber,
                packetOffset, handling, handled, Wire(), gets)
    }

    constructor (port: Port)
      ensures Valid() && fresh(segmentBuffer) && fresh(packetBuffer) && this.port == port
      ensures State() == Gate.Initial(Gate.Line(port.polls, port.out))
    {
      this.port := port;
      segmentBuffer := new byte[MAX_SEGMENT](_ => 0);
      packetBuffer := new byte[MAX_PACKET](_ => 0);
      segmentWritePtr, packetWritePtr, packetMode, prologSent := 0, 0, false, false;
      segmentNumber, packetNumber, packetOffset := 0, 0, 0;
      handling, handled, gets := false, false, [];
      new;
      assert segmentBuffer[..] == seq(MAX_SEGMENT, _ => 0);
    }

    // -------------------------------------------------------------- sending

    /** Wait for 0x10 0x06. */
    method ReadAcknowledgement() returns (ok: bool)
      modifies port
      ensures (ok, Wire()) == Gate.Acknowledged(old(Wire()))
    {
      var code := port.ReadByteExpected(0x10, Gate.ACK_POLLS);
      if code != 0 {
        return false;
      }
      code := port.ReadByteExpected(0x06, Gate.ACK_POLLS);
      return code == 0;
    }

    method SendPacketProlog() returns (ok: bool)
      modifies port
      ensures (ok, Wire()) == Gate.SendProlog(old(Wire()))
    {
      port.SendRawByte(0x91);
      ok := ReadAcknowledgement();
    }

    method SendUnauthorized() returns (ok: bool)
      modifies port
      ensures (ok, Wire()) == Gate.SendUnauthorized(old(Wire()))
    {
      port.SendRawByte(0x90);
      ok := ReadAcknowledgement();
    }

    method SendPacketEpilog()
      modifies port
      ensures Wire() == old(Wire()).Plus(EPILOG)
    {
      port.SendRawByte(0x10);
      port.SendRawByte(0xE1);
    }

    method SendPacketizedData(size: nat) returns (ok: bool)
      requires size <= packetBuffer.Length
      modifies port
      ensures (ok, Wire()) == Gate.SendPacket(old(Wire()), packetBuffer[..size])
    {
      ok := SendPacketProlog();
      ghost var before := port.out;
      if ok {
        port.SendBytes(packetBuffer, size);
        SendPacketEpilog();
        assert before + Stuff(packetBuffer[..size]) + EPILOG == before + FrameOf(packetBuffer[..size]);
      }
    }

    /** The CRC over what the packet buffer holds, and its two check bytes behind it. */
    method SealPacket()
      requires Valid() && packetWritePtr + 2 <= MAX_PACKET
      modifies packetBuffer, this`packetWritePtr
      ensures packetWritePtr == old(packetWritePtr) + 2
      ensures packetBuffer[..packetWritePtr] == Sealed(old(packetBuffer[..packetWritePtr]))
    {
      hide Update;
      ghost var body := packetBuffer[..packetWritePtr];
      var crc: bv16 := 0xffff;
      var i := 0;
      while i < packetWritePtr
        invariant 0 <= i <= packetWritePtr == |body| && packetBuffer[..packetWritePtr] == body
        invariant crc == CrcTo(0xffff, body, i)
      {
        crc := CrcUpdate(crc, packetBuffer[i]);
        CrcNext(0xffff, body, i);
        i := i + 1;
      }
      packetBuffer[packetWritePtr] := (crc >> 8) as byte ^ 0xff;
      packetBuffer[packetWritePtr + 1] := (crc & 0xff) as byte ^ 0xff;
      packetWritePtr := packetWritePtr + 2;
      assert packetBuffer[..packetWritePtr] == body + CheckBytes(body);
    }

    method SendTimePacket() returns (ok: bool)
      requires Valid()
      modifies packetBuffer, port, this`packetWritePtr
      ensures (ok, Wire()) == Gate.SendPacket(old(Wire()), Sealed(Gate.TIME_BODY))
    {
      hide Sealed;
      var size := |Gate.TIME_BODY|;
      forall i | 0 <= i < size {
        packetBuffer[i] := Gate.TIME_BODY[i];
      }
      packetWritePtr := size;
      assert packetBuffer[..packetWritePtr] == Gate.TIME_BODY;
      SealPacket();
      ok := SendPacketizedData(packetWritePtr);
    }

    // -------------------------------------------------------------- PacketizeSegment

    method WriteHeader(last: bool)
      requires Valid()
      modifies packetBuffer, this`packetWritePtr
      ensures packetWritePtr == 16 && packetBuffer[..16] == Header(segmentNumber, packetNumber, last)
    {
      hide Lo, TypeByte;
      var offset := (packetNumber * MAX_PAYLOAD) % 0x1_0000;
      var header := [
        Lo(segmentNumber / 0x1_0000), Lo(segmentNumber / 0x100), Lo(segmentNumber), Lo(packetNumber),
        0x01, 0x7f, 0xff, 0xff, 0xff, 0x7f, 0x80, TypeByte(packetNumber, last),
        Lo(packetNumber), Lo(packetNumber / 0x100), Lo(offset / 0x100), Lo(offset)];
      forall i | 0 <= i < 16 {
        packetBuffer[i] := header[i];
      }
      packetWritePtr := 16;
      assert packetBuffer[..16] == header;
    }

    method CopyPayload(start: nat, size: nat)
      requires Valid() && start + size <= MAX_SEGMENT && packetWritePtr + size <= MAX_PACKET
      modifies packetBuffer, this`packetWritePtr
      ensures packetWritePtr == old(packetWritePtr) + size
      ensures packetBuffer[..packetWritePtr] == old(packetBuffer[..packetWritePtr]) + segmentBuffer[start..start + size]
    {
      ghost var head := packetBuffer[..packetWritePtr];
      var i := 0;
      while i < size
        invariant 0 <= i <= size && packetWritePtr == old(packetWritePtr) + i
        invariant packetBuffer[..packetWritePtr] == head + segmentBuffer[start..start + i]
      {
        packetBuffer[packetWritePtr] := segmentBuffer[start + i];
        packetWritePtr := packetWritePtr + 1;
        assert segmentBuffer[start..start + i + 1] == segmentBuffer[start..start + i] + [segmentBuffer[start + i]];
        i := i + 1;
      }
    }

    method PacketizeSegment() returns (ok: bool)
      requires Valid() && Gate.Sendable(State())
      modifies packetBuffer, port, this`packetWritePtr, this`packetOffset
      ensures (ok, State()) == Gate.PacketizeSegment(old(State()))
    {
      hide Sealed, Header, Gate.SendPacket;
      if segmentNumber == 0 || segmentNumber == 0xffff_ffff || segmentWritePtr == 0 {
        return false;
      }
      packetOffset := (packetNumber * MAX_PAYLOAD) % 0x1_0000;
      var size := (segmentWritePtr - packetOffset) % 0x1_0000;
      if size == 0 {
        return false;
      }
      var payload := if MAX_PAYLOAD < size then MAX_PAYLOAD else size;
      WriteHeader(payload == size);
      CopyPayload(packetOffset, payload);
      SealPacket();
      assert segmentBuffer[..][packetOffset..packetOffset + payload] == segmentBuffer[packetOffset..packetOffset + payload];
      ok := SendPacketizedData(packetWritePtr);
    }

    // -------------------------------------------------------------- the callbacks of wifi.c

    method SegmentOpen()
      modifies this
      ensures State() == Gate.SegmentOpen(old(State()))
    {
      packetMode := false;
      segmentWritePtr := 0;
      packetOffset := 0;
      packetNumber := 0;
    }

    method PacketOpen()
      modifies this
      ensures State() == Gate.PacketOpen(old(State()))
    {
      packetMode := true;
      packetWritePtr := 0;
      segmentWritePtr := 0;
      prologSent := false;
    }

    method Close()
      requires Valid() && (packetMode || Gate.Sendable(State()))
      modifies this, packetBuffer, port
      ensures State() == Gate.Close(old(State()))
    {
      hide Gate.PacketizeSegment, Gate.SendUnauthorized;
      if segmentNumber == 0 {
        return;
      }
      if !handling {
        return;
      }
      if packetMode {
        if !prologSent {
          handled := false;
          var _ := SendUnauthorized();
        } else {
          handled := true;
          SendPacketEpilog();
        }
        segmentNumber := 0;
        packetNumber := 0;
        packetOffset := 0;
      } else {
        if segmentWritePtr == 0 {
          handled := false;
          var _ := SendUnauthorized();
        } else {
          var _ := PacketizeSegment();
          handled := true;
        }
      }
      handling := false;
      prologSent := false;
    }

    /** One buffer of the chain goes into SegmentBuffer. */
    method Store(link: array<byte>)
      requires Valid() && link != segmentBuffer
      modifies segmentBuffer, this`segmentWritePtr
      ensures (segmentBuffer[..], segmentWritePtr)
           == Gate.StoreAll(old(segmentBuffer[..]), old(segmentWritePtr), link[..])
    {
      var i := 0;
      while i < link.Length
        invariant 0 <= i <= link.Length
        invariant (segmentBuffer[..], segmentWritePtr)
               == Gate.StoreAll(old(segmentBuffer[..]), old(segmentWritePtr), link[..i])
      {
        ghost var before, data := segmentBuffer[..], link[i];
        segmentBuffer[segmentWritePtr] := link[i];
        assert segmentBuffer[..] == before[segmentWritePtr := data];
        segmentWritePtr := (segmentWritePtr + 1) % 0x1_0000;
        assert link[..i + 1][..i] == link[..i];
        i := i + 1;
      }
      assert link[..i] == link[..];
    }

    /** tftp_write, once for each buffer of the chain. */
    method Write(chain: seq<seq<byte>>)
      requires Valid()
      modifies this, segmentBuffer, port
      ensures State() == Gate.Write(old(State()), chain)
    {
      if packetMode {
        SendChain(chain);
      } else {
        StoreChain(chain);
      }
    }

    method SendChain(chain: seq<seq<byte>>)
      requires Valid() && packetMode
      modifies this`prologSent, port
      ensures State() == Gate.Write(old(State()), chain)
    {
      if !prologSent {
        prologSent := true;
        port.SendRawByte(0x91);
        var _ := port.ReadByteExpected(0x10, Gate.ACK_POLLS);
        var _ := port.ReadByteExpected(0x06, Gate.ACK_POLLS);
      }
      SendLinks(chain);
    }

    method SendLinks(chain: seq<seq<byte>>)
      modifies port
      ensures Wire() == old(Wire()).Plus(Stuff(Flatten(chain)))
    {
      hide Stuff, Flatten;
      ghost var before := port.out;
      var i := 0;
      NothingToSend();
      while i < |chain|
        invariant 0 <= i <= |chain|
        invariant port.polls == old(port.polls)
        invariant port.out == before + Stuff(Flatten(chain[..i]))
      {
        SendLink(chain[i]);
        OneMoreLink(chain, i);
        i := i + 1;
      }
      assert chain[..i] == chain;
    }

    method SendLink(payload: seq<byte>)
      modifies port
      ensures port.polls == old(port.polls) && port.out == old(port.out) + Stuff(payload)
    {
      var link := new byte[|payload|](k requires 0 <= k < |payload| => payload[k]);
      assert link[..link.Length] == payload;
      port.SendBytes(link, link.Length);
    }

    method StoreChain(chain: seq<seq<byte>>)
      requires Valid() && !packetMode
      modifies this`segmentWritePtr, segmentBuffer
      ensures State() == Gate.Write(old(State()), chain)
    {
      var i := 0;
      while i < |chain|
        invariant 0 <= i <= |chain|
        invariant (segmentBuffer[..], segmentWritePtr)
               == Gate.StoreAll(old(segmentBuffer[..]), old(segmentWritePtr), Flatten(chain[..i]))
      {
        var link := new byte[|chain[i]|](k requires 0 <= k < |chain[i]| => chain[i][k]);
        assert link[..] == chain[i];
        Store(link);
        FlattenLast(chain[..i], chain[i]);
        Gate.StoreAllConcat(old(segmentBuffer[..]), old(segmentWritePtr), Flatten(chain[..i]), chain[i]);
        assert chain[..i + 1] == chain[..i] + [chain[i]];
        i := i + 1;
      }
      assert chain[..i] == chain;
    }

    method Fail()
      modifies this`handled, this`handling
      ensures State() == Gate.Fail(old(State()))
    {
      handled := false;
      handling := false;
    }

    // -------------------------------------------------------------- requests

    /** The callbacks of a transfer, one after another, while handleRequest sleeps. */
    method Transfer(script: seq<Gate.Callback>)
      requires Valid() && (packetMode || packetNumber == 0)
      modifies this, segmentBuffer, packetBuffer, port
      ensures State() == Gate.Transfer(old(State()), script)
    {
      hide Gate.Close, Gate.Write;
      var i, over := 0, false;
      while i < |script| && !over
        invariant 0 <= i <= |script|
        invariant !over ==>
          (packetMode || packetNumber == 0) && Gate.Transfer(State(), script[i..]) == Gate.Transfer(old(State()), script)
        invariant over ==> State() == Gate.Transfer(old(State()), script)
      {
        match script[i] {
          case Block(chain) =>
            Write(chain);
          case Last(chain) =>
            Write(chain);
            Close();
            over := true;
          case Abort =>
            Fail();
            Close();
            over := true;
        }
        i := i + 1;
      }
    }

    method FetchSegment(request: u32, script: seq<Gate.Callback>)
      requires Valid()
      modifies this, segmentBuffer, packetBuffer, port
      ensures State() == Gate.FetchSegment(old(State()), request, script)
    {
      hide Gate.Transfer, SegmentName;
      handled := false;
      handling := true;
      segmentNumber := request / 0x100;
      segmentWritePtr := 0;
      SegmentOpen();
      gets := gets + [SegmentName(segmentNumber)];
      Transfer(script);
    }

    method FetchPacket(request: u32, script: seq<Gate.Callback>)
      requires Valid()
      modifies this, segmentBuffer, packetBuffer, port
      ensures State() == Gate.FetchPacket(old(State()), request, script)
    {
      hide Gate.Transfer, PacketName;
      handling := true;
      PacketOpen();
      gets := gets + [PacketName(request)];
      Transfer(script);
    }

    /** The second half of handleRequest. */
    method AfterSegment(request: u32, script: seq<Gate.Callback>) returns (done: bool, ok: bool)
      requires Valid()
      modifies this, segmentBuffer, packetBuffer, port
      ensures (if done then Gate.Answer(ok, State()) else Gate.Hung(State()))
           == Gate.AfterSegment(old(State()), request, script)
    {
      hide Gate.FetchPacket;
      if !handled {
        FetchPacket(request, script);
        if handling {
          return false, false;
        }
      }
      if !handled {
        SendFailure();
      }
      return true, handled;
    }

    method SendFailure()
      modifies port
      ensures Wire() == old(Wire()).Plus([0x90, 0x10, 0x06])
    {
      port.SendRawByte(0x90);
      port.SendRawByte(0x10);
      port.SendRawByte(0x06);
    }

    /** handleRequest: whether it ever came back, and what it returned. */
    method HandleRequest(request: u32, segments: seq<Gate.Callback>, packets: seq<Gate.Callback>)
      returns (done: bool, ok: bool)
      requires Valid() && Gate.Askable(State(), request)
      modifies this, segmentBuffer, packetBuffer, port
      ensures (if done then Gate.Answer(ok, State()) else Gate.Hung(State()))
           == Gate.HandleRequest(old(State()), request, segments, packets)
    {
      hide Gate.FetchSegment, Gate.AfterSegment, Gate.PacketizeSegment, Gate.SendPacket, Sealed;
      if request == Gate.TIME_REQUEST {
        ok := SendTimePacket();
        done := true;
      } else if !packetMode && segmentNumber == request / 0x100 {
        handled := false;
        handling := true;
        packetNumber := request % 0x100;
        ok := PacketizeSegment();
        done := true;
      } else {
        done, ok := Fetch(request, segments, packets);
      }
    }

    /** handleRequest when the cache does not hold the segment. */
    method Fetch(request: u32, segments: seq<Gate.Callback>, packets: seq<Gate.Callback>)
      returns (done: bool, ok: bool)
      requires Valid() && request != Gate.TIME_REQUEST && !Gate.Hit(State(), request)
      modifies this, segmentBuffer, packetBuffer, port
      ensures (if done then Gate.Answer(ok, State()) else Gate.Hung(State()))
           == Gate.HandleRequest(old(State()), request, segments, packets)
    {
      hide Gate.FetchSegment, Gate.AfterSegment, Gate.PacketizeSegment, Gate.SendPacket, Sealed;
      if request % 0x100 == 0 {
        FetchSegment(request, segments);
        if handling {
          return false, false;
        }
      } else {
        handled := false;
        handling := true;
        segmentNumber := request / 0x100;
        segmentWritePtr := 0;
      }
      done, ok := AfterSegment(request, packets);
    }

    method ReadRequest() returns (request: Option<u32>)
      modifies port`polls
      ensures (request, port.polls) == Gate.ReadRequest(old(port.polls))
    {
      var data: nat := port.ReadByteTimeout(Gate.REQUEST_POLLS);
      if data >= 0x100 {
        return None;
      }
      var value := data;
      data := port.ReadByteTimeout(Gate.REQUEST_POLLS);
      if data >= 0x100 {
        return None;
      }
      value := value + 0x100 * data;
      data := port.ReadByteTimeout(Gate.REQUEST_POLLS);
      if data >= 0x100 {
        return None;
      }
      value := value + 0x1_0000 * data;
      data := port.ReadByteTimeout(Gate.REQUEST_POLLS);
      if data >= 0x100 {
        return None;
      }
      return Some(value + 0x100_0000 * data);
    }

    /** packetRequest */
    method PacketRequest(segments: seq<Gate.Callback>, packets: seq<Gate.Callback>) returns (done: bool, ok: bool)
      requires Valid() && Gate.RequestOk(State())
      modifies this, segmentBuffer, packetBuffer, port
      ensures (if done then Gate.Answer(ok, State()) else Gate.Hung(State()))
           == Gate.PacketRequest(old(State()), segments, packets)
    {
      hide Gate.HandleRequest, Gate.ReadRequest;
      ghost var before := port.out;
      port.SendRawByte(0x10);
      port.SendRawByte(0x06);
      var request := ReadRequest();
      if request.None? {
        assert port.out == before + [0x10, 0x06];
        return true, false;
      }
      port.SendRawByte(0xE4);
      assert port.out == before + [0x10, 0x06, 0xE4];
      done, ok := HandleRequest(request.value, segments, packets);
    }
  }
}
