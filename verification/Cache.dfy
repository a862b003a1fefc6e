/** What the gateway keeps over requests and transfers: the segment cache agrees with the server, a
    segment is sent as a whole or not at all, and prepared packets pass through unchanged. */
module Cache {
  import opened Bytes
  import opened Frame
  import opened CrcTheory
  import opened Packet
  import opened Names
  import opened Gate
  import opened PakTool
  import Request
  import Tftp
  import TftpNet
  import TftpRuns

  // ---------------------------------------------------------------- the shape of a transfer

  /** All the buffers a transfer hands over. */
  function Chain(script: seq<Callback>): seq<seq<byte>> {
    if script == [] then []
    else (if script[0].Abort? then [] else script[0].chain) + Chain(script[1..])
  }

  ghost predicate Pending(script: seq<Callback>) {
    forall c <- script :: c.Block?
  }

  /** The transfer came to its short block. */
  ghost predicate Ends(script: seq<Callback>) {
    script != [] && script[|script| - 1].Last? && Pending(script[..|script| - 1])
  }

  /** The transfer broke off. */
  ghost predicate Breaks(script: seq<Callback>) {
    script != [] && script[|script| - 1].Abort? && Pending(script[..|script| - 1])
  }

  lemma PlusPlus(line: Line, a: seq<byte>, b: seq<byte>)
    ensures line.Plus(a).Plus(b) == line.Plus(a + b)
  {
    assert line.out + a + b == line.out + (a + b);
  }

  lemma WriteTwiceOnLine(g: Gate, a: seq<seq<byte>>, b: seq<seq<byte>>)
    requires Sized(g) && g.packetMode
    ensures Write(Write(g, a), b) == Write(g, a + b)
  {
    hide OpenFrame, StoreAll, Stuff, Flatten;
    FlattenConcat(a, b);
    StuffConcat(Flatten(a), Flatten(b));
    var line := if g.prologSent then g.line else OpenFrame(g.line);
    PlusPlus(line, Stuff(Flatten(a)), Stuff(Flatten(b)));
    hide Line.Plus;
    assert Write(g, a) == g.(prologSent := true, line := line.Plus(Stuff(Flatten(a))));
  }

  lemma WriteTwiceInBuffer(g: Gate, a: seq<seq<byte>>, b: seq<seq<byte>>)
    requires Sized(g) && !g.packetMode
    ensures Write(Write(g, a), b) == Write(g, a + b)
  {
    hide OpenFrame, StoreAll, Stuff, Flatten;
    FlattenConcat(a, b);
    StoreAllConcat(g.buffer, g.written, Flatten(a), Flatten(b));
  }

  lemma OneKind(script: seq<Callback>)
    ensures Ends(script) ==> !Pending(script) && !Breaks(script)
    ensures Breaks(script) ==> !Pending(script)
  {
    if script != [] {
      assert script[|script| - 1] in script;
    }
  }

  /** Two writes are one write of both. */
  lemma WriteTwice(g: Gate, a: seq<seq<byte>>, b: seq<seq<byte>>)
    requires Sized(g)
    ensures Write(Write(g, a), b) == Write(g, a + b)
  {
    hide Write;
    if g.packetMode {
      WriteTwiceOnLine(g, a, b);
    } else {
      WriteTwiceInBuffer(g, a, b);
    }
  }

  /** The state in which a transfer that consists of script ends, if its data come in one piece. */
  function InOnePiece(g: Gate, script: seq<Callback>): Gate
    requires Sized(g) && (g.packetMode || g.packetNumber == 0)
  {
    if script == [] then g
    else
      var last := script[|script| - 1];
      var w := Write(g, Chain(script));
      if last.Block? then w
      else if last.Last? then
        CanClose(w);
        Close(w)
      else
        var f := Fail(if |script| == 1 then g else w);
        CanClose(f);
        Close(f)
  }

  /** How the data are divided into datagrams and chains of buffers makes no difference. */
  lemma {:induction false} SplitMakesNoDifference(g: Gate, script: seq<Callback>)
    requires Sized(g) && (g.packetMode || g.packetNumber == 0)
    requires Pending(script) || Ends(script) || Breaks(script)
    ensures Transfer(g, script) == InOnePiece(g, script)
    decreases |script|
  {
    hide Write, Close;
    if |script| == 1 {
      assert !script[0].Abort? ==> Chain(script) == script[0].chain;
      assert script[0].Block? ==> Transfer(g, script) == Transfer(Write(g, script[0].chain), []);
    } else if script != [] {
      var rest := script[1..];
      assert script[0] == script[..|script| - 1][0];
      assert Pending(script[..|script| - 1]) ==> Pending(rest[..|rest| - 1]) by {
        assert rest[..|rest| - 1] == script[..|script| - 1][1..];
      }
      SplitMakesNoDifference(Write(g, script[0].chain), rest);
      WriteTwice(g, script[0].chain, Chain(rest));
      if rest == [Abort] {
        assert script[0].chain + Chain(rest) == script[0].chain;
      }
    }
  }

  // ---------------------------------------------------------------- what is in the buffer

  /** The buffer up to the write pointer is the tail of data that fits after the last wrap. */
  ghost predicate Holds(buffer: seq<byte>, written: u16, data: seq<byte>) {
    && |buffer| == MAX_SEGMENT && written == |data| % 0x1_0000
    && buffer[..written] == data[|data| - written..]
  }

  lemma HoldsOneMore(buffer: seq<byte>, written: u16, data: seq<byte>, b: byte)
    requires Holds(buffer, written, data)
    ensures Holds(buffer[written := b], (written + 1) % 0x1_0000, data + [b])
  {
    var after := buffer[written := b];
    if written + 1 < 0x1_0000 {
      assert after[..written + 1] == buffer[..written] + [b];
    }
  }

  lemma {:induction false} StoreAllHolds(buffer: seq<byte>, written: u16, data: seq<byte>, more: seq<byte>)
    requires |buffer| == MAX_SEGMENT && Holds(buffer, written, data)
    ensures var (b, w) := StoreAll(buffer, written, more); Holds(b, w, data + more)
    decreases |more|
  {
    hide Holds;
    if more == [] {
      assert data + more == data;
    } else {
      var n := |more| - 1;
      StoreAllHolds(buffer, written, data, more[..n]);
      var (b, w) := StoreAll(buffer, written, more[..n]);
      HoldsOneMore(b, w, data + more[..n], more[n]);
      assert data + more[..n] + [more[n]] == data + more;
    }
  }

  /** The buffer holds the whole of a file exactly when the file is shorter than 65536 bytes. */
  lemma BufferIsFileIff(buffer: seq<byte>, written: u16, file: seq<byte>)
    requires Holds(buffer, written, file)
    ensures buffer[..written] == file <==> |file| < 0x1_0000
  {
  }

  // ---------------------------------------------------------------- what the server lets arrive

  type Remote = map<string, seq<byte>>

  function CallOf(c: Callback): TftpNet.Call {
    match c
    case Block(chain) => TftpNet.Stored(Flatten(chain))
    case Last(chain) => TftpNet.Finished(Flatten(chain))
    case Abort => TftpNet.Aborted
  }

  /** The callbacks as the transfer protocol sees them: each block in one piece. */
  function CallsOf(script: seq<Callback>): (c: seq<TftpNet.Call>)
    ensures |c| == |script| && forall i | 0 <= i < |script| :: c[i] == CallOf(script[i])
  {
    seq(|script|, i requires 0 <= i < |script| => CallOf(script[i]))
  }

  /** TFTP_MODE_OCTET */
  const OCTET: seq<byte> := NameBytes("octet")

  /** A run of the transfer of file under this name, over the network, that made these callbacks. */
  ghost predicate Fetching(
      file: seq<byte>, name: string, actions: seq<TftpNet.Action>, cfg: Tftp.Config, calls: seq<TftpNet.Call>)
  {
    && cfg.Valid() && TftpRuns.Sendable(NameBytes(name), OCTET)
    && var y := TftpNet.Start(NameBytes(name), OCTET);
       && TftpRuns.Possible(y, actions, file, cfg) && TftpRuns.Harmless(y, actions, file, cfg)
       && TftpRuns.After(y, actions, file, cfg).calls == calls
  }

  /** A transfer of name that got as far as script: of a file, what some run over the network makes
      happen; without the file, nothing or an ERROR. */
  ghost predicate Serves(remote: Remote, name: string, script: seq<Callback>) {
    if name in remote then
      exists actions: seq<TftpNet.Action>, cfg: Tftp.Config :: Fetching(remote[name], name, actions, cfg, CallsOf(script))
    else script == [] || script == [Abort]
  }

  /** What a run over the network makes of the client. */
  lemma FetchingTransfers(
      file: seq<byte>, name: string, actions: seq<TftpNet.Action>, cfg: Tftp.Config, calls: seq<TftpNet.Call>)
    requires Fetching(file, name, actions, cfg, calls)
    ensures var z := TftpRuns.After(TftpNet.Start(NameBytes(name), OCTET), actions, file, cfg);
      TftpNet.Transferring(file, calls, z.client.open, z.expected)
  {
    hide TftpNet.Transferring, TftpNet.Blocks, TftpNet.Before;
    TftpRuns.TransferInStep(NameBytes(name), OCTET, actions, file, cfg);
  }

  lemma {:induction false} ChainOfBlocks(file: seq<byte>, script: seq<Callback>, k: nat)
    requires k <= |script| && k <= TftpNet.Blocks(file)
    requires forall i | 0 <= i < k :: script[i].Block? && Flatten(script[i].chain) == TftpNet.BlockAt(file, i + 1)
    ensures Flatten(Chain(script[..k])) == TftpNet.Before(file, k + 1)
    decreases k
  {
    hide TftpNet.BlockAt, TftpNet.Before;
    if k == 0 {
      TftpNet.BlockFacts(file, 1);
      BeforeFirst(file);
    } else {
      ChainOfBlocks(file, script, k - 1);
      assert script[..k] == script[..k - 1] + [script[k - 1]];
      ChainLast(script[..k - 1], script[k - 1]);
      FlattenConcat(Chain(script[..k - 1]), script[k - 1].chain);
      TftpNet.BlockFacts(file, k);
    }
  }

  lemma BeforeFirst(file: seq<byte>)
    ensures TftpNet.Before(file, 1) == []
  {
  }

  lemma ChainFirst(c: Callback, script: seq<Callback>)
    ensures Chain([c] + script) == (if c.Abort? then [] else c.chain) + Chain(script)
  {
    assert ([c] + script)[1..] == script;
  }

  lemma {:induction false} ChainLast(script: seq<Callback>, c: Callback)
    ensures Chain(script + [c]) == Chain(script) + (if c.Abort? then [] else c.chain)
    decreases |script|
  {
    var last := if c.Abort? then [] else c.chain;
    if script == [] {
      ChainFirst(c, []);
      assert [] + [c] == [c] + [];
      assert Chain([]) == [] && last + [] == [] + last;
    } else {
      hide Chain;
      var rest := script[1..];
      assert [script[0]] + rest == script;
      ChainLast(rest, c);
      ChainFirst(script[0], rest + [c]);
      ChainFirst(script[0], rest);
      Associative([script[0]], rest, [c]);
      Associative(if script[0].Abort? then [] else script[0].chain, Chain(rest), last);
    }
  }

  /** A transfer is under way, has broken off, or has ended with the whole file. */
  lemma ServesCases(remote: Remote, name: string, script: seq<Callback>)
    requires Serves(remote, name, script)
    ensures Pending(script) || Ends(script) || Breaks(script)
    ensures Ends(script) ==> name in remote && Flatten(Chain(script)) == remote[name]
  {
    hide TftpNet.BlockAt, TftpNet.Blocks, TftpNet.Before;
    if name in remote {
      var file := remote[name];
      var actions, cfg :| Fetching(file, name, actions, cfg, CallsOf(script));
      FetchingTransfers(file, name, actions, cfg, CallsOf(script));
      var z := TftpRuns.After(TftpNet.Start(NameBytes(name), OCTET), actions, file, cfg);
      var o, expected := z.client.open, z.expected;
      hide Fetching;
      assert forall i | 0 <= i < |script| :: CallsOf(script)[i] == CallOf(script[i]);
      if Ends(script) {
        EndsWithFile(file, script, o, expected);
      }
    }
  }

  lemma EndsWithFile(file: seq<byte>, script: seq<Callback>, o: bool, expected: nat)
    requires TftpNet.Transferring(file, CallsOf(script), o, expected) && Ends(script)
    ensures Flatten(Chain(script)) == file
  {
    hide TftpNet.BlockAt, TftpNet.Before;
    var n := |script| - 1;
    assert CallsOf(script)[n] == CallOf(script[n]);
    assert expected == TftpNet.Blocks(file) + 1 && n == TftpNet.Blocks(file) - 1;
    forall i | 0 <= i < n
      ensures script[i].Block? && Flatten(script[i].chain) == TftpNet.BlockAt(file, i + 1)
    {
      assert CallsOf(script)[i] == CallOf(script[i]) == TftpNet.FullBlocks(file, n)[i];
    }
    ChainOfBlocks(file, script, n);
    assert script == script[..n] + [script[n]];
    ChainLast(script[..n], script[n]);
    FlattenConcat(Chain(script[..n]), script[n].chain);
    TftpNet.BlockFacts(file, n + 1);
  }

  /** A complete transfer of the file, each block in a single buffer. */
  function WholeTransfer(file: seq<byte>): (script: seq<Callback>)
    ensures |script| == TftpNet.Blocks(file)
  {
    seq(TftpNet.Blocks(file) - 1, i requires 0 <= i < TftpNet.Blocks(file) - 1 => Block([TftpNet.BlockAt(file, i + 1)]))
      + [Last([TftpNet.BlockAt(file, TftpNet.Blocks(file))])]
  }

  lemma WholeCalls(file: seq<byte>)
    ensures CallsOf(WholeTransfer(file)) == TftpRuns.AllCalls(file) && Ends(WholeTransfer(file))
  {
    hide TftpNet.BlockAt;
    forall b: seq<byte> ensures Flatten([b]) == b {
      assert [b][1..] == [];
      assert Flatten([b]) == b + [];
    }
  }

  /** For every file with a proper name there is a run over the network that ends with all of it. */
  lemma WholeTransferServes(remote: Remote, name: string)
    requires name in remote && |name| < 0x1000 && 0 !in NameBytes(name)
    ensures Serves(remote, name, WholeTransfer(remote[name])) && Ends(WholeTransfer(remote[name]))
  {
    hide TftpNet.BlockAt, TftpRuns.AllCalls;
    var file := remote[name];
    var cfg := Tftp.Config(Request.Limits(|name|, |OCTET|), 0, 0);
    var actions := TftpRuns.TransferCanComplete(NameBytes(name), OCTET, file, cfg);
    WholeCalls(file);
    assert Fetching(file, name, actions, cfg, CallsOf(WholeTransfer(file)));
  }

  // ---------------------------------------------------------------- the segment fetch

  lemma {:induction false} TransferKeepsMode(g: Gate, script: seq<Callback>)
    requires Sized(g) && (g.packetMode || g.packetNumber == 0)
    ensures Transfer(g, script).packetMode == g.packetMode
    ensures Transfer(g, script).gets == g.gets
    decreases |script|
  {
    if script != [] && script[0].Block? {
      TransferKeepsMode(Write(g, script[0].chain), script[1..]);
    }
  }

  /** How a segment fetch can end: not at all, broken off with nothing sent, or with the buffer
      holding the file and packet 0 sent from it. */
  ghost predicate FetchedAs(g: Gate, f: Gate, request: u32, script: seq<Callback>, remote: Remote) {
    var name := SegmentName(SegmentOf(request));
    && Sized(f) && !f.packetMode && f.segment == SegmentOf(request) && f.gets == g.gets + [name]
    && (f.handled ==> Ends(script) && f.segment != 0)
    && (!Ends(script) ==> f.line == g.line && (f.handling <==> Pending(script)))
    && (Ends(script) ==> name in remote && Holds(f.buffer, f.written, remote[name]))
    && (Ends(script) && f.segment == 0 ==> f.handling && f.line == g.line)
    && (Ends(script) && f.segment != 0 ==>
        && !f.handling && (f.handled <==> f.written != 0)
        && f.line == if f.written == 0 then SendUnauthorized(g.line).1
                     else SendPacket(g.line, PacketOf(f.segment, 0, f.buffer[..f.written])).1)
  }

  lemma FetchBegins(g: Gate, request: u32, data: seq<byte>, chain: seq<seq<byte>>)
    requires Sized(g) && Flatten(chain) == data
    ensures var begun := SegmentOpen(Forget(g, request)).(gets := g.gets + [SegmentName(SegmentOf(request))]);
      var w := Write(begun, chain);
      && w == begun.(buffer := w.buffer, written := w.written) && Holds(w.buffer, w.written, data)
  {
    StoreAllHolds(g.buffer, 0, [], data);
    assert [] + data == data;
  }

  lemma CloseSends(w: Gate)
    requires Sized(w) && !w.packetMode && w.packetNumber == 0 && w.segment != 0 && w.handling && w.segment < 0x100_0000
    ensures var f := Close(w);
      && f == w.(handled := w.written != 0, handling := false, prologSent := false, line := f.line,
                 packetOffset := f.packetOffset)
      && f.line == if w.written == 0 then SendUnauthorized(w.line).1
                   else SendPacket(w.line, PacketOf(w.segment, 0, w.buffer[..w.written])).1
  {
    hide Packetized, PacketOf, SendPacket, SendUnauthorized;
    if w.written != 0 {
      PacketizedInRange(w.buffer, w.written, w.segment, 0);
    }
  }

  lemma SegmentFetch(g: Gate, request: u32, script: seq<Callback>, remote: Remote)
    requires Sized(g) && Serves(remote, SegmentName(SegmentOf(request)), script)
    ensures FetchedAs(g, FetchSegment(g, request, script), request, script, remote)
  {
    hide Write, Close, Serves, SegmentName, Transfer, Holds, SendPacket, SendUnauthorized, PacketOf;
    var name := SegmentName(SegmentOf(request));
    ServesCases(remote, name, script);
    var begun := SegmentOpen(Forget(g, request)).(gets := g.gets + [name]);
    SplitMakesNoDifference(begun, script);
    TransferKeepsMode(begun, script);
    FetchBegins(g, request, Flatten(Chain(script)), Chain(script));
    var w := Write(begun, Chain(script));
    if script != [] && Ends(script) {
      if begun.segment != 0 {
        CloseSends(w);
      } else {
        ClosedAlready(w);
      }
    }
    if script != [] && Breaks(script) {
      ClosedAlready(Fail(w));
      ClosedAlready(Fail(begun));
    }
  }

  lemma ClosedAlready(g: Gate)
    requires Sized(g) && (g.packetMode || Sendable(g)) && (g.segment == 0 || !g.handling)
    ensures Close(g) == g
  {
  }

  // ---------------------------------------------------------------- coherence

  /** Between requests, a segment the gateway would answer from is the one the server holds. */
  ghost predicate Coherent(g: Gate, remote: Remote) {
    && Sized(g)
    && (!g.packetMode && g.segment != 0 ==>
        var name := SegmentName(g.segment);
        name in remote && g.written != 0 && Holds(g.buffer, g.written, remote[name]))
  }

  /** The transfers that go with a request are transfers of what the server holds. */
  ghost predicate Served(remote: Remote, request: u32, segments: seq<Callback>, packets: seq<Callback>) {
    Serves(remote, SegmentName(SegmentOf(request)), segments) && Serves(remote, PacketName(request), packets)
  }

  lemma AfterSegmentKeeps(g: Gate, request: u32, packets: seq<Callback>, remote: Remote)
    requires Sized(g) && (g.handled ==> Coherent(g, remote))
    ensures Coherent(AfterSegment(g, request, packets).gate, remote)
  {
    hide Transfer, Holds, PacketName, SegmentName;
    if !g.handled {
      var begun := PacketOpen(g.(handling := true)).(gets := g.gets + [PacketName(request)]);
      TransferKeepsMode(begun, packets);
    }
  }

  /** Whatever was asked for and however its transfers went, once the request is over the cache
      agrees with the server. */
  lemma RequestKeepsCoherent(g: Gate, request: u32, segments: seq<Callback>, packets: seq<Callback>, remote: Remote)
    requires Coherent(g, remote) && Askable(g, request) && Served(remote, request, segments, packets)
    ensures var a := HandleRequest(g, request, segments, packets); a.Answer? ==> Coherent(a.gate, remote)
  {
    hide Transfer, Holds, SendPacket, Packetized, AfterSegment, FetchSegment, SegmentName, PacketName, Serves, Sealed;
    if request != TIME_REQUEST && !Hit(g, request) {
      if NumberOf(request) == 0 {
        SegmentFetch(g, request, segments, remote);
        var f := FetchSegment(g, request, segments);
        AfterSegmentKeeps(f, request, packets, remote);
      } else {
        AfterSegmentKeeps(Forget(g, request), request, packets, remote);
      }
    }
  }

  /** One command from the line: what comes in while it is served, and how its transfers go. */
  datatype Exchange = Exchange(heard: seq<u16>, segments: seq<Callback>, packets: seq<Callback>)

  function Hearing(g: Gate, heard: seq<u16>): Gate {
    g.(line := Line(heard, g.line.out))
  }

  ghost predicate Feasible(g: Gate, exchanges: seq<Exchange>, remote: Remote)
    decreases |exchanges|
  {
    exchanges == [] ||
      (var e := exchanges[0];
       var h := Hearing(g, e.heard);
       var request := ReadRequest(e.heard).0;
       && RequestOk(h)
       && (request.Some? ==> Served(remote, request.value, e.segments, e.packets))
       && var a := PacketRequest(h, e.segments, e.packets);
          a.Answer? && Feasible(a.gate, exchanges[1..], remote))
  }

  function Serve(g: Gate, exchanges: seq<Exchange>, remote: Remote): Gate
    requires Feasible(g, exchanges, remote)
    decreases |exchanges|
  {
    if exchanges == [] then g
    else
      var e := exchanges[0];
      Serve(PacketRequest(Hearing(g, e.heard), e.segments, e.packets).gate, exchanges[1..], remote)
  }

  lemma ExchangeKeepsCoherent(g: Gate, e: Exchange, remote: Remote)
    requires Coherent(g, remote) && RequestOk(Hearing(g, e.heard))
    requires var request := ReadRequest(e.heard).0;
      request.Some? ==> Served(remote, request.value, e.segments, e.packets)
    ensures var a := PacketRequest(Hearing(g, e.heard), e.segments, e.packets); a.Answer? ==> Coherent(a.gate, remote)
  {
    hide HandleRequest, ReadRequest, Served, Holds, SegmentName;
    var h := Hearing(g, e.heard);
    var request := ReadRequest(e.heard).0;
    if request.Some? {
      RequestKeepsCoherent(Asked(h), request.value, e.segments, e.packets, remote);
    }
  }

  /** Over every sequence of requests, garbled ones included, and every outcome of their transfers. */
  lemma {:induction false} AlwaysCoherent(g: Gate, exchanges: seq<Exchange>, remote: Remote)
    requires Coherent(g, remote) && Feasible(g, exchanges, remote)
    ensures Coherent(Serve(g, exchanges, remote), remote)
    decreases |exchanges|
  {
    hide PacketRequest, ReadRequest, Served, Coherent;
    if exchanges != [] {
      var e := exchanges[0];
      ExchangeKeepsCoherent(g, e, remote);
      AlwaysCoherent(PacketRequest(Hearing(g, e.heard), e.segments, e.packets).gate, exchanges[1..], remote);
    }
  }

  /** The gateway starts coherent, so it stays so. */
  lemma CoherentFromStart(exchanges: seq<Exchange>, remote: Remote)
    requires Feasible(Initial(Line([], [])), exchanges, remote)
    ensures Coherent(Serve(Initial(Line([], [])), exchanges, remote), remote)
  {
    AlwaysCoherent(Initial(Line([], [])), exchanges, remote);
  }

  // ---------------------------------------------------------------- a hit is as good as a fetch

  predicate InSegment(request: u32, file: seq<byte>) {
    NumberOf(request) * MAX_PAYLOAD < |file| < 0x1_0000
  }

  /** A hit sends the requested packet of the server's file, and leaves the cache alone. */
  lemma HitSends(g: Gate, request: u32, segments: seq<Callback>, packets: seq<Callback>, remote: Remote)
    requires Coherent(g, remote) && Hit(g, request) && g.segment != 0
    requires InSegment(request, remote[SegmentName(g.segment)])
    ensures Askable(g, request)
    ensures var a := HandleRequest(g, request, segments, packets);
      && a.Answer?
      && (a.ok, a.gate.line)
           == SendPacket(g.line, PacketOf(g.segment, NumberOf(request), remote[SegmentName(g.segment)]))
      && a.gate == g.(handled := false, handling := true, line := a.gate.line,
                      packetNumber := NumberOf(request), packetOffset := a.gate.packetOffset)
  {
    hide Packetized, PacketOf, SendPacket, SegmentName;
    var file := remote[SegmentName(g.segment)];
    BufferIsFileIff(g.buffer, g.written, file);
    PacketizedInRange(g.buffer, g.written, g.segment, NumberOf(request));
  }

  /** A fetch that ends sends packet 0 of the server's file. */
  lemma FetchSends(g: Gate, request: u32, segments: seq<Callback>, packets: seq<Callback>, remote: Remote)
    requires Sized(g) && Serves(remote, SegmentName(SegmentOf(request)), segments)
    requires !Hit(g, request) && request != TIME_REQUEST && NumberOf(request) == 0 && SegmentOf(request) != 0
    requires Ends(segments) && SegmentName(SegmentOf(request)) in remote
    requires 0 < |remote[SegmentName(SegmentOf(request))]| < 0x1_0000
    ensures var name := SegmentName(SegmentOf(request));
      var a := HandleRequest(g, request, segments, packets);
      && a.Answer? && a.ok
      && a.gate.line == SendPacket(g.line, PacketOf(SegmentOf(request), 0, remote[name])).1
      && Coherent(a.gate, remote) && !a.gate.packetMode && a.gate.segment == SegmentOf(request)
      && a.gate.gets == g.gets + [name]
  {
    hide PacketOf, SendPacket, SegmentName, FetchSegment, Serves;
    SegmentFetch(g, request, segments, remote);
    var f := FetchSegment(g, request, segments);
    BufferIsFileIff(f.buffer, f.written, remote[SegmentName(f.segment)]);
  }

  /** Where the cache answers and where the file is fetched anew, the same packet is sent. */
  lemma HitIsFresh(g: Gate, h: Gate, request: u32, segments: seq<Callback>, packets: seq<Callback>, remote: Remote)
    requires Coherent(g, remote) && Hit(g, request) && SegmentOf(request) != 0 && NumberOf(request) == 0
    requires Sized(h) && !Hit(h, request) && h.line == g.line
    requires Served(remote, request, segments, packets) && Ends(segments)
    requires |remote[SegmentName(g.segment)]| < 0x1_0000
    ensures SegmentName(g.segment) in remote && Askable(g, request)
    ensures HandleRequest(g, request, segments, packets).gate.line == HandleRequest(h, request, segments, packets).gate.line
  {
    hide HandleRequest, PacketOf, SendPacket, SegmentName, Serves;
    HitSends(g, request, segments, packets, remote);
    FetchSends(h, request, segments, packets, remote);
  }

  // ---------------------------------------------------------------- all or nothing

  /** Over a network that loses, duplicates and reorders: as long as the transfer of a segment is not
      complete, nothing at all is sent to the machine on account of it. */
  lemma NothingUntilComplete(
      actions: seq<TftpNet.Action>, cfg: Tftp.Config, g: Gate, request: u32, script: seq<Callback>, remote: Remote)
    requires Sized(g) && SegmentName(SegmentOf(request)) in remote
    requires var name := SegmentName(SegmentOf(request)); Fetching(remote[name], name, actions, cfg, CallsOf(script))
    ensures var name := SegmentName(SegmentOf(request));
      var z := TftpRuns.After(TftpNet.Start(NameBytes(name), OCTET), actions, remote[name], cfg);
      var f := FetchSegment(g, request, script);
      f.line != g.line ==> z.written == remote[name] && !z.client.open && Holds(f.buffer, f.written, remote[name])
  {
    hide FetchSegment, SegmentName, Holds, Pending, SendPacket, PacketOf;
    var name := SegmentName(SegmentOf(request));
    TftpRuns.TransferComplete(NameBytes(name), OCTET, actions, remote[name], cfg);
    SegmentFetch(g, request, script, remote);
    if Ends(script) {
      assert CallsOf(script)[|script| - 1] == CallOf(script[|script| - 1]);
      assert CallsOf(script)[|script| - 1].Finished?;
    }
  }

  /** A request the server has no file for is refused with 0x90 0x10 0x06 and nothing else, and is
      not taken for a hit when it is made again. */
  lemma NotFoundRefused(g: Gate, request: u32, remote: Remote)
    requires Sized(g) && !Hit(g, request) && request != TIME_REQUEST
    ensures var a := HandleRequest(g, request, [Abort], [Abort]);
      && a == Answer(false, a.gate) && a.gate.line == g.line.Plus([0x90, 0x10, 0x06])
      && !a.gate.handling && !Hit(a.gate, request) && Coherent(a.gate, remote)
      && a.gate.gets == g.gets + (if NumberOf(request) == 0 then [SegmentName(SegmentOf(request))] else [])
                        + [PacketName(request)]
  {
    hide SegmentName, PacketName;
  }

  // ---------------------------------------------------------------- prepared packets

  /** A prepared packet that arrives is framed as it is. */
  lemma PacketFetch(g: Gate, request: u32, script: seq<Callback>)
    requires Sized(g) && g.segment != 0 && Ends(script)
    ensures var f := FetchPacket(g, request, script);
      && f.handled && !f.handling && f.packetMode && f.segment == 0
      && f.line == OpenFrame(g.line).Plus(FrameOf(Flatten(Chain(script))))
  {
    hide OpenFrame, Stuff, PacketName, Flatten, Transfer;
    var begun := PacketOpen(g.(handling := true)).(gets := g.gets + [PacketName(request)]);
    SplitMakesNoDifference(begun, script);
    PlusPlus(OpenFrame(g.line), Stuff(Flatten(Chain(script))), EPILOG);
  }

  /** What a fetch of a prepared packet sends: the prolog before the first block, the blocks stuffed,
      and the terminator after the short block. */
  lemma PacketFetchSends(g: Gate, request: u32, script: seq<Callback>)
    requires Sized(g) && g.segment != 0
    requires Pending(script) || Ends(script) || Breaks(script)
    ensures var f := FetchPacket(g, request, script);
      var sent := if script == [] || script == [Abort] then [] else [0x91] + Stuff(Flatten(Chain(script)));
      && f.packetMode && f.gets == g.gets + [PacketName(request)]
      && f.handling == Pending(script) && f.handled == (Ends(script) || (Pending(script) && g.handled))
      && f.segment == (if Ends(script) then 0 else g.segment)
      && f.line.out == g.line.out + sent + (if Ends(script) then [0x10, 0xE1] else [])
      && f.buffer == g.buffer && f.written == 0
      && (Ends(script) ==> f.packetNumber == 0 && f.packetOffset == 0)
      && f.prologSent == (sent != [] && !Ends(script))
  {
    hide OpenFrame, Stuff, PacketName, Flatten, Transfer;
    var begun := PacketOpen(g.(handling := true)).(gets := g.gets + [PacketName(request)]);
    SplitMakesNoDifference(begun, script);
    TransferKeepsMode(begun, script);
    PrologUnchecked(g.line);
    if script != [] {
      assert g.line.out + [0x91] + Stuff(Flatten(Chain(script))) == g.line.out + ([0x91] + Stuff(Flatten(Chain(script))));
      if |script| == 1 && Breaks(script) {
        assert script == [Abort];
      }
    }
    assert g.line.out + [] == g.line.out;
  }

  /** The segment itself cannot be had: the machine does not ask for its first packet, the attempt to
      fetch it broke off, or nothing was left of it when the write pointer had wrapped. */
  ghost predicate NotInOnePiece(request: u32, segments: seq<Callback>, remote: Remote) {
    || NumberOf(request) != 0
    || Breaks(segments)
    || (Ends(segments) && var name := SegmentName(SegmentOf(request)); name in remote && |remote[name]| % 0x1_0000 == 0)
  }

  lemma UntilPacketFetch(g: Gate, request: u32, segments: seq<Callback>, packets: seq<Callback>, remote: Remote)
    requires Sized(g) && !Hit(g, request) && request != TIME_REQUEST && SegmentOf(request) != 0
    requires Served(remote, request, segments, packets) && NotInOnePiece(request, segments, remote)
    ensures exists h: Gate ::
      && Sized(h) && !h.handled && h.segment == SegmentOf(request)
      && HandleRequest(g, request, segments, packets) == AfterSegment(h, request, packets)
      && h.gets == g.gets + (if NumberOf(request) == 0 then [SegmentName(SegmentOf(request))] else [])
      && h.line.out == g.line.out + if NumberOf(request) == 0 && Ends(segments) then [0x90] else []
  {
    hide FetchSegment, AfterSegment, SegmentName, PacketName, Serves, SendUnauthorized;
    assert g.line.out + [] == g.line.out && g.gets + [] == g.gets;
    if NumberOf(request) == 0 {
      OneKind(segments);
      SegmentFetch(g, request, segments, remote);
      RefusalSent(g.line);
      var h := FetchSegment(g, request, segments);
      assert HandleRequest(g, request, segments, packets) == AfterSegment(h, request, packets);
    } else {
      var h := Forget(g, request);
      assert HandleRequest(g, request, segments, packets) == AfterSegment(h, request, packets);
    }
  }

  /** A request that is no hit and whose segment cannot be had is answered with the prepared packet
      asked for by its name: its whole frame when the transfer ends; whatever had come of it and then
      0x90 0x10 0x06 when it breaks off; and never while it is pending. */
  lemma PreparedPacketAnswer(g: Gate, request: u32, segments: seq<Callback>, packets: seq<Callback>, remote: Remote)
    requires Sized(g) && !Hit(g, request) && request != TIME_REQUEST && SegmentOf(request) != 0
    requires Served(remote, request, segments, packets) && NotInOnePiece(request, segments, remote)
    ensures var a := HandleRequest(g, request, segments, packets);
      var refused := if NumberOf(request) == 0 && Ends(segments) then [0x90] else [];
      var sent := if packets == [] || packets == [Abort] then [] else [0x91] + Stuff(Flatten(Chain(packets)));
      && Sized(a.gate) && a.gate.packetMode
      && a.gate.gets == g.gets + (if NumberOf(request) == 0 then [SegmentName(SegmentOf(request))] else [])
                        + [PacketName(request)]
      && a.gate.written == 0 && a.gate.prologSent == (sent != [] && !Ends(packets))
      && (Ends(packets) ==> a.gate.segment == 0 && a.gate.packetNumber == 0 && a.gate.packetOffset == 0)
      && (Ends(packets) ==> a == Answer(true, a.gate) && a.gate.line.out == g.line.out + refused + sent + [0x10, 0xE1])
      && (Breaks(packets) ==>
            a == Answer(false, a.gate) && a.gate.line.out == g.line.out + refused + sent + [0x90, 0x10, 0x06])
      && (Pending(packets) ==> a == Hung(a.gate) && a.gate.line.out == g.line.out + refused + sent)
  {
    hide HandleRequest, FetchPacket, SegmentName, PacketName, Serves, Flatten, Stuff, Hit;
    UntilPacketFetch(g, request, segments, packets, remote);
    var h: Gate :|
      && Sized(h) && !h.handled && h.segment == SegmentOf(request)
      && HandleRequest(g, request, segments, packets) == AfterSegment(h, request, packets)
      && h.gets == g.gets + (if NumberOf(request) == 0 then [SegmentName(SegmentOf(request))] else [])
      && h.line.out == g.line.out + if NumberOf(request) == 0 && Ends(segments) then [0x90] else [];
    ServesCases(remote, PacketName(request), packets);
    OneKind(packets);
    PacketFetchSends(h, request, packets);
  }

  lemma AcknowledgedProlog(line: Line)
    requires SendProlog(line).0
    ensures OpenFrame(line) == SendProlog(line).1
  {
  }

  lemma FramesDiffer(line: Line, a: seq<byte>, b: seq<byte>)
    ensures line.Plus(FrameOf(a)) == line.Plus(FrameOf(b)) <==> a == b
  {
    if line.Plus(FrameOf(a)) == line.Plus(FrameOf(b)) {
      var n := |line.out|;
      assert (line.out + FrameOf(a))[n..] == FrameOf(a);
      assert (line.out + FrameOf(b))[n..] == FrameOf(b);
      PrefixFree(a, b);
    }
  }

  /** Without the acknowledgement the gateway keeps its own packet back, but not a prepared one. */
  lemma UnacknowledgedIsShorter(line: Line, packet: seq<byte>, prepared: seq<byte>)
    requires !SendProlog(line).0
    ensures SendPacket(line, packet).1 != OpenFrame(line).Plus(FrameOf(prepared))
  {
    assert |SendPacket(line, packet).1.out| == |line.out| + 1;
    assert |OpenFrame(line).out| == |line.out| + 1;
  }

  lemma SameFrameIff(line: Line, packet: seq<byte>, prepared: seq<byte>)
    ensures OpenFrame(line).Plus(FrameOf(prepared)) == SendPacket(line, packet).1
      <==> SendProlog(line).0 && prepared == packet
  {
    hide OpenFrame, SendProlog, FrameOf;
    if SendProlog(line).0 {
      AcknowledgedProlog(line);
      FramesDiffer(OpenFrame(line), prepared, packet);
    } else {
      UnacknowledgedIsShorter(line, packet, prepared);
    }
  }

  /** The packet the tool prepared puts the same bytes on the line as the packet the gateway would
      make of the segment exactly when the machine acknowledges, the segment number is below 0x10000
      and the segment is more than a single packet. */
  lemma PakRouteIff(g: Gate, segment: u32, n: nat, data: seq<byte>, script: seq<Callback>, remote: Remote)
    requires Sized(g) && !g.handled && g.segment == segment && 0 < segment < 0x100_0000
    requires n < 0x100 && n * MAX_PAYLOAD < |data|
    requires var name := "/nabu/" + ToolName(segment, n);
      name in remote && remote[name] == PakOf(segment, n, data[n * MAX_PAYLOAD..])
    requires Serves(remote, PacketName(segment * 0x100 + n), script) && Ends(script)
    ensures var a := AfterSegment(g, segment * 0x100 + n, script);
      && a.Answer? && a.ok
      && ((a.gate.line == SendPacket(g.line, PacketOf(segment, n, data)).1)
        <==> (SendProlog(g.line).0 && segment < 0x1_0000 && !(n == 0 && |data| <= MAX_PAYLOAD)))
  {
    hide FetchPacket, PacketOf, PakOf, SendPacket, SendProlog, OpenFrame, FrameOf, ToolName, PacketName, Serves;
    var request := segment * 0x100 + n;
    NamesAgree(segment, n);
    ServesCases(remote, PacketName(request), script);
    PacketFetch(g, request, script);
    PakIsPacketIff(segment, n, data);
    SameFrameIff(g.line, PacketOf(segment, n, data), PakOf(segment, n, data[n * MAX_PAYLOAD..]));
  }

  // ---------------------------------------------------------------- segment 0, and nothing to send

  /** A request for segment 0 that is no hit is never answered once a transfer for it has ended:
      tftp_close returns before it looks at anything. */
  lemma SegmentZeroHangs(g: Gate, request: u32, segments: seq<Callback>, packets: seq<Callback>, remote: Remote)
    requires Sized(g) && !Hit(g, request) && SegmentOf(request) == 0
    requires Served(remote, request, segments, packets)
    requires if NumberOf(request) == 0 then Ends(segments) else Ends(packets)
    ensures HandleRequest(g, request, segments, packets).Hung?
  {
    hide SegmentName, PacketName, Serves, Transfer, StoreAll, OpenFrame, Flatten, Stuff;
    if NumberOf(request) == 0 {
      SegmentFetch(g, request, segments, remote);
    } else {
      var begun := PacketOpen(Forget(g, request).(handling := true)).(gets := g.gets + [PacketName(request)]);
      SplitMakesNoDifference(begun, packets);
      var w := Write(begun, Chain(packets));
      ClosedAlready(w);
    }
  }

  /** PacketizeSegment sends nothing, and says so, exactly when the segment number is 0 or 0xFFFFFFFF,
      the buffer is empty, or the packet would start where the segment ends. */
  lemma NothingSentIff(g: Gate)
    requires Sendable(g)
    ensures PacketizeSegment(g).1.line == g.line <==>
      g.segment == 0 || g.segment == 0xffff_ffff || g.written == 0 || g.packetNumber * 991 % 0x1_0000 == g.written
    ensures PacketizeSegment(g).1.line == g.line ==> !PacketizeSegment(g).0
    ensures var after := PacketizeSegment(g).1;
      after == g.(line := after.line,
                  packetOffset := if g.segment == 0 || g.segment == 0xffff_ffff || g.written == 0 then g.packetOffset
                                  else g.packetNumber * 991 % 0x1_0000)
  {
    hide SendPacket, Header, Sealed;
    if Packetized(g.buffer, g.written, g.segment, g.packetNumber).Some? {
      PacketSentIff(g.line, Packetized(g.buffer, g.written, g.segment, g.packetNumber).value);
    }
  }

  /** tftp_close on a prepared packet of which nothing was written: a refusal, and the segment is
      forgotten. */
  lemma UnwrittenPacketRefused(g: Gate)
    requires Sized(g) && g.packetMode && !g.prologSent && g.segment != 0 && g.handling
    ensures var f := Close(g);
      && !f.handled && !f.handling && f.segment == 0 && f.packetMode && f.line.out == g.line.out + [0x90]
  {
    RefusalSent(g.line);
  }

  lemma EmptyInBuffer(n: u16)
    ensures InBuffer(0, n)
  {
    var o := Offset(n);
    hide Offset;
    assert Remaining(0, n) == if o == 0 then 0 else 0x1_0000 - o;
  }

  lemma NothingForSegmentZero(g: Gate, request: u32)
    requires Sized(g) && Hit(g, request) && g.segment == 0 && g.written == 0
    ensures Askable(g, request)
    ensures var a := HandleRequest(g, request, [], []); a == Answer(false, a.gate) && a.gate.line == g.line
  {
    hide InBuffer, FetchSegment, AfterSegment, SendPacket, Packetized, Sealed;
    EmptyInBuffer(NumberOf(request));
  }

  /** A gateway just switched on has nothing cached: a request for segment 0 gets no answer at all,
      every other one but that for the time is fetched. */
  lemma SwitchedOn(line: Line, request: u32)
    ensures Hit(Initial(line), request) <==> request < 0x100
    ensures request < 0x100 ==> Askable(Initial(line), request)
    ensures request < 0x100 ==>
      var a := HandleRequest(Initial(line), request, [], []);
      a == Answer(false, a.gate) && a.gate.line == line
  {
    hide HandleRequest, InBuffer;
    if request < 0x100 {
      NothingForSegmentZero(Initial(line), request);
    }
  }
}
