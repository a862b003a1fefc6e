# A verified model of the NABU packet gateway

A NABU PC asks for packets over a serial line. The gateway fetches the file that
holds the segment over TFTP, keeps it, cuts it into packets with check bytes, and sends them
byte-stuffed over a differential line driven by two small PIO programs. This project models
the whole path in Dafny and proves that the machine at the end gets exactly the file the TFTP
server holds.

`dafny verify dfyconfig.toml` checks everything.

## How it is built

| module | what it is about |
|---|---|
| `Gf2`, `Register`, `Order`, `Crc`, `CrcTheory` | the CRC: polynomials over GF(2), the 16-bit register, the order of x, the table, error detection |
| `Frame`, `Duart` | byte stuffing and the frame terminator; the serial port and its bounded polling |
| `Packet`, `PakTool`, `Names` | the packetizer of the gateway, the packetizer of the tool, the file names |
| `Request`, `Tftp`, `TftpAnswers`, `TftpEngine`, `Wire` | TFTP requests; one endpoint as a function of its state and the event; what is sent and called when; the record the C code updates in place; datagrams as bytes |
| `TftpNet`, `TftpSafety`, `TftpRuns`, `TftpReplies`, `TftpLimits` | sender and receiver over a network that loses, duplicates and reorders; what answers what; exactly where the transfer goes wrong |
| `Gate`, `Gateway`, `Cache`, `Loader`, `Session` | the request handling as functions; the globals updated in place; what the cache keeps; the machine that loads a segment; both together |
| `LineCode`, `Receiver`, `Line`, `ClockRatio` | the line code tables, the two PIO programs cycle by cycle, unequal clocks |

Where the C code updates state in place there is a class (`TftpEngine.TftpState`,
`Gateway.Device`, `Duart.Port`, `Receiver.Machine`, `Line.Transmitter`) or a method over arrays.
Each of their methods is tied by its `ensures` to a function on the whole state, for example
`Outcome(State(), effects) == Tftp.Recv(old(State()), ...)`, and the theorems are about those
functions. Everything the outside decides (memory, the disk, the network, what arrives on
the line and when) is a parameter that the theorems quantify over.

The theorems about the gateway take its transfers from runs of `TftpNet`: `Cache.Serves` says that
the callbacks of a transfer are those of some run over the network. `Session.LoadAfter` and
`Line.Play` run the classes and promise what the theorems about the functions say.

What the theorems assume, because the code depends on it:

* A file loaded as a segment has 1 to 65535 bytes. `SegmentWritePtr` has sixteen bits;
  `Cache.BufferIsFileIff` shows that the buffer holds the file exactly below 65536 bytes.
* A requested packet lies inside the segment (`Cache.InSegment`). For other packet numbers only
  the reading of `SegmentBuffer` within its bounds is assumed (`Gate.Askable`).
* The segment is not 0 and not the time request's 0x7fffff (`Loader.Loadable`). With segment 0 a
  finished transfer is never noticed and the request hangs (`Gate.Hung`).
* Files on the server do not change, and only datagrams of the current transfer arrive:
  `tftp_get` does not record the peer.
* No delivered datagram is misread, that is, taken for one about another block because the numbers
  agree in sixteen bits (`TftpNet.Timely`). With at most 65535 blocks none can be
  (`TftpRuns.ShortIsTimely`), and a misread ACK does no harm if the receiver has the block the
  sender is at. `TftpLimits.BlockHarmlessIff` and `TftpLimits.AckHarmlessIff` say exactly when a
  datagram does harm, `TftpLimits.StaleBlockRun` and `TftpLimits.StaleAckRun` are runs in which it does.
* No ACK that matches meets a sender that has no `last_data` for want of memory
  (`TftpNet.Buffered`, the guard at `tftp.c:388`). Memory may run out at any time otherwise, and in
  the first session such an ACK cannot come. `TftpLimits.BufferNeededIff` says exactly when the
  missing buffer does harm, and in `TftpLimits.UnbufferedRun` the receiver writes a wrong block.
* `tftp_get` is called only when no transfer is under way; `handleRequest` waits for that.
* The line starts high. The transmit program itself begins with it low.

Six places where the result is not what a reader might expect:

* The two packetizers do not agree in general. Byte 0 of the tool's header is bits 24-31 of the
  segment, that of the gateway bits 16-23, and byte 11 of a single packet is 0x30 in one and 0xb1
  in the other. `PakTool.PakIsPacketIff` and `Cache.PakRouteIff` say exactly when they agree.
* In packet mode the acknowledgement of the prolog is not looked at and both of its bytes are
  waited for (`wifi.c:125-130`), unlike in `sendPacketProlog`. That is one of the conditions of
  `Cache.PakRouteIff`: a machine that does not acknowledge gets a prepared packet all the same.
* `tftp_put` starts with block number 1, but the server answers a write request with ACK 0, so the
  client refuses it, and no transfer ever comes of it (`Tftp.PutNeverStarts`, `Tftp.PutSendsNoData`,
  `Tftp.PutWritesNothing`). The gateway only ever gets files.
* The code of a received ERROR reaches `ctx->error` as it lies in memory, with its two bytes
  exchanged on the little-endian processor (`tftp.c:404`, `TftpAnswers.Failures`).
* After a broken-off prepared packet the machine gets the beginning of a frame and then 0x90 0x10
  0x06, with no terminator between them (`Cache.PreparedPacketAnswer`).
* The receiver program tolerates a transmitter cycle of 69/72 to 76/72 receiver cycles and no
  other ratio (`ClockRatio.RatioExact`).

## Model

| member | source | states |
|---|---|---|
| Crc.TableIsGenerated | crctab.h:1-24 | every table entry is its index, as the top byte, taken through eight steps of the bit-serial register |
| Crc.CrcUpdate | packet.c:26-35 | the table step equals xoring the byte into the top and eight bit-serial steps of division by 0x1021 |
| CrcTheory.CrcIsLongDivision | packet.c:191-194 | folding crc_update from 0xFFFF gives the remainder, by schoolbook long division, of the data bits (first sixteen complemented) followed by sixteen zeros |
| CrcTheory.CrcUnchangedIff | packet.c:191-198 | flipping bits leaves the CRC as it was if and only if the flips alone have remainder zero |
| CrcTheory.AcceptsIffSealed | packet.c:191-198 | a string runs through the CRC to 0x1D0F if and only if its last two bytes are the complemented CRC of the rest |
| CrcTheory.SealedAccepted | packet.c:191-198 | every packet with its check bytes leaves 0x1D0F |
| CrcTheory.BurstDetected | packet.c:26-35 | every non-zero error within sixteen consecutive bits is detected, wherever it falls in a packet of any length |
| CrcTheory.OddDetected | packet.c:26-35 | every error of an odd number of bits is detected in a packet of any length |
| CrcTheory.PairUndetectedIff | packet.c:26-35 | two flipped bits go undetected if and only if their distance is a multiple of 32767 |
| CrcTheory.PairDetected | packet.c:191-198 | any two flipped bits in a packet of at most 1009 bytes are detected |
| Order.OrderOfX | crctab.h:1-24 | x has multiplicative order 32767 modulo the CRC polynomial: x^d is 1 if and only if 32767 divides d |
| Frame.RoundTrip | duart.c:106-121 | a reader that collapses 0x10 0x10 and stops at 0x10 0xE1 gets exactly the data and leaves exactly what follows the frame |
| Frame.ReadIsFrame | packet.c:51-62 | only frames read as frames: whatever the reader accepts is the frame of what it returns |
| Frame.StuffConcat | duart.c:115-121 | stuffing in pieces is stuffing the whole |
| Frame.StuffedIsIncomplete | duart.c:106-113 | stuffed data never contains the terminator as the reader sees it |
| Frame.PrefixFree | packet.c:51-62 | no frame is a proper prefix of another, and frames of different data differ |
| Duart.Port.SendByte | duart.c:106-113 | 0x10 goes out doubled, every other byte once |
| Duart.Port.SendBytes | duart.c:115-121 | the output grows by the stuffed first size bytes of the buffer |
| Duart.Port.ReadByteTimeout | duart.c:67-76 | polls at most Timeout times and takes the first byte that comes |
| Duart.Port.ReadByteExpected | duart.c:48-65 | 0, 1 or 2 for the expected byte, another one, or none within Timeout polls |
| Duart.PollFindsFirst | duart.c:48-76 | a byte that comes in poll k is found if and only if k is below the timeout |
| Duart.ExpectIff | duart.c:48-65 | the code is 0, 1 or 2 if and only if the first byte in time is the expected one, another one, or there is none; nothing after that byte is taken |
| Packet.SegmentPartition | packet.c:154-198 | for segments up to 65536 bytes: the payloads put together are the segment, none is empty, only the final packet is marked last, the 16-bit offset is the true start, every packet fits in 1009 bytes |
| Packet.PacketHeader | packet.c:168-184 | read back by value, the header of every packet gives segment, packet number, true start of the payload, end mark (bit 0x10) and kind (0xa1 for packet 0, else 0x20), and the seven bytes that never change |
| Packet.ReadPacketOf | packet.c:163-198 | a packet's check bytes agree, and stripping header and check bytes gives back its payload and its last flag |
| Packet.PacketizedInRange | packet.c:132-198 | inside the segment the 16-bit arithmetic of PacketizeSegment yields that packet of the segment |
| PakTool.WritePacket | tools/packetize.c:49-88 | the file is header, payload of at most 991 bytes and the check bytes over both; the size of the payload is returned |
| PakTool.Packetize | tools/packetize.c:129-143 | one file for each 991 bytes, under the right name, each cut from the right place |
| PakTool.PakReads | tools/packetize.c:56-86 | every prepared packet reads back as its payload and end mark, with agreeing check bytes; its header by value, 0x30 in byte 11 for the only packet of a segment |
| PakTool.PakIsPacketIff | tools/packetize.c:56-71 | the tool's packet equals the gateway's if and only if bits 16-23 of the segment equal bits 24-31 and the segment is not a single packet |
| PakTool.ToolAgreesIff | tools/packetize.c:108-114 | for every segment number the tool accepts: the two agree if and only if it is below 0x10000 and the segment is not a single packet |
| Names.HexIsFixed | wifi.c:184 | %0wx of a number that fits prints exactly its w digits |
| Names.NamesAgree | tools/packetize.c:131 | the tool's name of (segment, packet) is the name the gateway asks for |
| Names.NamesDistinct | wifi.c:197 | different requests ask for different files, different segments likewise |
| Names.SegmentNameFits | wifi.c:184 | a segment's name has 17 characters, none of them NUL, so a request can carry it |
| Names.NamesRead | wifi.c:184-197 | read back with a value for each character, the six digits are the segment and the eight the request, between /nabu/ and .nabu or .pak |
| Request.SendRequest | tftp.c:135-155 | the buffer filled by overlapping copies is opcode, name, NUL, mode, NUL |
| Request.ParsesIffWellFormed | tftp.c:284-298 | the 16-bit offset arithmetic accepts a request, with this name and mode, if and only if both strings are terminated and within the limits |
| Request.UnterminatedRefused | tftp.c:285-297 | a datagram without one of the terminators is refused by the u16 comparison |
| Request.RequestRoundTrip | tftp.c:136-150 | what send_request builds is parsed back to the same name and mode |
| Wire.SentIsTaken | tftp.c:120-192 | every datagram as bytes is decoded by tftp_recv's offsets and byte order to what was sent: operation, number, code, payload |
| Wire.SentIsThatLong | tftp.c:123-188 | an ACK has four bytes, a block four and its payload, an ERROR four, its message and a NUL |
| Wire.TakenIsWellSized | tftp.c:258-265 | a datagram is taken for a read or a write request only by its operation |
| Wire.RequestsServed | tftp.c:522-546 | what tftp_get sends is served with block 1 of that file, what tftp_put sends with ACK 0 |
| Wire.InitPacket | tftp.c:120-133 | operation and number in network order in the first four bytes |
| Wire.AckPacket | tftp.c:178-192 | the bytes of an ACK |
| Wire.ErrorPacket | tftp.c:157-176 | the bytes of an ERROR, its message and the NUL |
| Wire.DataPacket | tftp.c:224-238 | the bytes of a block |
| TftpEngine.TftpState.CloseHandle | tftp.c:100-118 | port, address and last_data are cleared, close is called once if there was a handle, the buffer is freed |
| TftpEngine.TftpState.SendData | tftp.c:214-240 | old buffer freed, new block read and sent under the current number, with both failures |
| TftpEngine.TftpState.RecvRequest | tftp.c:264-324 | every branch of a read or write request, up to the first block or ACK 0 |
| TftpEngine.TftpState.RecvData | tftp.c:326-364 | expected block written and acknowledged, previous block acknowledged again, anything else refused; closes on a short block |
| TftpEngine.TftpState.RecvAck | tftp.c:366-400 | the matching ACK sends the next block or closes after a short one |
| TftpEngine.TftpState.RecvError | tftp.c:401-407 | ctx->error and then close, only with a handle |
| TftpEngine.TftpState.Recv | tftp.c:242-414 | the whole of tftp_recv: state, datagrams and callbacks in order, and the received buffer freed on every path |
| TftpEngine.TftpState.Tick | tftp.c:416-439 | the timer: resend, count, give up |
| TftpEngine.TftpState.Get | tftp.c:522-533 | the client's request and the state it leaves |
| TftpEngine.TftpState.PutFile | tftp.c:535-546 | the client's write request and the state it leaves |
| TftpEngine.TftpState.Play | tftp.c:100-118 | over every sequence of events, buffers obtained minus released is 1 if last_data is held and else 0, and 0 without a handle |
| Tftp.SessionsBalance | tftp.c:344-356 | over every run each session begun is closed exactly once or still open, and without a handle there is no peer and no buffer |
| Tftp.LateDatagramsIgnored | tftp.c:326-333 | over every run in which no transfer is begun, a client without a handle calls nothing back, whatever arrives late, and gets no handle |
| Tftp.GivesUp | tftp.c:429-438 | for all timeouts and retry counts: a silent sender resends exactly the retry count and closes at tick timeout + retries + 1, neither earlier nor later |
| Tftp.GivesUpAfterPacket | tftp.c:260-261 | counted from any datagram of the peer: the session is open if and only if the silence since is at most timeout + retries ticks |
| Tftp.GivesUpWithoutBlock | tftp.c:430-437 | a session without last_data sends nothing and closes at tick timeout + 1, neither earlier nor later |
| Tftp.StrangersDoNotInterfere | tftp.c:251-256 | over every run, state, retry clock, datagrams and callbacks are those of the run without the datagrams of strangers, but for the error each of them gets |
| Tftp.PutNeverStarts | tftp.c:535-546 | a tftp_put to this file's own server fails: ACK 0 meets a client that waits for ACK 1, and the refusal closes the server's session |
| Tftp.PutSendsNoData | tftp.c:366-384 | over every run, with ACK 0 and errors in any number and order, the client of a tftp_put never sends a block |
| Tftp.PutWritesNothing | tftp.c:315-317 | over every run, a server that hears write requests and errors only sends ACK 0 and errors only and writes nothing |
| TftpAnswers.StrangerIff | tftp.c:251-252 | with a peer exactly that peer is heard, without one everybody |
| TftpAnswers.NotFound | tftp.c:303-306 | ERROR 1 if and only if a proper request meets a file that cannot be opened |
| TftpAnswers.Violations | tftp.c:272-337 | ERROR 2 in exactly these cases: an improper request, a block or ACK the session is not for, a failure to write or read |
| TftpAnswers.NoSuchOperation | tftp.c:408-410 | ERROR 4 if and only if the operation is unknown |
| TftpAnswers.WrongNumbers | tftp.c:360-383 | ERROR 5 if and only if a block is neither the expected nor the one before, or an ACK is not for the current block |
| TftpAnswers.Acknowledgements | tftp.c:341-359 | ACK n if and only if n is the number received and it was the expected block, written, or the one before; ACK 0 if and only if a write request was accepted |
| TftpAnswers.Blocks | tftp.c:318-394 | a block is sent if and only if it is the first after a read request or the next after a matching ACK, with what ctx->read gave |
| TftpAnswers.NothingElse | tftp.c:242-414 | no other datagram is sent, and none to anyone but the sender of the one received |
| TftpAnswers.Writes | tftp.c:341-344 | ctx->write is called if and only if the expected block arrives |
| TftpAnswers.Failures | tftp.c:401-406 | ctx->error is called if and only if an ERROR meets a session, with the bytes of its code exchanged |
| TftpAnswers.Openings | tftp.c:272-301 | a file is opened if and only if a proper request meets an idle server |
| TftpAnswers.Reads | tftp.c:231-238 | ctx->read is called if and only if a block is due and there is memory for it |
| TftpAnswers.Numbers | tftp.c:301-393 | what the block number is afterwards, in every case |
| TftpAnswers.HeldBlock | tftp.c:214-240 | which block is held afterwards, in every case |
| TftpAnswers.Belonging | tftp.c:312-321 | whose session it is and which way it goes, in every case |
| TftpAnswers.ClockAlone | tftp.c:421-425 | without a session the clock only counts |
| TftpAnswers.OnlyClientsAsk | tftp.c:525-538 | without the client's role tftp_get and tftp_put do nothing |
| TftpAnswers.Closing | tftp.c:344-407 | the session closes in exactly these cases, and is open afterwards if and only if it was or began and did not close |
| TftpSafety.NextKeeps | tftp.c:242-439 | every step of sender, receiver, timer or network that is neither misread nor a matching ACK without a buffer keeps the invariant of the transfer |
| TftpRuns.TransferInStep | tftp.c:326-400 | in every reachable state the receiver has written exactly the blocks before the one it waits for, each in one callback and in order, across u16 wrap; an open sender is there or one behind, or further back once a duplicate request has restarted it |
| TftpRuns.TransferComplete | tftp.c:386-397 | the short-block close of the receiver, and the last-ACK close of the sender, imply that the whole file is written; the transfer ends once |
| TftpRuns.ShortIsTimely | tftp.c:340-341 | in files of at most 65535 blocks no datagram is ever misread |
| TftpRuns.RepeatedBlockReacked | tftp.c:357-359 | a retransmitted block is acknowledged again and not written |
| TftpReplies.BlockReply | tftp.c:340-363 | in every reachable state: the ACK if the block is the awaited one or its number is the one before, ERROR 5 otherwise, exactly that one datagram; only the awaited block changes the client's place |
| TftpReplies.FailedWriteReply | tftp.c:344-347 | in every reachable state: a failure to write is answered with ERROR 2 and ends the transfer |
| TftpReplies.LateBlockReply | tftp.c:330-333 | in every reachable state: a block after the end is answered with ERROR 2 and changes nothing |
| TftpReplies.AckReply | tftp.c:380-397 | in every reachable state: the next block, nothing after the last, or ERROR 5, exactly that one datagram |
| TftpRuns.TransferCanComplete | tftp.c:300-324 | for every file, of any length, there is a run of one delivery for the request and two for each block that ends acknowledged with the whole file |
| TftpLimits.BlockHarmlessIff | tftp.c:340-344 | after a block arrives, what is written is the beginning of the file if and only if the block was not misread or has the content of the one that was due |
| TftpLimits.AckHarmlessIff | tftp.c:380-397 | after an ACK arrives, the sender is not ahead of the receiver if and only if the ACK was not misread or the receiver had the sender's block anyway |
| TftpLimits.StaleBlockRun | tftp.c:340-355 | for every file over 65536 blocks whose blocks 1 and 65537 differ: a run from the beginning that writes the wrong block |
| TftpLimits.StaleAckRun | tftp.c:380-397 | for every file over 65536 blocks: a run from the beginning that leaves the sender ahead of the receiver, or done too early |
| TftpLimits.BufferNeededIff | tftp.c:386-394 | after a matching ACK every datagram in flight is right if and only if last_data was there, or the next block happens to have the same content |
| TftpLimits.UnbufferedRun | tftp.c:224-227 | for every file whose blocks 1 and 2 differ: a run from the beginning, with a restart and no memory, in which the receiver writes block 1 as block 2 |
| Gateway.Device.SendPacketizedData | packet.c:57-62 | prolog, and only if acknowledged the stuffed packet and the epilog |
| Gate.AcknowledgedIff | packet.c:37-49 | an acknowledgement is exactly 0x10 0x06 as the next two bytes, each within 0x7FFFFFF polls; after a wrong first byte the second is not waited for |
| Gate.PacketSentIff | packet.c:37-62 | the stuffed packet and 0x10 0xE1 follow the 0x91 if and only if it was acknowledged, and nothing does otherwise |
| Gate.PrologUnchecked | wifi.c:125-130 | the prolog of a prepared packet is 0x91, and two bytes are taken whatever they are |
| Gate.TimeAnswer | wifi.c:166-169 | the time packet goes out in every state if it is acknowledged, and nothing but the line changes |
| Gate.RefusalSent | packet.c:44-49 | a refusal is 0x90 |
| Gate.RequestReadIff | main.c:82-108 | a request comes about if and only if four bytes come in time, and is the number they make |
| Gate.ShortRequestDropped | main.c:79-87 | a request cut short gets 0x10 0x06 and nothing else |
| Gateway.Device.SendTimePacket | packet.c:65-105 | the 27-byte time packet with its check bytes is sent |
| Gateway.Device.SealPacket | packet.c:191-198 | the complemented CRC over the packet buffer is put behind it |
| Gateway.Device.PacketizeSegment | packet.c:132-203 | the buffer loops send exactly the packet Packetized defines, or none, with the offset left as the source leaves it |
| Gateway.Device.Close | wifi.c:86-118 | the four outcomes of tftp_close and the flags they leave |
| Gateway.Device.Write | wifi.c:121-146 | the nested loops store, or stuff and send, all bytes of the chain in order, wrapping at 65536 |
| Gateway.Device.HandleRequest | wifi.c:162-216 | the whole of handleRequest: time packet, hit, segment fetch, prepared packet, refusal, or waiting for ever |
| Gateway.Device.PacketRequest | main.c:75-115 | the request is assembled from four bytes and handled |
| Cache.SplitMakesNoDifference | wifi.c:121-146 | however a transfer is divided into blocks and chains, it has the effect of one write |
| Cache.StoreAllHolds | wifi.c:136-142 | the buffer holds the tail of the data after the last wrap of the write pointer |
| Cache.BufferIsFileIff | packet.c:9-10 | the buffer holds the whole file if and only if it is shorter than 65536 bytes |
| Cache.WholeTransferServes | tftp.c:340-355 | for every file there is a run over the network whose callbacks hand over all of it |
| Cache.SegmentFetch | wifi.c:179-192 | a segment fetch stays pending, breaks off with nothing sent, or ends with the buffer holding the file and packet 0 (or a refusal if the pointer wrapped to 0) sent |
| Cache.NothingUntilComplete | wifi.c:148-160 | for every run over the lossy network: if a byte was sent on account of a segment fetch, the whole file had been received |
| Cache.RequestKeepsCoherent | wifi.c:162-216 | every request, whatever its transfers do, leaves a cache that agrees with the server |
| Cache.AlwaysCoherent | wifi.c:171-205 | over every sequence of requests and transfer outcomes, a segment the gateway would answer from is the server's, and not empty |
| Cache.HitSends | wifi.c:174-177 | a hit sends the requested packet of the server's file and leaves the cache as it was |
| Cache.FetchSends | wifi.c:179-192 | a fetch that ends sends packet 0 of the server's file and makes the cache ready |
| Cache.HitIsFresh | wifi.c:174-192 | a hit and a fresh fetch send the same bytes |
| Cache.NotFoundRefused | wifi.c:207-215 | without either file the answer is 0x90 0x10 0x06 and nothing else, and the next request is no hit |
| Cache.PakRouteIff | wifi.c:194-205 | a prepared packet puts the same bytes on the line as PacketizeSegment if and only if the machine acknowledges, the segment is below 0x10000 and it is not a single packet |
| Cache.PreparedPacketAnswer | wifi.c:179-215 | from any state that is no hit, for a packet other than 0 or after the segment could not be had: the whole frame when the transfer ends, what had come of it and then 0x90 0x10 0x06 when it breaks off, no answer while it is pending; the right file is asked for |
| Cache.UnwrittenPacketRefused | wifi.c:93-104 | tftp_close on a prepared packet of which nothing was written is a refusal that forgets the segment |
| Cache.SwitchedOn | wifi.c:171-177 | just switched on, only requests for segment 0 count as hits, and they get no answer |
| Cache.SegmentZeroHangs | wifi.c:89 | a finished transfer for segment 0 leaves the request hanging |
| Cache.NothingSentIff | packet.c:144-161 | PacketizeSegment sends nothing exactly for an invalid segment number, an empty buffer, or a packet that starts where the segment ends |
| Loader.MessageUnderstood | main.c:82-108 | the little-endian bytes of (segment, packet), with any delays, are assembled to segment * 256 + packet |
| Loader.LoadsFile | wifi.c:162-216 | from every reachable idle state, with transfers as runs over the lossy network bring them about, asking for packets 0, 1, 2, ... until one is marked last gives exactly the file, in ceil(size/991) requests, with at most one transfer and with time packets in between |
| Loader.EverySegmentLoads | wifi.c:162-216 | for every segment of 1 to 65535 bytes and every reachable idle state there are such turns, and the file is loaded |
| Loader.TimePacketTellsTime | packet.c:65-104 | the time packet reads back as the last packet of segment 0x7fffff with these nine bytes |
| Loader.LoadsPaks | wifi.c:194-205 | a segment that is on the server only as the tool's packets is loaded: the data the tool was given, up to 65536 bytes, from every reachable state |
| Session.Commands | main.c:75-115 | the class, over every sequence of commands, ends in the state the functions give, with a coherent cache |
| Session.AskPacket | wifi.c:174-192 | one request to the class, its reply read back: the payload of that packet and its last flag |
| Session.LoadAfter | wifi.c:162-216 | a gateway switched on, any commands, then a segment loaded through the class: the data are the server's file, in as many requests as it has packets |
| LineCode.FillTransmitTable | duart_tx.pio:35-45 | the loop writes for each byte the word of start pair, eight data pairs and stop pairs |
| LineCode.FillReceiveTable | duart_rx.pio:47-63 | the loops give the map that inverts the code of each byte and has 0xEFEF everywhere else |
| LineCode.TableInverts | duart_rx.pio:47-77 | an entry is a byte if and only if its index is the code of that byte, and 0xEFEF if and only if it is the code of none |
| LineCode.CodeInjective | duart_rx.pio:52-63 | different bytes have different sixteen-bit codes |
| LineCode.PairsAre | duart_tx.pio:36-44 | the pairs of a table word by value: start 0b10, each bit from the lowest up as 0b01 or 0b10, stop 0b01 |
| Receiver.Machine.Cycle | duart_rx.pio:1-17 | one cycle of the receive program, instruction by instruction |
| Receiver.Machine.Get | duart_rx.pio:71-78 | 0xFFFF from an empty FIFO, else the table entry for the upper half of the oldest word |
| Receiver.FrameTaken | duart_rx.pio:2-17 | the program samples at cycles 12 + 8k after the start edge, looks for the stop bit at 76, pushes at 77 and waits again: the pushed word is made of the eight samples |
| Receiver.FrameRefused | duart_rx.pio:9-13 | with the line low at the stop bit nothing is pushed and the error flag is raised |
| Receiver.Recovers | duart_rx.pio:11-13 | after a missing stop bit the program is ready again two cycles after the line went high |
| Line.Transmitter.Cycle | duart_tx.pio:5-8 | one cycle of the transmit program with autopull at 24 bits |
| Line.CycleConserves | duart_tx.pio:5-8 | in every cycle, received, under way and queued bytes together are the bytes written, in order |
| Line.LineDelivers | duart_rx.pio:1-17 | for every schedule of writes: received is always a prefix of written, at most two bytes are under way, and all arrives within 98 cycles a byte |
| Line.FrameOnLine | duart_tx.pio:6-8 | the levels of a frame by value, cycle by cycle: 96 cycles, eight for each bit, three stop bits |
| Line.Play | duart_rx.pio:71-78 | both tables filled, both machines run on any schedule of writes and reads: what is read is a prefix of what was written, and all of it when nothing is left |
| ClockRatio.Decodes | duart_rx.pio:15-16 | with a bit of 69/9 to 76/9 receiver cycles every sequence of bytes, with any real gaps and phase, is decoded unchanged |
| ClockRatio.RatioExact | duart_rx.pio:4-9 | every byte sequence is decoded unchanged if and only if the clock ratio is between 69/72 and 76/72 |

## Left out

- WiFi scanning and connecting, the configuration wizard, LittleFS, the USB console, reboot and printing: input and output only.
- lwIP and pico-sdk internals: a pbuf is a byte string with an owner, sending a datagram either happens or not.
- The `TFTP_*` timing and length constants are parameters; only the relations the code needs are required of them.
- The texts of TFTP error messages: only the codes are modelled.
- Datagrams shorter than their opcode and number: the source reads beyond them, the model has none.
- TFTP write requests over the network: the branches are in `Tftp`, but `TftpNet` composes read requests only; two endpoints of this file cannot complete a write (`Tftp.PutSendsNoData`).
- The number of `tftp_tmr` timeouts pending at once: each is a tick of its own.
- TftpRuns.TransferCanComplete: shows one run that completes; the client has no timer, so nothing is said about completion after a lost ACK when the server has given up.
- Progress of the `while(handling_request)` waits: a request may hang, and the model says when it does.
- `handleRequest` runs with the callbacks of one transfer after another; `sleep_ms` and the interrupt that delivers datagrams are not modelled otherwise.
- The console output of `packetRequest`, and the command loop that calls it.
- `ExpectPacketRequest` (unused), `tools/parsedir.c`, pin, baud and divider set-up.
- Serial modes 0, 1 and 3, and `suart_tx.pio` and `suart_rx.pio`, whose word formats lose bits.
- PakTool.Packetize: takes the loop index to start at 0, which the source leaves uninitialised at tools/packetize.c:92.
- Reading the file in `tools/packetize.c`, and its usage and error messages.
- Receiver.Machine.Cycle: the FIFO is unbounded, so a push never stalls; the two-cycle input synchroniser is a constant delay and not modelled.
- Line.Transmitter.Cycle: the FIFO is unbounded, a blocking put is one that happens later; the two instructions before the wrap target, which put the line low, are not modelled.
- LineCode.FillTransmitTable: the bit fields the source joins with `|` do not overlap, and are added.
- Link buffers in `Gateway.Device.Write` are copied into fresh arrays, so aliasing of a pbuf with the gateway's own buffers is not modelled.
