# A verified model of the ADB host stack

The library speaks the Android Debug Bridge protocol from the host's side. It frames messages over a byte channel,
multiplexes streams over the frames, and runs the shell and sync services inside the streams. This project models
that stack layer by layer and proves what each layer makes of the one below. Together the layers give one result:
**however the transport cuts its reads, the device cuts its WRTE frames, and other streams' frames come in between,
the answer of a service depends on the service bytes alone.**

## How the layers fit

| file | what it holds |
|---|---|
| `results.dfy`, `bytes.dfy` | errors and results; bytes, words and the little-endian layout |
| `wire.dfy`, `framing.dfy` | headers, checksums and frames; what a session makes of a byte sequence |
| `session.dfy`, `session_runs.dfy` | the transport and the `Session` class; sessions over whole runs |
| `delivery.dfy`, `reading.dfy` | what one stream makes of everything the device sends, and what reading does to it |
| `connection.dfy`, `stream.dfy` | the `Connection` and `Stream` classes |
| `stream_runs.dfy`, `stream_bytes.dfy`, `stream_readings.dfy`, `stream_objects.dfy` | streams over whole runs: acknowledgements and CLSE frames, the bytes, and `Stream` objects as instances of the machine |
| `shell.dfy` | the shell services and the v2 packet protocol |
| `sync_protocol.dfy`, `sync_roundtrips.dfy` | the sync service: its formats, and both sides of them |
| `sync_reading.dfy`, `sync_requests.dfy`, `sync.dfy`, `sync_end_to_end.dfy` | reading the formats from a stream, what a request does to its connection, the operations, and the operations from the wire |
| `banner.dfy`, `handshake.dfy`, `connect.dfy`, `retry.dfy` | the banner, the handshake, `connect` and the retry loop |
| `usb.dfy`, `newton.dfy`, `quoting.dfy` | USB buffering, inversion modulo 2^32, shell quoting |

Objects that the library updates in place are classes with the same fields (`Session`, `Connection`, `Stream`,
`UsbTransport`), and its loops are methods with invariants. A long loop body or a method with many exits is divided
into a few methods (`Stream.Refill`, `Stream.HandOut` and `Stream.Turn` are one turn of the loop in `Stream::read`).

The transport is nondeterministic. Its device has a finite supply of bytes, a read delivers any positive number of
them that fits, and any read or write may fail, a write after any part of its data. A read may also come back empty with
bytes still to come, as an empty USB transfer does. A ghost counter, `faults`, counts these failures and empty reads. So
"while the link holds" is `faults == old(faults)`, and most contracts have the shape: if the link held during the call,
or if the call succeeded, the result is *this* function of what the device sends. The transport also keeps a journal of
the frames handed up and of the frames handed to it, and the run theorems are about that journal. What a session yields
is an `Inbox` of frames that ends in a failure; `Stream` is specified over inboxes and never mentions bytes on the wire,
and `Framing.FramingRoundTrip` connects the two.

A read takes frames from the inbox only when its buffer is used up, and `Delivery.Drain` says exactly what it leaves.
So an operation's contract also fixes the inbox it leaves to the next one, and whole operations can be put in sequence:
a push first looks at its destination on one stream and then sends on another.

Words and bytes are bounded integers; wrap-around is written out, and exclusive-or with all ones is `2^32 - 1 - x`. A
handle that has been destroyed is one on which `CloseNow` was called.

## Where the code and its documentation differ

The model follows the code in each case.

- A plain timeout in the USB transport's `wait_readable` is an error, where the interface promises `false`
  (`Usb.WaitKeepsPromiseUnlessTimeout`).
- Local stream ids are documented as unique and non-zero. They are until the 32-bit counter wraps, and the exact
  bounds are proved (`Connections.IdsUniqueUntilWrap`, `Connections.IdsNonZeroUntilWrap`).
- A failed USB read leaves its buffer enlarged, and the next read hands out bytes that no transfer delivered
  (`Usb.PhantomBytes`). `Usb.UsbConservation` says exactly which runs come out right nevertheless.
- `features=` is matched anywhere in a banner (`Banner.FaithfulIffNoEarlierKey`).
- A refused open is answered with a CLSE although the refusal may itself be a CLSE (`Streams.OpenRefused`).
- The device's CLSE must not be answered with a CLSE, but a handle that was moved from can swallow the CLSE its successor
  should see. `StreamRuns.CloseUnansweredIffOwnerReads` says exactly when the rule is kept.
- Frames for other streams are dropped, so reading one stream to its end loses what was sent to another
  (`Delivery.ReadingCostsOtherStreams`).
- `Stream::write` does not wait for the device's OKAY, so a push sends all its blocks before it reads anything
  (`Sync.SendContent`).
- A zero checksum is not verified, nor is that of an empty payload; `Framing.DamageIsNoticedIffChecksummed` says what
  this costs. A transport failure or an end of stream in the middle of a frame does not close the session.
- The id of a stat reply is not inspected (`SyncProtocol.StatRoundTrip` holds for every id).
- A sync request must not carry a path past 1024 bytes, but a push checks that before it appends the file name and the
  mode. A path of exactly 1024 bytes passes the check and breaks the limit (`Sync.PathAtLimitOverflows`);
  `Sync.SendWithinLimitIff` and `Sync.Push` say exactly when the SEND request keeps it.
- A push does not cut its blocks to the device's maximum payload; `Sync.SendFile` succeeds only if the largest block
  fits, and otherwise sends none of them.
- A stream handle that was moved from can still read, and its bytes then overtake those the other handle has buffered
  (`StreamBytes.UntidyTakeReorders`); in tidy runs the bytes are in order (`StreamBytes.BytesInOrder`).

## Model

| member | source | states |
|---|---|---|
| `Bytes.WriteU32` | src/protocol/byte_order.hpp:15-21 | stores the four bytes of a word, least significant first, and touches no other byte |
| `Bytes.Le32RoundTrip` | src/protocol/byte_order.hpp:15-30 | a word written anywhere in a byte string is read back |
| `Bytes.WordIsLittleEndian` | src/protocol/byte_order.hpp:15-30 | a word that is read is its four bytes, the least significant first |
| `Bytes.U32RoundTrip` | src/protocol/byte_order.hpp:15-30 | writing back a word that was read restores the bytes |
| `Bytes.Le64RoundTrip` | src/sync.cpp:123-126 | a 64-bit word, low half first, is read back |
| `Wire.ComputeChecksum` | src/protocol/message.cpp:13-25 | the loop computes the sum of all bytes modulo 2^32 |
| `Wire.CommandsAreNames` | include/adbcpp/protocol/commands.hpp:29-74 | on the wire each command is the four letters of its name |
| `Wire.MagicIsComplement` | src/protocol/message.cpp:8-11 | the magic is the bitwise complement of the command, bit by bit |
| `Wire.ChecksumDetectsOneByte` | src/protocol/message.cpp:13-25 | changing any one byte of any data changes the checksum |
| `Wire.DataLengthOf` | src/protocol/message.cpp:27-34 | succeeds exactly when the length fits 32 bits, with that length |
| `Wire.Encode` | src/protocol/message.cpp:36-46 | fills an array with the six fields of a header, in order |
| `Wire.HeaderLayout` | src/protocol/message.cpp:36-46 | each of the six fields of a header is read back at its own offset |
| `Wire.HeaderRoundTrip` | src/protocol/message.cpp:36-58 | decoding an encoded header gives the header |
| `Wire.HeaderBytesRoundTrip` | src/protocol/message.cpp:36-58 | encoding a decoded header gives the same 24 bytes |
| `Wire.MakeMessage` | src/stream.cpp:29-46 | the header has the command and the two arguments as given and in this order, and passes every check a receiver makes; it fails only for a length past 32 bits |
| `Sessions.ReadExact` | src/session.cpp:56-73 | fills the buffer with exactly the next bytes under every fragmentation, or drains what there is and reports the end of stream |
| `Sessions.Session.Move` | src/session.cpp:91-98 | the new session takes over the transport and the flag; the old one is closed |
| `Sessions.Session.MoveFrom` | src/session.cpp:100-110 | the same for assignment, self-assignment changing nothing; the transport left behind is not closed |
| `Sessions.Session.Close` | src/session.cpp:112-120 | closes the transport the first time and never again |
| `Sessions.Session.Send` | src/session.cpp:122-164 | writes exactly the frame's bytes, or a prefix of them if the link fails; a closed session and a misstated length are refused with the transport untouched; until a failure the bytes written are those of the frames sent |
| `Sessions.Session.Receive` | src/session.cpp:166-223 | under every fragmentation the result and the remaining bytes are those of the framing rules; it closes the session, and the transport once, if and only if the link held and the bytes break a rule, and its error says so |
| `Framing.ReceiveInvertsSend` | src/session.cpp:122-223 | a frame within the rules is received whole, and exactly its bytes are consumed |
| `Framing.ReceivedWasSent` | src/session.cpp:166-223 | whatever is received was on the tape byte for byte and is within the rules |
| `Framing.FramingRoundTrip` | src/session.cpp:122-223 | the bytes of any run of acceptable frames yield exactly those frames, and the next receive starts on the byte after them |
| `Framing.InboxWasSent` | src/session.cpp:166-223 | the converse: every frame yielded was acceptable and on the tape, in order, and the rest of the inbox is that of the rest of the tape |
| `Framing.FramingUnambiguous` | src/session.cpp:122-223 | two runs of acceptable frames with the same bytes are the same run |
| `Framing.DamageIsNoticedIffChecksummed` | src/session.cpp:205-221 | a payload byte damaged in transit is noticed and closes the session if and only if the sender set a non-zero checksum |
| `Framing.ClosesIffViolation` | src/session.cpp:179-221 | a receive closes an open session if and only if the bytes start with a whole header of wrong magic or excessive length, or a whole payload that a non-zero checksum contradicts |
| `SessionRuns.ClosedAtMostOnce` | src/session.cpp:79-120 | over every interleaving of sends, receives, closes and moves, open handles and closes of a transport never add up to more than one |
| `SessionRuns.NoHandleNoTouch` | src/session.cpp:91-127 | a transport without an open handle is never touched again, whatever is called on whichever handle |
| `SessionRuns.ViolationIsFinal` | src/session.cpp:79-84 | after any run, a receive that meets bytes which break the rules closes the transport, and no later call touches it |
| `SessionRuns.ReceiveClosesIffViolation` | src/session.cpp:166-223 | a receive on an open handle closes the transport if and only if the link holds and the bytes break the rules |
| `SessionRuns.ReceivedInOrder` | src/session.cpp:86-223 | over every run, unless the link loses bytes, the frames handed up from a transport are acceptable and their bytes are the first that its device sent |
| `SessionRuns.Drive` | src/session.cpp:86-223 | every schedule of operations on session objects is a run of the machine these theorems are about, with the bytes left, the frames received, the touches and the closes of each transport; and what was written is received as the frames sent |
| `Delivery.DeliveryOfTape` | src/stream.cpp:191-285 | from the wire, in the words of the wire: whatever surrounds them and however they are cut, a stream's content is the payloads of the WRTE frames to its id, one acknowledgement is due for each, OKAY frames to it and all frames to other ids give nothing, and what follows starts after the CLSE to its id |
| `Delivery.DeliveryCutShort` | src/stream.cpp:193-201 | a delivery that the session cuts short has the payloads before the cut and fails with the session's error |
| `Delivery.DeliveryRejected` | src/stream.cpp:221-233 | so has one that meets a frame for the stream which is none of WRTE, OKAY and CLSE, and it fails as unexpected |
| `Delivery.DeliverBehind` | src/stream.cpp:191-234 | what a stream gets is what the frames received so far give it, and then what is left gives it; foreign frames and acknowledgements give nothing |
| `Delivery.DrainSplits` | src/stream.cpp:236-261 | reading n bytes lazily takes exactly the first n of the contents and leaves the rest, and fails exactly when there are fewer |
| `Delivery.DrainTwice` | src/stream.cpp:236-261 | reading in two pieces is reading in one, with the same bytes and the same frames left |
| `Reading.RepliedOncePerWrite` | src/stream.cpp:208-219 | a stream that reads given frames sends one acknowledgement for each WRTE to its id among them and nothing else |
| `Delivery.ReadingCostsOtherStreams` | src/stream.cpp:202-205 | reading one stream to its end costs another exactly the bytes sent to it meanwhile, and nothing if and only if there were none |
| `Delivery.AwaitBehind` | src/stream.cpp:96-118 | frames for other streams before the answer do not disturb an open |
| `Delivery.ServiceDelivery` | src/stream.cpp:62-285 | a whole session of a service, from the wire: the open succeeds with the device's id, and content, acknowledgements due and remainder are exact |
| `Connections.Connection.AllocateLocalId` | include/adbcpp/connection.hpp:151-154 | returns the counter and increments it with wrap-around |
| `Connections.IdsUniqueUntilWrap` | include/adbcpp/connection.hpp:150-154 | the first n local ids are pairwise different if and only if n is at most 2^32 |
| `Connections.IdsNonZeroUntilWrap` | include/adbcpp/connection.hpp:150-154 | the first n local ids are non-zero if and only if n is below 2^32 - 1 |
| `Streams.Stream.Open` | src/stream.cpp:62-119 | the device's answer decides, foreign frames aside; the first frame sent is OPEN with the local id first, a second argument that is non-zero if and only if delayed acknowledgement was negotiated, and the service as a C string; a CLSE follows when it fails on a live session; the frames received are foreign ones and the answer |
| `Streams.OpenRefused` | src/stream.cpp:98-127 | an open refused with CLSE, whatever foreign frames come first: a CLSE is sent back if and only if the session is still open |
| `Streams.Stream.Move` | src/stream.cpp:129-141 | the new stream takes everything over, and the old one will not send a CLSE |
| `Streams.Stream.MoveFrom` | src/stream.cpp:143-159 | the stream owned before is closed with its own ids, then replaced; self-assignment changes nothing |
| `Streams.Stream.CloseNow` | src/stream.cpp:161-169 | one CLSE unless the stream is already closed, whatever becomes of the send |
| `Streams.Stream.Write` | src/stream.cpp:171-189 | one WRTE with the local id, the remote id and the data, within the device's maximum payload, nothing otherwise; what the device sends is left unread |
| `Streams.WriteAll` | src/stream.cpp:171-189 | a sequence of writes: the device's stream with the remote id gets from the frames sent exactly the bytes written, one WRTE for each write |
| `Streams.SentIsAcceptable` | src/stream.cpp:29-46 | every frame the host builds within the maximum payload passes a receiver's checks, and OKAY and CLSE carry the local id and then the remote id |
| `Streams.Stream.NextFrame` | src/stream.cpp:193-209 | returns the first frame to the stream's id that is not OKAY; the frames before it are taken off the inbox, and nothing is sent for them |
| `Streams.Stream.ReceiveMore` | src/stream.cpp:191-234 | takes one WRTE to its id, buffers its payload and acknowledges it once, or takes the CLSE and marks the stream closed, or fails; even when the link fails, the acknowledgements attempted are those of the WRTE frames received |
| `Streams.Stream.Read` | src/stream.cpp:236-261 | delivers exactly the next n bytes of the pending byte sequence and leaves exactly the rest, with one acknowledgement per WRTE received; fails only if there are fewer or the link failed; also from a handle whose buffer was moved away |
| `Streams.Stream.ReadAll` | src/stream.cpp:263-285 | returns the whole pending byte sequence exactly when the device closes the stream |
| `Streams.ReadInPieces` | src/stream.cpp:236-285 | reads of any sizes, then of all the rest, return consecutive pieces that concatenate to the service bytes |
| `StreamRuns.StepKeepsInv` | src/stream.cpp:121-234 | every step keeps: a stream has one owner or one CLSE sent or neither, and the acknowledgements sent are those due for the frames received |
| `StreamRuns.AtMostOneClose` | src/stream.cpp:121-234 | over every run, however streams are moved, at most one CLSE per stream; and the acknowledgements sent are those of the WRTE frames that handles received for their own streams, one for one and in order |
| `StreamRuns.OneCloseOnTheWire` | src/stream.cpp:161-169 | while at most 2^32 streams were opened, the frames sent hold at most one CLSE per local id |
| `StreamRuns.ForeignFrameIsDropped` | src/stream.cpp:200-205 | a frame for another stream causes no send, no acknowledgement due and no change of any handle |
| `StreamRuns.NoOwnerNoClose` | src/stream.cpp:129-169 | once no handle owns a stream, no CLSE is sent for it any more |
| `StreamRuns.SeenCloseIsNotAnswered` | src/stream.cpp:224-229 | a CLSE frame received by the owning handle is never answered with a CLSE, then or later |
| `StreamRuns.CloseUnansweredIffOwnerReads` | src/stream.cpp:121-169 | after any run, a CLSE read by any handle is answered with no CLSE in any future if and only if that handle owns the stream or nobody does |
| `StreamRuns.StaleHandleMissesClose` | src/stream.cpp:129-141 | the smallest run in which it is answered: the handle that reads the CLSE was moved from |
| `StreamRuns.RefusalIsAnswered` | src/stream.cpp:105-127 | over runs: a failed open is answered with exactly one CLSE if the session is still open, and with none otherwise |
| `StreamObjects.Drive` | src/stream.cpp:50-285 | every schedule of operations on the streams of a connection is a run of the machine, frame for frame in the journal of what was received and sent; until local ids repeat, at most one CLSE goes out for each of them; and in tidy runs what the reads returned is the payloads received, in order |
| `StreamBytes.BytesInOrder` | src/stream.cpp:129-159 | over every run in which a handle takes a WRTE only while no other of its stream has bytes buffered, and no handle with bytes buffered is assigned over: bytes handed out and then those buffered are the payloads taken, in order, however handles are moved |
| `StreamBytes.UntidyTakeReorders` | src/stream.cpp:236-261 | a WRTE taken while another handle has bytes buffered overtakes them: the order is kept if and only if it makes no difference to the bytes |
| `Shell.ParsePackets` | src/shell.cpp:65-114 | on arbitrary bytes the loop terminates with the meaning of the packets at their front |
| `Shell.PacketsRoundTrip` | src/shell.cpp:68-83 | any packet list survives the trip through bytes, with any cut-off packet behind it |
| `Shell.PacketLayout` | src/shell.cpp:68-83 | a packet on the wire is its id, the length of its data, and its data |
| `Shell.PacketsArePrefix` | src/shell.cpp:68-83 | on arbitrary bytes, the packets found encode a prefix, and no whole packet starts behind it |
| `Shell.PacketsAreLongest` | src/shell.cpp:68-83 | any packet list encoded at the front of the bytes is a prefix of the packets found |
| `Shell.OutputIsMerge` | src/shell.cpp:84-97 | the combined output is an order-preserving merge of standard output and standard error |
| `Shell.InterpretByStream` | src/shell.cpp:84-112 | standard output is the data of the packets with id 1 and standard error that of those with id 2, each in order; success is exit code 0 |
| `Shell.ExitCodeIsLast` | src/shell.cpp:98-112 | the exit code is the first byte of the last non-empty packet with id 3, or zero |
| `Shell.RunV1` | src/shell.cpp:30-49 | the answer has the raw bytes of the service as its output, both separate streams empty, and success (`Shell.RunV1AgainstPlay` says so in the words of the wire); the next command starts behind the stream's end; only the OPEN of the `shell:` service and one acknowledgement per WRTE are sent |
| `Shell.RunV2` | src/shell.cpp:53-115 | the answer is the meaning of the packets, or the error that ended the stream; the same of what follows and what is sent |
| `Shell.Run` | src/shell.cpp:117-126 | picks the service by the request and by the device's `shell_v2` feature, names it in its OPEN, and has the contract of the one it picks |
| `Shell.ServiceIsAsked` | src/shell.cpp:32-57 | a device that parses the OPEN finds the service that is meant, v1 or v2, and the command up to its first NUL |
| `Shell.RunV1AgainstPlay` | src/shell.cpp:30-49 | from the wire: a v1 command returns the device's bytes as output, nothing in the two separate streams, exit code 0 and success |
| `Shell.RunCutShort` | src/shell.cpp:30-126 | output cut short by the end of the session or by an odd frame is reported as that error, not as an answer |
| `Shell.EndToEnd` | src/shell.cpp:53-115 | any packet list, cut into WRTE frames anywhere, among foreign frames and acknowledgements and with a cut-off packet behind: the answer is the meaning of the list |
| `Shell.RunAgainstPlay` | src/shell.cpp:53-115 | the same of the call, under every fragmentation of the transport's reads: the meaning of the list is returned and the connection is left on the byte after the CLSE |
| `Shell.AnswerDependsOnBytesOnly` | src/shell.cpp:30-126 | two device behaviours that carry the same service bytes get the same answer, in both protocols |
| `SyncProtocol.MetaRoundTrip` | src/sync.cpp:692-713 | both metadata layouts are read back: v2 with 64-bit sizes and signed times, v1 where it has room |
| `SyncProtocol.IdsAreNames` | src/sync.cpp:45-52 | on the wire each id of a listing or a stat is the four letters of its name |
| `SyncProtocol.TransferIdsAreNames` | src/sync.cpp:49-57 | so is each id of a transfer, FAIL and QUIT |
| `SyncProtocol.StatV2Layout` | src/sync.cpp:93-107 | every field of the v2 metadata is at its offset |
| `SyncProtocol.StatV1Layout` | src/sync.cpp:84-104 | so are the three of v1 |
| `SyncProtocol.StatusSucceedsIff` | src/sync.cpp:359-380 | a transfer is acknowledged if and only if eight bytes come that start with OKAY, and the cursor ends behind them |
| `SyncProtocol.RejectionIsReported` | src/sync.cpp:144-159 | a FAIL with any reason, as a status, in place of a directory entry or of a chunk, is the device's error with that reason, and the cursor ends behind it |
| `SyncProtocol.OddRepliesFail` | src/sync.cpp:359-380 | any other id where a status, a chunk or an entry is due is an error, and so is a chunk past 64 KiB |
| `SyncProtocol.StatRoundTrip` | src/sync.cpp:857-913 | metadata is read back under any response id and the cursor ends behind it; a path is missing exactly when v2 reports an error or v1 is all zeros |
| `SyncProtocol.StatFormsAgree` | src/sync.cpp:864-909 | for an error-free path whose metadata fits 32 bits, v1 and v2 agree if and only if the metadata is not all zeros |
| `SyncRoundTrips.ListingRoundTrip` | src/sync.cpp:641-714 | any entries come back exactly, in order, without those that could not be read, and the cursor ends on the byte after DONE; unless a name exceeds 255 bytes, which fails the listing |
| `SyncRoundTrips.DentLayout` | src/sync.cpp:84-107 | a directory entry on the wire is its id, its metadata, the length of its name, and its name |
| `SyncRoundTrips.ListingRejected` | src/sync.cpp:641-714 | a listing the device rejects, at once or after some entries, fails with the device's reason |
| `SyncRoundTrips.ListingFormsAgree` | src/sync.cpp:641-714 | where v1 has room, both forms of a listing give the same result and end at the same place |
| `SyncRoundTrips.BlocksShape` | src/sync.cpp:985-1006 | the blocks of a file concatenate to it, number ceil(n / 65536), are never empty, and all but the last are full |
| `SyncRoundTrips.TransferRoundTrip` | src/sync.cpp:777-830 | what a push writes for a file, a pull reads back, up to the byte after DONE |
| `SyncRoundTrips.TransferLayout` | src/sync.cpp:985-1020 | a block on the wire is DATA, its length and its bytes; the end is DONE and the time |
| `SyncRoundTrips.TransferRejected` | src/sync.cpp:777-830 | a transfer the device rejects keeps the chunks before and fails with the device's reason |
| `SyncRoundTrips.TransferAccumulates` | src/sync.cpp:777-832 | on arbitrary bytes, success or failure, what is written is the concatenation of the DATA records fully read; success consumes exactly through the DONE record |
| `SyncReading.SyncFail` | src/sync.cpp:144-159 | the error carries the device's reason, or the way the bytes ran out while reading it, and the cursor ends behind the reason |
| `SyncReading.ReadListing` | src/sync.cpp:641-714 | the loop over a stream computes the listing of the pending bytes, leaves the stream where the listing ends or fails, and sends nothing but acknowledgements |
| `SyncReading.ReadTransfer` | src/sync.cpp:777-830 | the loop writes what the transfer function says; however it ends, even by a failing link, the file holds whole chunks only, from the first on |
| `SyncReading.ReadStatus` | src/sync.cpp:359-380 | OKAY with its length is success; FAIL is the device's error with its reason, anything else and running out are the respective errors (`SyncProtocol.StatusSucceedsIff`, `SyncProtocol.RejectionIsReported`) |
| `SyncRequests.RequestLayout` | src/sync.cpp:131-139 | a request is its id, the length of the path, and the path |
| `SyncRequests.RequestNames` | src/sync.cpp:45-57 | the requests by name: LIS2 or LIST, STA2 or STAT, RECV, SEND, and QUIT with a zero length |
| `SyncRequests.AckedPerWrite` | src/stream.cpp:208-219 | the acknowledgements an operation sends are one for each WRTE of its stream among the frames it took |
| `SyncRequests.SuccessOnWire` | src/sync.cpp:616-722 | the frames of a successful operation, field by field: OPEN of `sync:`, the request as a WRTE, what it sends behind it, OKAYs, QUIT as a WRTE, CLSE |
| `Sync.List` | src/sync.cpp:616-722 | the result, every frame sent (OPEN, the request, one acknowledgement per WRTE its reply took, QUIT and CLSE or what replaces them on failure) and the inbox left behind, as functions of what the device sends; on success whatever becomes of the final CLSE |
| `Sync.Stat` | src/sync.cpp:835-916 | the same for stat, in the form the device's features select |
| `Sync.Pull` | src/sync.cpp:724-833 | the same for the v1 pull, with the content of the local file after success and after failure; even when the link fails, the file is as before or holds whole chunks of what the device sent |
| `Sync.SendContent` | src/sync.cpp:985-1006 | sends exactly one WRTE per block of the file, in order and without reading; succeeds if and only if the largest block fits the device's maximum payload |
| `Sync.BlocksArrive` | src/sync.cpp:985-1006 | the device's stream reads from the frames of the blocks their bytes, one WRTE for each |
| `Sync.FileArrives` | src/sync.cpp:985-1020 | and from those of a whole file its blocks and then DONE with the time |
| `Sync.SendFile` | src/sync.cpp:965-1028 | the same for a v1 push from its SEND request on, with the file's blocks and DONE with the time behind the request, or nothing behind it when the largest block does not fit; it succeeds only on the device's OKAY |
| `Sync.Push` | src/sync.cpp:918-1030 | the v1 push: looks at the destination, appends the local name if it is a directory, and sends on what the look left in the inbox; result, frames and inbox of both halves; the SEND frame keeps the 1024-byte limit if and only if path, name and mode together fit it |
| `Sync.DecimalIsSpelled` | src/sync.cpp:965-965 | the mode's text is digits only and reads back as the mode |
| `Sync.SpecIsRead` | src/sync.cpp:929-965 | a device that splits the SEND request at its last comma finds the path, with a slash and the name behind it if and only if the destination is a directory, and the mode |
| `Sync.SendWithinLimitIff` | src/sync.cpp:929-965 | the SEND request is within the limit if and only if the path, with the name if it is needed, and the mode fit 1024 bytes |
| `Sync.PathAtLimitOverflows` | src/sync.cpp:929-965 | a path of exactly 1024 bytes passes a push's own check and makes its SEND request too long |
| `SyncEndToEnd.ListAgainstPlay` | src/sync.cpp:616-722 | from the wire, under every fragmentation: however the listing is cut and interleaved, `list` returns the device's readable entries |
| `SyncEndToEnd.ListRejected` | src/sync.cpp:616-722 | from the wire: a listing the device rejects, at once or after some entries, returns the device's error with its reason |
| `SyncEndToEnd.StatAgainstPlay` | src/sync.cpp:835-916 | from the wire: `stat` returns the device's metadata, or nothing for a missing path |
| `SyncEndToEnd.PullAgainstPlay` | src/sync.cpp:724-833 | from the wire: `pull` writes the device's file, whatever chunks it comes in |
| `SyncEndToEnd.PullRejected` | src/sync.cpp:724-833 | from the wire: a pull the device rejects returns its error with its reason, and the file has the chunks before |
| `SyncEndToEnd.PullCutOff` | src/sync.cpp:777-790 | a transfer the device cuts off between records leaves the whole chunks before and reports the closed stream |
| `SyncEndToEnd.PushThenPull` | src/sync.cpp:985-1020 | a pull whose device plays back the payloads that its stream got from a push, cut and interleaved as it likes, gives back the same file |
| `SyncEndToEnd.PushAgainstScene` | src/sync.cpp:918-1030 | a whole push over two streams from the wire, cut and interleaved at will: what the first stream leaves unread does not disturb the second, and when the device answers OKAY the push succeeds and the device's stream has got the file |
| `SyncEndToEnd.PushRejected` | src/sync.cpp:918-1030 | the same push when the device answers FAIL with any reason: exactly the device's error with that reason |
| `Banner.ParseFeatures` | src/connection.cpp:61-82 | the loop returns the non-empty pieces, between commas, of the value of the first `features=` |
| `Banner.FeaturesRoundTrip` | src/connection.cpp:43-82 | joined names are read back as the same list, whatever comes before without the key and after a semicolon |
| `Banner.FaithfulIffNoEarlierKey` | src/connection.cpp:45-58 | the list behind a prefix is read back for all names if and only if the prefix does not contain `features=` |
| `Handshakes.HandshakeOrder` | src/connection.cpp:158-240 | over every device behaviour: CNXN, at most one signature, of the first token, at most one public key; the frames received are the first that the device sent, no more of them than were sent, and all but the last are AUTH |
| `Handshakes.HandshakeConsumes` | src/connection.cpp:158-240 | however it ends, a handshake took exactly the frames it lists from the inbox, in order, and what is left is what is behind them |
| `Handshakes.HandshakeSuccess` | src/connection.cpp:225-253 | on success every frame sent was answered, the last answer was a CNXN, and authorization was requested if and only if the key was sent |
| `Handshakes.SignatureSentIff` | src/connection.cpp:174-204 | a signature is sent if and only if the first frame is AUTH and the signer can sign its payload, and it is that signature |
| `Handshakes.KeySentIff` | src/connection.cpp:205-240 | the public key is sent if and only if the device still asks after what could be signed, and there is a key that fits; with none, the handshake fails for its lack |
| `Handshakes.TrustedHost` | src/connection.cpp:158-253 | CNXN answered by CNXN: nothing is signed, nobody is asked |
| `Handshakes.KnownHost` | src/connection.cpp:174-204 | AUTH, then CNXN: the signed token goes out, and nobody is asked |
| `Handshakes.UnknownHost` | src/connection.cpp:174-240 | AUTH, AUTH, CNXN: the signature and then the key go out, and the user was asked |
| `Handshakes.UnsignedHost` | src/connection.cpp:174-240 | without a signer the key goes out at once |
| `Handshakes.OutgoingOnWire` | src/connection.cpp:130-215 | what goes out, field by field: CNXN with version, maximum payload and banner; AUTH of type 2 with a signature, of type 3 with the key |
| `Handshakes.SerialRoundTrip` | src/connection.cpp:90-103 | the serial is the text between the first two double colons |
| `Handshakes.IdentityFeatures` | src/connection.cpp:112-157 | the features read from the host's own banner are the ones it means to advertise, for every set of codecs |
| `Handshakes.IdentityText` | src/connection.cpp:112-157 | the host's banner, written out: `host::features=` and the names it advertises, joined |
| `Handshakes.WindowIffBothAdvertise` | src/stream.cpp:80-80 | OPEN announces a window if and only if both sides advertised `delayed_ack` |
| `Connecting.Connect` | src/connection.cpp:112-261 | the frames sent and received, the result and every field of the connection are those of the handshake on what the host saw: all that the device sends while the link holds, otherwise a part of it that ends in the failure; so in every case the frames sent are in order and none got more than one answer |
| `Connecting.ConnectTrusted` | src/connection.cpp:112-261 | on the bytes of a CNXN: the connection takes version, maximum payload, features and serial from it, and only CNXN was sent |
| `Connecting.ConnectKnown` | src/connection.cpp:112-261 | on the bytes of AUTH and CNXN, with a signer: connected without asking, after CNXN and AUTH of type 2 with the token's signature |
| `Connecting.ConnectUnknown` | src/connection.cpp:112-261 | on the bytes of AUTH, AUTH and CNXN, with a signer and a key: connected after asking, and AUTH of type 3 with the key went out third |
| `Retry.WaitsTotal` | include/adbcpp/connection.hpp:258-263 | the sum of the waits in closed form: 2^(n-1) - 1 up to 22 attempts, then 2^20 more for each |
| `Retry.DelayIsWaits` | include/adbcpp/connection.hpp:258-263 | the total delay is the backoff times the sum of the waits |
| `Retry.EmplacedIff` | include/adbcpp/connection.hpp:246-289 | the slot was filled if and only if one of the attempts opened a transport |
| `Retry.ConnectWithRetry` | include/adbcpp/connection.hpp:246-289 | the first attempt that connects wins and its transport is in the slot; otherwise the last error, the slot empty, or as it was if no open ever succeeded; the number of opens and the total delay, wait by wait |
| `Usb.UsbTransport.Read` | src/usb/usb_transport.cpp:463-495 | makes a transfer exactly when the buffer is used up, and hands out, keeps and drops exactly what the buffering machine says of the bytes that transfer moved; a transfer that fails or times out with nothing is an error, and any other is handed out from its start, as much as fits |
| `Usb.UsbTransport.WaitReadable` | src/usb/usb_transport.cpp:529-561 | the same for a wait, which keeps an accepted transfer for the next read and forgets a failed one; it is true exactly when bytes are buffered or the one transfer neither failed nor timed out with nothing |
| `Usb.UsbConservation` | src/usb/usb_transport.cpp:463-561 | over any interleaving of reads and waits, bytes handed out followed by bytes buffered are the bytes delivered if and only if every failed read found the cursor at the end of a full buffer; so they are when no read failed |
| `Usb.Drive` | src/usb/usb_transport.cpp:463-561 | every schedule of reads and waits on a transport object is a run of the machine, so the theorem above holds of the bytes its caller gets and the transfers its driver made |
| `Usb.FailedReadConservesIffFull` | src/usb/usb_transport.cpp:469-481 | a failed read keeps that balance if and only if the cursor stood at the end of a full buffer |
| `Usb.PhantomBytes` | src/usb/usb_transport.cpp:469-494 | otherwise the next read hands out more bytes than were ever delivered |
| `Usb.WaitKeepsPromiseUnlessTimeout` | src/usb/usb_transport.cpp:548-560 | a wait answers as the interface promises unless a needed transfer times out with nothing |
| `Newton.PrecisionIsPower` | src/crypto/adb_key.cpp:69-83 | the modulus after step i is 2^(2^i): the number of correct bits doubles |
| `Newton.IterateDoublesBits` | src/crypto/adb_key.cpp:69-83 | for odd values the product with the iterate after step i is 1 modulo 2^(2^i), for i up to 5 |
| `Newton.StepSquares` | src/crypto/adb_key.cpp:80-80 | a step in wrapping arithmetic turns an inverse modulo m into an inverse modulo m squared |
| `Newton.InverseMod2To32` | src/crypto/adb_key.cpp:75-83 | the loop returns the fifth iterate, which is an inverse modulo 2^32 if and only if the value is odd |
| `Newton.StoreHead` | src/crypto/adb_key.cpp:161-166 | the stored words are the word count and, for an odd modulus, a parameter whose product with its lowest word is -1 modulo 2^32; the rest of the blob is untouched |
| `Quoting.ShellQuote` | src/app.cpp:19-37 | the loop computes the quoted form |
| `Quoting.QuotedIsOneWord` | src/app.cpp:19-37 | the POSIX reading of a quoted string is exactly one word equal to the string, if and only if it has no NUL |
| `Quoting.NulLeavesQuoteOpen` | src/app.cpp:19-37 | with a NUL the command ends inside the quotes and has no reading |
| `Quoting.CommandReads` | src/app.cpp:55-167 | each command built around one quoted argument is read as the words it is meant to be, written out per command, with the argument as one word |
| `Quoting.InstallReads` | src/app.cpp:94-105 | `pm install` passes the caller's options on as the words they read as, and the path as one word |

## Left out

- Compression: `pull_v2`, `push_v2`, the chunk decoder and the choice of a codec; their meaning rests on codecs outside
  the repository.
- Key generation, signing, base64 and key files; a signer is any function, and only the head of the key blob is modelled.
- TCP sockets, libusb enumeration and claiming, and splitting or retrying a bulk transfer; a transfer is one
  nondeterministic step.
- Logging, clocks and sleeps; delays are counted as numbers, and timeouts appear only as a transfer's result code.
- Local files: content, name, mode and time are values, and failures to open, read or write them are not modelled.
- Concurrent use of a connection from several threads; runs are sequential interleavings of whole calls.
- `DeviceId::parse`, `failure_reason` and `package_result`: single-branch facts.
- Handshakes.SerialRoundTrip: nothing is claimed about a banner with a colon in the system type or in the serial.
- Streams.Stream.ReadAll: requires the cursor to be within the buffer, as the original does; it is undefined for a handle whose buffer was moved away.
- Shell.ParsePackets: offsets are unbounded, so it holds for a `size_t` wider than 32 bits, where the sum of an offset and a length cannot wrap.
- Retry.ConnectWithRetry: the delay is an unbounded number; a backoff so long that its multiple overflows the clock's type is not modelled.
- Quoting.CommandReads: the reader knows blanks, escapes and single quotes, and gives up on any other unquoted special character, so what a device does with the words is not claimed.
- Scopes: a stream is destroyed where its caller drops it, and the model calls `CloseNow` at those points.
