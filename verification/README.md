# Verification model of mavlink-server

A Dafny model of the stateful parts of mavlink-server, with proofs of what they are for.

**MAVFTP client** (`src/lib/drivers/rest/mavftp`). The wire codec, the listing parser, the
request/reply transport with its retries, burst download with hole repair, chunked upload and
paged listing are modelled as they are written. `Transport.Link` is the world seen by one
operation: a finite schedule of arrivals, lag errors, timeouts and link events, the numbers other
callers draw from the shared sequence counter, and a network with a vehicle behind it. An
exhausted schedule is silence, so every theorem about a schedule covers every pattern of loss,
delay, reordering and duplication that the schedule can express. Two ways of looking at the
vehicle are used:

- *Arbitrary packets.* A download makes no assumption about the vehicle. What it returns is told
  from the copies it made (`BurstCorrectness`), and from the packets on the wire when they tell
  the truth about a file (`HonestVehicle`).
- *An in-order lossy link to a vehicle that replays its last reply to a repeated sequence number*
  (`FtpServer`, `InOrderLink`), as section "Payload Format" and the resending rules of the MAVLink
  File Transfer Protocol ask. Upload, listing and the repair reads of a download are proved
  against it (`Upload`, `DirectoryListing`, `VehicleDownload`).

`ReceiveFilter` and `BurstEvents` say what each event does, from the fields of messages and packets
alone, and `ForeignTraffic` that nothing other vehicles send makes a difference.

`Sessions`, `ReplyMatching` and `Downloads` are state machines over every interleaving of any
number of callers; in `Sessions` a read may bring many replies, numbered on, and replies are
matched by their 16-bit numbers. `TargetMutexes` shows that a caller waits for its own vehicle only.

**Stream adapters.** The WebSocket and Zenoh `poll_next` loops over an abstract decoder that obeys
two laws; `Framing` gives a MAVLink 2 framer that obeys them, and `StreamErrors` places the errors.

**Tlog.** The record scanner of the reader, the record format, and the arm-gated recorder as a
state machine run over any events; `RecorderGate` shows that it misses none.

**Accumulated statistics.** The three-level index and the flat totals fed by `stats_task`.

Code that changes state is modelled by classes and methods with loops; each is proved equal to a
function of the state it starts in, and the properties are lemmas about these functions. The
release build has no overflow checks, so machine integers wrap (`Bytes.Add16`, `Add32`, `Add64`).

## Findings

The proofs turned up these behaviours; each is shown at an input and has its exact condition.

- A repair reply is stored at the offset asked for without looking at the reply's own offset
  (client.rs:609-614), and a burst's packets are numbered on from its request. So a repeated burst
  packet can pass for the reply to a repair read: `HonestVehicle.RepeatedPacketMisplaced` downloads
  `2, 2` from a vehicle that holds `1, 2` and says nothing false. A packet can be trusted there if
  and only if its own offset is the one asked for (`BurstCorrectness.RepairTrustedExactly`).
- For the same reason late packets of a burst pass for the replies to a reset and to an open or a
  create, whose opcode nobody looks at (transport.rs:67-69). A vehicle then has two sessions open
  (`Sessions.BurstAnswersReset`), and `Misdirected.UploadGoesAstray` is an upload that reports
  success, leaves its file empty and overwrites the file of the download before it. The lock and
  the reset keep sessions apart if and only if no reply outlives the draw of another number, or
  every request brings at most one reply and none outlives a round of the 16-bit counter
  (`Sessions.SafeExactly`).
- A burst cycle has no end of its own: events that decide nothing, such as foreign or old packets,
  restart its wait (client.rs:450-456), and a closed hub channel keeps it going for ever
  (client.rs:473-475, `BurstEvents.ClosedChannelWaits`). An event acts if and only if it is a
  timeout or brings a NAK or a burst chunk that is not dropped (`BurstEvents.EventPasses`,
  `BurstEvents.EventDecides`).
- A hole whose repair ends in an end-of-file or empty reply stays zero, and the download still
  succeeds (client.rs:550): `HonestVehicle.UnrepairedHoleIsZero` downloads `0, 2`. The result is
  the file's prefix if and only if the file is zero in what is left of the holes
  (`BurstCorrectness.DownloadCorrect`).
- An end-of-file reply ends the burst wherever it is (client.rs:437):
  `HonestVehicle.EarlyEndTruncates` downloads `1`, complete and without a hole. The result is the
  whole file if and only if a packet of the burst brought its last byte and what is left of the
  holes is zero in it (`BurstCorrectness.WholeFileExactly`, `HonestVehicle.TruthfulWholeFile`).
- An upload of more than 4294967425 bytes succeeds and leaves something else on the vehicle, since
  the offset wraps (client.rs:128): `Upload.LongUploadDiffers`. One that succeeds is right if and
  only if it has at most that many (`Upload.UploadCorrect`).
- A path reaches the vehicle uncut if and only if it has at most 239 bytes
  (`Transport.WirePathExact`).
- Paging advances by parsed entries only, so an entry of an unknown kind before a known one cuts
  the listing short while reporting success (`DirectoryListing.DisorderlyLosesEntries`,
  `DirectoryListing.ListingCompleteExactly`).
- A receive error of any kind, a lag included, ends the statistics for good
  (`Stats.LagEndsCounting`): all messages are counted if and only if none follows an error
  (`Stats.CountsAllExactly`).
- With the default `decode_eof`, a Zenoh stream that stops inside a frame is never reported to be
  over, and every further poll returns the same error (`Framing.LoneMagicNeverEnds`): the end is
  reported if and only if the decoder leaves no bytes (`ZenohEnding.EndsExactly`).
- Stray bytes before a tlog record can lose it or give it another time, for one a zero byte before
  the time 0xFD (`Tlog.StrayZeroConfuses`). Any n stray bytes without a 0xFD byte are harmless if
  and only if the last n bytes of the timestamp, or all eight, have none
  (`Tlog.SkipsStraysExactly`, times before the year 4253 being dates).

## Model

| member | source | states |
|---|---|---|
| FtpProtocol.DecodeEncode | src/lib/drivers/rest/mavftp/protocol.rs:24-63 | Decoding what was encoded gives the payload with its data zero-extended and cut to its size field and to 239 bytes, hence the payload itself when the size field is the length of data that fits. |
| FtpProtocol.EncodeDecode | src/lib/drivers/rest/mavftp/protocol.rs:24-63 | Encoding what was decoded gives the wire image back, with the padding byte and everything past the data zeroed. |
| FtpProtocol.DecodeFailsExactly | src/lib/drivers/rest/mavftp/protocol.rs:41-47 | A 251-byte payload is rejected if and only if byte 3 or byte 5 is not an opcode. |
| FtpProtocol.HeaderBytes | src/lib/drivers/rest/mavftp/protocol.rs:25-36 | Which byte of the wire image holds which field, little-endian where wider than a byte, with zeros behind the data. |
| WireFormat.PayloadLayout | src/lib/drivers/rest/mavftp/protocol.rs:25-36 | The same in arithmetic: bytes 0 and 1 are the number and bytes 8 to 11 the offset, lowest byte first, and bytes 12 to 250 the data and zeros. |
| WireFormat.RequestsExactly | src/lib/drivers/rest/mavftp/protocol.rs:67-78 | Every request of every operation with its opcode number, and where its session, offset, path, size and data go. |
| FtpProtocol.Encode | src/lib/drivers/rest/mavftp/protocol.rs:24-38 | The cursor writes into a zeroed 251-byte buffer leave header, data and zero fill, in that layout. |
| FtpProtocol.Decode | src/lib/drivers/rest/mavftp/protocol.rs:41-63 | The cursor reads, in order and with their early failures, compute the decoding function. |
| Listing.ParsePrint | src/lib/drivers/rest/mavftp/protocol.rs:205-226 | The parser returns the same list for the text of any list of entries with NUL-free names, tab-free file names and u64 sizes. |
| Listing.ParseConcat | src/lib/drivers/rest/mavftp/protocol.rs:206-209 | A NUL anywhere separates: the entries of the whole are those of the two sides, in order. |
| Listing.ParseIgnoresNoise | src/lib/drivers/rest/mavftp/protocol.rs:207-210 | An empty segment, or one of an unknown kind, changes nothing wherever it is inserted. |
| Listing.ParsePrintEntry | src/lib/drivers/rest/mavftp/protocol.rs:210-223 | One entry printed as kind byte, name, tab and decimal size is parsed back exactly. |
| Listing.ParseJoin | src/lib/drivers/rest/mavftp/protocol.rs:205-226 | Parsing NUL-closed segments is parsing each by itself. |
| WireFormat.EntriesExactly | src/lib/drivers/rest/mavftp/protocol.rs:210 | A text is an entry if and only if its first byte is D, F or S. |
| WireFormat.FileText | src/lib/drivers/rest/mavftp/protocol.rs:214-221 | A file text is a name up to the first tab and, behind it, a size that is kept only if it is a number. |
| WireFormat.SizesAreRead | src/lib/drivers/rest/mavftp/protocol.rs:216 | The decimal of any number is read as that number below 2^64 and as no size from there on, with a plus sign before it or without. |
| Transport.WirePathExact | src/lib/drivers/rest/mavftp/client.rs:95-98 | A path survives the size byte and the 239-byte data field if and only if it has at most 239 bytes. |
| Transport.Hub.NextSeq | src/lib/drivers/rest/mavftp/transport.rs:107-110 | Returns the counter after other callers' draws and moves it on by one modulo 2^16. |
| Transport.Hub.SendFtpMessage | src/lib/drivers/rest/mavftp/transport.rs:33-39 | What reaches the vehicle is the request as the codec carries it. |
| Transport.Hub.RecvFtp | src/lib/drivers/rest/mavftp/transport.rs:42-85 | The receive loop computes the receive function, whose treatment of every event `ReceiveFilter.RecvExactly` states, and leaves the rest of the schedule. |
| ReceiveFilter.FilterExactly | src/lib/drivers/rest/mavftp/transport.rs:51-73 | A message is taken if and only if it has id 110, comes from the target, holds 251 bytes with known opcodes in bytes 3 and 5 and, when a reply is expected, is an ACK or NAK numbered one above the request; it is an error if and only if it is such a message of the target with an unknown opcode. |
| ReceiveFilter.RecvExactly | src/lib/drivers/rest/mavftp/transport.rs:42-85 | What the receive loop makes of each event: a timeout, a closed channel or an unknown opcode from the target ends the wait, a message that is taken is returned, and everything else, lags and messages of others included, is waited through. |
| ReceiveFilter.RecvIgnoresForeign | src/lib/drivers/rest/mavftp/transport.rs:51-56 | Replacing every message of another vehicle or another id by a lag changes neither what the receive loop returns nor the link it leaves. |
| ForeignTraffic.DownloadIgnoresForeign | src/lib/drivers/rest/mavftp/transport.rs:51-56 | The same of a whole download: its result, its copies, its progress and the link it leaves. |
| ForeignTraffic.UploadIgnoresForeign | src/lib/drivers/rest/mavftp/transport.rs:51-56 | The same of an upload, what it leaves on the vehicle included. |
| ForeignTraffic.ListingIgnoresForeign | src/lib/drivers/rest/mavftp/transport.rs:51-56 | The same of a listing, the number of its requests included. |
| Transport.Hub.SendAndReceive | src/lib/drivers/rest/mavftp/client.rs:264-306 | Five attempts with the same sequence number, any failure retried, the last failure returned. |
| Transport.RetriesExactly | src/lib/drivers/rest/mavftp/client.rs:272-305 | A reply that arrives after any number of timeouts is returned if and only if there were fewer than five; otherwise the request times out, whatever comes later. |
| ReceiveFilter.ResendsExactly | src/lib/drivers/rest/mavftp/client.rs:272-305 | After timeouts, closed channels and malformed payloads in any mixture a reply is returned if and only if fewer than five attempts failed; otherwise the error is the fifth failure; and the vehicle was sent one copy of the request, with one number, for each attempt. |
| Transport.Hub.Reset | src/lib/drivers/rest/mavftp/client.rs:684-689 | Sends a reset with a fresh number and fails on a refusal. |
| Transport.Hub.Terminate | src/lib/drivers/rest/mavftp/client.rs:675-681 | Sends a termination of the session with a fresh number and fails on a refusal. |
| InOrderLink.ExactlyOnce | src/lib/drivers/rest/mavftp/client.rs:264-306 | Over an in-order link that loses and repeats packets, an answered request was executed exactly once, the answer is that execution's, and only its leftovers are still in flight; before it the vehicle had served nothing but requests that were in flight at the start, and nothing new when those were only repeats. |
| InOrderLink.RecvKeeps | src/lib/drivers/rest/mavftp/transport.rs:42-85 | While a reply is awaited every event keeps the request waiting or executed once, and a reply that passes the filter is the one of that execution. |
| InOrderLink.ReadyCall | src/lib/drivers/rest/mavftp/client.rs:264-306 | A successful call after another one was executed once, was not refused, and found the vehicle as the last call left it. |
| InOrderLink.PromptAnswer | src/lib/drivers/rest/mavftp/client.rs:272-295 | On an idle link a request served and answered next succeeds with that answer. |
| Upload.UploadCorrect | src/lib/drivers/rest/mavftp/client.rs:87-147 | After an upload of any length that reports success, for every pattern of lost, repeated and late packets, the vehicle holds exactly the data under the path it read if and only if the data has at most 4294967425 bytes; no session is open then, and every other file is as the requests still in flight at the start left it, so as it was when those were only repeats. |
| Upload.UploadSucceeds | src/lib/drivers/rest/mavftp/client.rs:87-147 | Over an idle link to a vehicle that answers at once and refuses nothing, every upload succeeds. |
| Upload.LongUploadDiffers | src/lib/drivers/rest/mavftp/client.rs:106-128 | Over such a link longer data is uploaded with success, and the file on the vehicle is not the data. |
| Upload.RefusedWriteCloses | src/lib/drivers/rest/mavftp/client.rs:115-128 | A write refused at any point of the data ends the upload with the code of the refusal, and the session is closed all the same. |
| Upload.RefusedCreateFails | src/lib/drivers/rest/mavftp/client.rs:100-103 | A refused creation is the error of the upload, and leaves the files as they were and no session open. |
| Misdirected.UploadGoesAstray | src/lib/drivers/rest/mavftp/client.rs:91-105 | Behind a download whose burst is still arriving, an upload that reports success, leaves its file empty and overwrites the old one, with two sessions open on the way. |
| Upload.ChunksCorrect | src/lib/drivers/rest/mavftp/client.rs:105-146 | From any point of the chunk loop, as long as every chunk starts below 2^32, success means the rest was appended to what was written so far. |
| Upload.ChunksBounded | src/lib/drivers/rest/mavftp/client.rs:106-128 | When some chunk starts at or past 2^32, the file on the vehicle stays shorter than the data. |
| Upload.WriteStep | src/lib/drivers/rest/mavftp/client.rs:109-129 | A successful chunk write overwrites the file once at its offset, however often it was sent; at the end of the file that appends the chunk. |
| Upload.WriteFile | src/lib/drivers/rest/mavftp/client.rs:87-147 | The upload loop computes the specification; on success over an in-order link the vehicle's file is the data if and only if the data is not too long. |
| DirectoryListing.ListDirectoryEntries | src/lib/drivers/rest/mavftp/client.rs:37-74 | The paging loop computes the specification and counts its requests. |
| DirectoryListing.ListingComplete | src/lib/drivers/rest/mavftp/client.rs:45-73 | A listing that succeeds is the whole listing in order, with no gap or repeat, in at most n + 1 requests for n entries, whatever page lengths the vehicle chooses and whatever the link loses or repeats. |
| DirectoryListing.ListingSucceeds | src/lib/drivers/rest/mavftp/client.rs:45-73 | Over an idle link to a vehicle that answers at once, every orderly listing of texts that fit a reply is listed whole. |
| DirectoryListing.ListingCompleteExactly | src/lib/drivers/rest/mavftp/client.rs:64-70 | Every run is complete if and only if no text that parses follows one that does not, or no run can succeed for a text that no reply can carry. |
| DirectoryListing.BlockedFails | src/lib/drivers/rest/mavftp/client.rs:55-62 | Before a text that no reply can carry, behind texts that all parse, the listing fails instead of stopping short. |
| DirectoryListing.DisorderlyLosesEntries | src/lib/drivers/rest/mavftp/client.rs:64-69 | For each disorderly listing, a run that succeeds with entries missing. |
| DirectoryListing.PageStep | src/lib/drivers/rest/mavftp/client.rs:64-70 | Taking a page moves the entries found so far to a longer prefix of the listing, and an empty page means the end. |
| DirectoryListing.RefusedPageFails | src/lib/drivers/rest/mavftp/client.rs:55-62 | A refusal that is no end of file is the error of the listing, whatever was found before. |
| BurstRead.BurstReadState.CopyChunkIntoBuffer | src/lib/drivers/rest/mavftp/client.rs:636-655 | Rejects data shorter than declared, else overwrites the range, growing the file with zeros. |
| BurstRead.BurstReadState.RecordBytesWritten | src/lib/drivers/rest/mavftp/client.rs:724-727 | Adds to the count modulo 2^32 and publishes it. |
| BurstRead.BurstReadState.ApplyBurstChunk | src/lib/drivers/rest/mavftp/client.rs:499-523 | Drops empty and old chunks, notes a hole before one ahead, fails on short data with the hole kept, else copies and advances the end. |
| BurstRead.RunBurstCycle | src/lib/drivers/rest/mavftp/client.rs:403-496 | One burst: the request, the receive loop, the retry counter and every way out are those of the cycle function, which `BurstEvents.CycleAsks`, `EventPasses` and `EventDecides` tell event by event. |
| BurstRead.ReadMissingBlockChunk | src/lib/drivers/rest/mavftp/client.rs:561-617 | One repair read is the piece function, told by `BurstEvents.RepairExactly`, followed by the copy at the offset asked for. |
| BurstRead.FillMissingBlocks | src/lib/drivers/rest/mavftp/client.rs:526-558 | Repairs the noted holes in order, and says whether each was read to its end. |
| BurstRead.FinishReadSession | src/lib/drivers/rest/mavftp/client.rs:620-633 | Closes the session, cuts the buffer to the contiguous end, and publishes the returned length. |
| BurstRead.OpenReadSession | src/lib/drivers/rest/mavftp/client.rs:356-400 | Resets, opens, reads the advertised size, and rejects and closes a file over the limit. |
| BurstRead.BurstReadFileInner | src/lib/drivers/rest/mavftp/client.rs:309-353 | The whole download computes the specification; on success the progress cell holds the returned length. |
| BurstCorrectness.BurstBooks | src/lib/drivers/rest/mavftp/client.rs:499-523 | At the end of the burst phase holes are non-empty, ascending and apart; received ranges and holes partition everything before the end; bytes written and hole sizes add up to the end, which is within the buffer; every byte is the last one copied there. |
| BurstCorrectness.AcceptKeeps | src/lib/drivers/rest/mavftp/client.rs:509-521 | Accepting any chunk keeps that bookkeeping. |
| BurstCorrectness.DownloadCorrect | src/lib/drivers/rest/mavftp/client.rs:309-353 | If the copies made carry a file's own bytes at their offsets, a successful download is the file's prefix with zeros where nothing was copied; it equals the prefix if and only if the file is zero there, always when every hole was repaired, and the whole file when as long. The advertised size plays no part. |
| BurstCorrectness.WholeFileExactly | src/lib/drivers/rest/mavftp/client.rs:430-439 | A successful download from true copies is the whole file if and only if a packet of the burst brought the file's last byte and what was left of the holes is zero in the file. |
| BurstCorrectness.DownloadBounded | src/lib/drivers/rest/mavftp/client.rs:328-338 | At most 6 (n + 1) burst cycles for n accepted chunks; with true data n, and the number of all accepted packets with repairs, is at most the file's length. |
| BurstCorrectness.BoundIsReached | src/lib/drivers/rest/mavftp/client.rs:476-492 | Over a silent link the burst gives up with a timeout after exactly six cycles, leaving the state as it was. |
| BurstEvents.EventPasses | src/lib/drivers/rest/mavftp/client.rs:450-475 | An event that is no timeout and brings neither a NAK nor a burst chunk that is not dropped, a closed channel included, leaves the cycle with its state and retries as they were. |
| BurstEvents.EventsPass | src/lib/drivers/rest/mavftp/client.rs:450-475 | So does any number of such events. |
| BurstEvents.ClosedChannelWaits | src/lib/drivers/rest/mavftp/client.rs:473-475 | For one, any number of errors of a closed channel. |
| BurstEvents.EventDecides | src/lib/drivers/rest/mavftp/client.rs:430-492 | What any other event does, by the fields of its packet: a timeout ends the cycle, the sixth in a row the download; a NAK with code 6 ends the burst; any other NAK closes the session and is the error, with its code; a chunk with less data than declared is an error; and a good one is noted with the hole before it, resets the retries, and ends the cycle when it says so. |
| BurstEvents.CycleAsks | src/lib/drivers/rest/mavftp/client.rs:412-421 | Each cycle puts one request in flight: a burst read of 239 bytes at the end of the file so far, for the open session, with a fresh number. |
| BurstEvents.BurstEndsAtEof | src/lib/drivers/rest/mavftp/client.rs:430-439 | A burst that ends without an error ended at an event that brought a NAK with code 6 from the vehicle, and left the link behind it. |
| BurstEvents.DownloadEndsAtEof | src/lib/drivers/rest/mavftp/client.rs:430-447 | So a download succeeds only if the vehicle said end of file. |
| BurstEvents.RefusalEndsCycle | src/lib/drivers/rest/mavftp/client.rs:440-447 | The first NAK with any other code, behind any number of events that decide nothing, ends the cycle with that code, and the session is closed. |
| BurstEvents.BurstErrorIsReturned | src/lib/drivers/rest/mavftp/client.rs:328-338 | That error is the error of the download, and nothing more is asked. |
| BurstEvents.RepairExactly | src/lib/drivers/rest/mavftp/client.rs:568-616 | What a repair read asks for, field by field, and what each answer means: silence and a NAK with another code than 6 close the session and are the error, code 6 and an empty reply give the hole up, too little data is an error, and the rest is a piece. |
| BurstEvents.LimitExactly | src/lib/drivers/rest/mavftp/client.rs:384-397 | A size limit changes an open only when the advertised size is above it, and then the session is closed and the error is that the file is too large. |
| BurstCorrectness.AdvertisedSizeIsRead | src/lib/drivers/rest/mavftp/client.rs:377-382 | The size read from an open reply is the vehicle's file size modulo 2^32. |
| BurstCorrectness.BurstPhaseKeeps | src/lib/drivers/rest/mavftp/client.rs:454-492 | Every cycle that goes on uses up budget counted in accepted packets and retries. |
| BurstCorrectness.PieceShrinksHole | src/lib/drivers/rest/mavftp/client.rs:547-549 | Each accepted repair reply leaves strictly less of its hole, as long as no copy passes 32 bits. |
| BurstCorrectness.FillHoleBounded | src/lib/drivers/rest/mavftp/client.rs:535-549 | A hole is repaired by no more replies than it has bytes left. |
| BurstCorrectness.FillHoleKeeps | src/lib/drivers/rest/mavftp/client.rs:533-555 | A hole read to its end is covered by copies; with replies no longer than asked for, the byte count grows by exactly what was missing. |
| BurstCorrectness.DownloadProgress | src/lib/drivers/rest/mavftp/client.rs:630-632 | With replies no longer than asked for, published progress never falls, never passes the returned length and ends at it; after full repair the bytes written are that length. |
| BurstCorrectness.RepairTrustedExactly | src/lib/drivers/rest/mavftp/client.rs:609-614 | Storing a truthful packet at the offset asked for is right for every file if and only if that is the packet's own offset. |
| HonestVehicle.TruthfulDownload | src/lib/drivers/rest/mavftp/client.rs:309-353 | When the file data in every packet of the schedule is the file's own at the packet's offset, a successful download is a prefix of the file provided accepted repair replies were for the place they were stored; with no holes there is no proviso. |
| HonestVehicle.TruthfulWholeFile | src/lib/drivers/rest/mavftp/client.rs:430-439 | From truthful packets a download without holes is the whole file if and only if a packet of the burst brought the file's last byte. |
| HonestVehicle.DownloadSucceeds | src/lib/drivers/rest/mavftp/client.rs:309-353 | Every file shorter than 2^32 bytes has a schedule of truthful packets that downloads it whole. |
| HonestVehicle.EarlyEndTruncates | src/lib/drivers/rest/mavftp/client.rs:437-439 | A run with truthful packets only that returns the first of two bytes, complete and without a hole. |
| HonestVehicle.UnrepairedHoleIsZero | src/lib/drivers/rest/mavftp/client.rs:550-552 | A run with truthful packets only, whose repair read is answered by an end of file or by nothing, that succeeds with a zero in the hole. |
| HonestVehicle.RepeatedPacketMisplaced | src/lib/drivers/rest/mavftp/client.rs:578-615 | The proviso is needed: a run with truthful packets only that returns wrong bytes as a complete download. |
| HonestVehicle.RefusedBurstFails | src/lib/drivers/rest/mavftp/client.rs:437-447 | A run in which a refusal comes behind a first chunk, and the download fails with its code. |
| HonestVehicle.ChunkSound | src/lib/drivers/rest/mavftp/client.rs:509-521 | A burst chunk is stored where its packet says, so a truthful one makes a true copy. |
| VehicleDownload.OpenOverLink | src/lib/drivers/rest/mavftp/client.rs:356-400 | Over an in-order lossy link a successful open leaves one session open, on the file the path names, whose size modulo 2^32 it returns; with nothing but repeats in flight before, the files are as they were. |
| VehicleDownload.RepairOverLink | src/lib/drivers/rest/mavftp/client.rs:533-616 | Over such a link, whatever is lost or repeated, repairing a hole makes none but copies true to the open file; without an error it leaves the file's bytes in the hole and nothing else changed, and is complete if and only if the hole lies within the file. |
| VehicleDownload.RepairsOverLink | src/lib/drivers/rest/mavftp/client.rs:526-558 | The same for all holes in order: one that passes the file's end does not keep the others from being repaired. |
| VehicleDownload.RepairSucceeds | src/lib/drivers/rest/mavftp/client.rs:568-576 | Over an idle link a hole within the file is filled by exactly as many reads as pieces of 239 bytes and a rest make up its size. |
| VehicleDownload.DownloadRepairs | src/lib/drivers/rest/mavftp/client.rs:309-353 | From a vehicle that answers at once, any packets of a burst, missing, repeated or out of order, give the whole file if one brings the file's last byte and none before it reaches into that one: the holes are read again, the session is closed, and the files on the vehicle are as they were. |
| VehicleDownload.LastByteSuffices | src/lib/drivers/rest/mavftp/client.rs:526-558 | For one, a burst of which only the last byte of the file arrives. |
| VehicleDownload.SizeLimitExactly | src/lib/drivers/rest/mavftp/client.rs:384-397 | Such a vehicle's file is opened if and only if it is no larger than the limit; otherwise the session opened for it is closed again. |
| VehicleDownload.RefusedOpenFails | src/lib/drivers/rest/mavftp/client.rs:366-371 | A refused open is the error of the download, and leaves no session open. |
| ReplyMatching.RepliesMatchInWindow | src/lib/drivers/rest/mavftp/transport.rs:67-73 | In a run of any length no request accepts the reply of a single-reply request made fewer than 65536 requests before or after it, however replies are delayed, repeated or interleaved. |
| ReplyMatching.MatchingSafeExactly | src/lib/drivers/rest/mavftp/transport.rs:67-73 | Every run of up to n requests with up to m numbered replies each matches right if and only if n is at most 1, or m is 1 and n is at most 65536. |
| ReplyMatching.Confused | src/lib/drivers/rest/mavftp/transport.rs:107-110 | Wherever numbers collide, a run in which a request takes another request's reply. |
| Sessions.NeverOverlap | src/lib/drivers/rest/mavftp/client.rs:42-43 | In every interleaving, however replies are taken, two running operations are on different targets. |
| Sessions.LockNeverReplaced | src/lib/drivers/rest/mavftp/client.rs:665-672 | In every interleaving, however replies are taken, a target's entry in the lock map stays the same mutex for ever. |
| TargetMutexes.MutexesDiffer | src/lib/drivers/rest/mavftp/client.rs:665-672 | In every interleaving two targets in the lock map have different mutexes. |
| TargetMutexes.WaitsForItsVehicleExactly | src/lib/drivers/rest/mavftp/client.rs:665-672 | In every reachable state a task that has looked up its mutex may run at once if and only if no operation runs on its own vehicle, and otherwise as soon as that one ends. |
| Sessions.SafeExactly | src/lib/drivers/rest/mavftp/client.rs:88-93 | Every reachable state has at most one session open per vehicle, and no reset about to be executed in one, if and only if no reply outlives the next draw of a number, or every request brings at most one reply and none outlives a round of the 16-bit counter. |
| Sessions.BurstAnswersReset | src/lib/drivers/rest/mavftp/client.rs:684-689 | As soon as a read brings two replies, a run in which the second one answers the next reset and two sessions are open. |
| Sessions.OldReplyAnswersReset | src/lib/drivers/rest/mavftp/transport.rs:107-110 | As soon as a reply outlives 65536 draws, a run in which it answers a reset with the same number. |
| Sessions.AtMostOneSession | src/lib/drivers/rest/mavftp/client.rs:88-93 | Within those limits, in every reachable state, requests in flight included, a vehicle that numbers its sessions as it likes has at most one open session. |
| Sessions.ResetHitsNobody | src/lib/drivers/rest/mavftp/client.rs:362-364 | Within those limits, while an operation opens, uses or closes a session, the vehicle executes no reset, and any open session is the one that operation was given. |
| Sessions.OnlyOwnRequests | src/lib/drivers/rest/mavftp/client.rs:674-681 | Meanwhile every request in flight to the vehicle is that operation's own, so no other operation's termination reaches it. |
| Sessions.SessionStaysOpen | src/lib/drivers/rest/mavftp/client.rs:105-112 | No request that reaches the vehicle opens or closes a session while one is in use. |
| Sessions.NextKeepsInv | src/lib/drivers/rest/mavftp/client.rs:30-34 | Within those limits every step of every caller and of every link keeps the lock, channel and session invariants. |
| Sessions.LinkKeepsRun | src/lib/drivers/rest/mavftp/client.rs:316-320 | Loss, repetition and delivery on the link keep what a running operation relies on. |
| Sessions.TargetLocks.TargetLock | src/lib/drivers/rest/mavftp/client.rs:665-672 | Adds a mutex for a target seen for the first time and returns the one in the map, as that step of the state machine does. |
| Downloads.HandedOnce | src/lib/drivers/rest/mavftp/mod.rs:207-219 | In every interleaving of the worker, pollers and takers a download is handed out at most once, and it is exactly what the read returned. |
| Downloads.ErrorReportsHaveText | src/lib/drivers/rest/mavftp/mod.rs:191-204 | A progress report with status Error carries an error text. |
| Downloads.StatusSettlesOnce | src/lib/drivers/rest/mavftp/mod.rs:176-183 | Between any two points of a run, a status that was not Downloading is unchanged. |
| Downloads.UntakenStaysAvailable | src/lib/drivers/rest/mavftp/mod.rs:176-179 | A finished download nobody took is still registered, complete and with its data. |
| Downloads.TakeSucceeds | src/lib/drivers/rest/mavftp/mod.rs:207-219 | The next taker gets it whole, and it leaves the registry. |
| Downloads.HandedLeavesRegistry | src/lib/drivers/rest/mavftp/mod.rs:207-219 | In every interleaving a download that was handed out is not registered, unless its taker is about to remove it. |
| Downloads.EndIsReported | src/lib/drivers/rest/mavftp/mod.rs:191-204 | Whoever asks about a registered download that has ended is told its status, and its own error text. |
| Downloads.NextKeepsInv | src/lib/drivers/rest/mavftp/mod.rs:147-219 | Every step keeps cells, registry, pollers and takers consistent. |
| Downloads.DownloadSession.Finish | src/lib/drivers/rest/mavftp/mod.rs:176-183 | The worker leaves the data with status Complete, or the error text with status Error. |
| Downloads.Registry.StartDownload | src/lib/drivers/rest/mavftp/mod.rs:147-163 | Registers a new session that is downloading, named by the text behind the last slash of the path. |
| Downloads.Registry.GetDownloadProgress | src/lib/drivers/rest/mavftp/mod.rs:191-204 | Reports name, byte counts, status and error of a registered download, and nothing for another. |
| Downloads.Registry.TakeDownloadData | src/lib/drivers/rest/mavftp/mod.rs:207-219 | Hands out name and data if and only if the download is registered, complete and untaken, removes it then, and changes nothing otherwise. |
| StreamAdapters.WebSocketAdapter.Poll | src/lib/drivers/websocket/client_adapter.rs:76-107 | The client's poll loop computes one poll of the specification. |
| StreamAdapters.ChunkingDoesNotMatter | src/lib/drivers/websocket/client_adapter.rs:76-107 | What a consumer gets is what the decoder finds in the concatenated binary payloads, whatever the cuts, control frames, errors and idle polls between them. |
| StreamAdapters.PollTakesNext | src/lib/drivers/websocket/server_adapter.rs:73-102 | Each poll yields the next value of the whole stream or none, and loses nothing. |
| StreamAdapters.SameBytesSameValues | src/lib/drivers/websocket/server_adapter.rs:73-102 | Two transports carrying the same bytes deliver the same values. |
| StreamErrors.PollReportsExactly | src/lib/drivers/websocket/client_adapter.rs:88-106 | A poll returns an error for each text frame or transport error it takes from the source, so for one at most, waits for each moment the source had nothing, and reports the end only when the source is used up. |
| StreamErrors.ErrorsComeInPlace | src/lib/drivers/websocket/client_adapter.rs:76-107 | The first error comes behind exactly the values of the bytes before it, and what comes behind it is what the bytes left over and those to come give. |
| StreamErrors.NoErrorNoReport | src/lib/drivers/websocket/client_adapter.rs:76-107 | Without such a frame or error none is returned. |
| StreamAdapters.ZenohRawReader.Poll | src/lib/drivers/zenoh/raw_adapter.rs:105-132 | The Zenoh poll loop computes one poll of the specification. |
| StreamAdapters.ZenohChunkingDoesNotMatter | src/lib/drivers/zenoh/raw_adapter.rs:105-132 | A consumer gets the values of the concatenated samples, then one drain of the tail, however samples were cut and sliced. |
| StreamAdapters.NeverPolledAfterEnd | src/lib/drivers/zenoh/raw_adapter.rs:107-130 | The source is told to be over once and never polled again. |
| StreamAdapters.TailErrorRepeats | src/lib/drivers/zenoh/raw_adapter.rs:108-119 | With the default `decode_eof`, after the end a poll reports the end if and only if the decoder leaves nothing, and otherwise the same error for ever. |
| StreamAdapters.DefaultUntilTailError | src/lib/drivers/zenoh/raw_adapter.rs:108-119 | Up to its first tail error, a reader with the default `decode_eof` behaves like one whose tail is drained once. |
| ZenohEnding.DefaultRun | src/lib/drivers/zenoh/raw_adapter.rs:105-132 | Under the default `decode_eof`, any number of polls gives the values of the concatenated samples in order, all of them in time, and then the end, or the tail error for ever if bytes are left. |
| ZenohEnding.EndsExactly | src/lib/drivers/zenoh/raw_adapter.rs:115-119 | Some poll reports the end if and only if the decoder leaves no bytes of the samples. |
| ZenohEnding.DefaultIsOneShotThenRepeats | src/lib/drivers/zenoh/raw_adapter.rs:108-119 | Up to and including the first tail error a run gives what one drain of the tail gives, and behind it only that error again. |
| Framing.FramerObeysLaws | src/lib/drivers/zenoh/raw_adapter.rs:109-112 | A MAVLink 2 framer takes bytes with each frame, is stable under appended bytes, and never grows the buffer. |
| Framing.FramesSurviveWebSocket | src/lib/drivers/websocket/client_adapter.rs:76-107 | Valid frames cut into binary messages anyhow come out whole, all, and in order. |
| Framing.FramesSurviveZenoh | src/lib/drivers/zenoh/raw_adapter.rs:105-132 | The same over Zenoh samples: enough polls under the default `decode_eof` give exactly the frames, and the next one the end. |
| Framing.PartialFrameNeverEnds | src/lib/drivers/zenoh/raw_adapter.rs:108-119 | When the stream stops inside a frame, the polls give the whole frames and then the same error again and again. |
| Framing.LoneMagicNeverEnds | src/lib/drivers/zenoh/raw_adapter.rs:108-119 | For one, every poll of a stream of a single magic byte returns that error. |
| Tlog.HandleFile | src/lib/drivers/tlog/reader.rs:71-145 | The nested scan loops over the peek reader send exactly the records of the scan specification that no callback refuses. |
| Tlog.KeptAll | src/lib/drivers/tlog/reader.rs:134-139 | When no callback refuses a record, every record of the scan is sent. |
| Tlog.RoundTrip | src/lib/drivers/tlog/reader.rs:81-126 | Reading what was written for valid frames gives the same timestamps and bytes in order, whatever follows. |
| Tlog.Resynchronizes | src/lib/drivers/tlog/reader.rs:83-102 | Stray bytes are skipped without losing a record when they and the timestamp hold no 0xFD behind their first eight bytes, where alone the scan looks. |
| Tlog.SkipsStraysExactly | src/lib/drivers/tlog/reader.rs:83-102 | Any n stray bytes without 0xFD before a record are harmless if and only if the last n bytes of its timestamp, or all eight, hold no 0xFD. |
| Tlog.MagicInTimestampConfuses | src/lib/drivers/tlog/reader.rs:83-94 | A record with a 0xFD at any byte of its timestamp is lost or mistimed behind as many zeros as move that byte to where the scan looks first. |
| Tlog.StrayZeroConfuses | src/lib/drivers/tlog/reader.rs:83-94 | For one, the time 0xFD behind a single zero byte. |
| Tlog.ScanRecord | src/lib/drivers/tlog/writer.rs:121-124 | A reader at the start of a good record returns it and is then at the next. |
| WireFormat.RecordLayout | src/lib/drivers/tlog/writer.rs:121-124 | A record is eight bytes of time, highest byte first, and the frame. |
| TlogWriter.ArmStateIsParsed | src/lib/drivers/tlog/writer.rs:402-421 | The byte-6 test agrees with reading base_mode from the zero-extended HEARTBEAT, truncated payloads included. |
| TlogWriter.RunsAreRecorded | src/lib/drivers/tlog/writer.rs:155-204 | After any events: each file was created after the last one's end, under WhileArmed behind an arm from the origin that is later than that end; it holds exactly the accepted messages from its creation to the first event that ends it, a disarm from the origin included; and it ended as that event says. |
| TlogWriter.DisarmIsLast | src/lib/drivers/tlog/writer.rs:126-143 | A disarm from the origin is the last message of its file, and only a file it closed has one. |
| TlogWriter.LatchIsKept | src/lib/drivers/tlog/writer.rs:369-385 | Once set, the latched system id survives every event. |
| TlogWriter.LatchIsSetWhenExpected | src/lib/drivers/tlog/writer.rs:131-133 | The `expect` on the latch never fires, and a configured system id is the one latched. |
| TlogWriter.FilesReadBack | src/lib/drivers/tlog/writer.rs:121-124 | Read by the tlog reader, a file gives the accepted messages of its stretch of the run, in order. |
| RecorderGate.NoArmIsMissed | src/lib/drivers/tlog/writer.rs:154-204 | After any events, told from them alone: each gate opened at the first arm behind the end of the file before it, and each file was begun at the first creation behind that, or behind that end without a gate. A run that waits for an arm has seen none since from the latched system or, with no latch, from any; one that waits for a file has seen none created; and without a gate no run waits for an arm. |
| RecorderGate.EveryArmOpensAFile | src/lib/drivers/tlog/writer.rs:154-204 | A run that waits goes on, at an arm and a creation, with one file more, whatever it has recorded before. |
| RecorderGate.ArmOpensExactly | src/lib/drivers/tlog/writer.rs:351-394 | A message opens the gate if and only if it is a heartbeat of the gating component with bit 7 of byte 6 set, from the latched system if there is one; it then settles the system. |
| RecorderGate.DisarmEndsExactly | src/lib/drivers/tlog/writer.rs:126-143 | An accepted message is written, and ends the file if and only if it is a heartbeat of the gating component and the latched system without that bit, or cut off before it. |
| TlogWriter.Recorder.WaitForArm | src/lib/drivers/tlog/writer.rs:351-394 | The loop consumes events up to the opening arm, latching the system, as the state machine of `RecorderGate` does. |
| TlogWriter.Recorder.HandleClient | src/lib/drivers/tlog/writer.rs:90-148 | Writes accepted messages until a disarm, a failure or a closed hub, as the state machine does. |
| TlogWriter.Recorder.Run | src/lib/drivers/tlog/writer.rs:154-205 | The run loop over all its events ends in the state the state machine reaches. |
| Stats.IndexAgreesWithTotals | src/lib/stats/accumulated/messages.rs:27-40 | For every stream, counts and bytes summed over systems, components and messages equal the flat totals modulo 2^64. |
| Stats.IndexCorrect | src/lib/stats/accumulated/messages.rs:27-40 | The index has exactly the keys that occurred, each with the count and byte sum of its messages. |
| Stats.TotalIsPlainSum | src/lib/stats/accumulated/mod.rs:43-51 | The wrapping totals are the plain count and byte sum modulo 2^64. |
| Stats.NewIsUpdated | src/lib/stats/accumulated/mod.rs:32-51 | Creating an entry for a first message counts it as updating an empty entry would. |
| Stats.AccumulatedHubMessagesStats.Update | src/lib/stats/accumulated/messages.rs:28-39 | Enters or updates one entry of the nested maps and no other. |
| Stats.AccumulatedStatsInner.Update | src/lib/stats/accumulated/mod.rs:43-51 | Adds one message and its bytes, wrapping. |
| Stats.StatsTask | src/lib/hub/actor.rs:248-262 | Feeds both accumulators with every message before the first receive error, leaving them in agreement. |
| Stats.CountsAllExactly | src/lib/hub/actor.rs:255-259 | All messages received are counted if and only if none follows a receive error. |
| Stats.LagEndsCounting | src/lib/hub/actor.rs:255-259 | For one, a message behind a lag is not counted. |

## Left out

- VehicleDownload.DownloadRepairs: with the burst request lost, as the vehicle's server does not serve bursts, one cycle, and no other caller drawing numbers meanwhile.
- Infinite runs: a schedule is finite and then silent; what lasts for ever is stated for every finite length.
- InOrderLink.ExactlyOnce: assumes that the link is in order, that the vehicle replays its last reply to a repeated number, that no other FTP packet from the vehicle passes for one of its replies, and that other callers draw fewer than 65535 numbers between two of an operation's requests.
- BurstCorrectness.DownloadCorrect: for files shorter than 2^32 bytes; a chunk that ends at or past 2^32 wraps the offset in the source and breaks the bookkeeping, which `NoWrap` excludes.
- Sessions.AtMostOneSession: only within the limits on replies that `Sessions.SafeExactly` shows to be needed, which rule out burst reads; so do `ResetHitsNobody`, `OnlyOwnRequests`, `SessionStaysOpen` and `NextKeepsInv`.
- DirectoryListing.ListingComplete: for listings of fewer than 2^32 entries, the range of the offset field.
- StreamAdapters.ZenohChunkingDoesNotMatter: for a `decode_eof` that takes bytes with each value; the default one, whose tail error takes none, is the subject of `ZenohEnding`.
- Framing.FramerObeysLaws: about a MAVLink 2 framer that stands for the codec library, which is not part of this model.
- Stats.AccumulatedStatsInner.Update: without the last message, the time of the last update and the delay, which depend on the clock.
- Single-request operations (remove, create directory, rename, truncate, checksum): one `Transport.Call` each.
- The vehicle is an assumption: its files, sessions, listings and refusals are those of `FtpServer`; a vehicle's own bugs, session limits and timeouts are not modelled. Its burst replies are not served by it but arrive as arbitrary packets.
- Time: timeouts are events; the pauses of the recorder and the pacing of retries do not appear.
- Callbacks of the tlog reader and writer are a verdict per message; what they do besides is not modelled.
- Names and numbers of log files: creating a file either succeeds with a fresh file or fails. A fixed `.tlog` path is truncated at each creation in the source.
- The MAVLink library's frame validity, checksums, dates and the codec are parameters; they are not part of the repository. Its read is taken to leave everything but the skipped bytes and the magic byte.
- Listing text is bytes; the replacement of invalid UTF-8 is not modelled.
- The registry's lock guards are not held across steps in `Downloads`, which allows more interleavings than the source has.
- Resets of the statistics, and the other statistics actors.
- Aliasing of Arc-shared sessions and buffers: shared cells are state-machine state, and file buffers are sequences that methods reassign.
- Sockets, serial lines, HTTP routes, the command line, the web page, autopilot tables, logging and error texts.
