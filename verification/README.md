# Komitake, modelled in Dafny

Komitake is a Go daemon that pairs karts over a private access point, keeps their handshake connections open,
drives them and streams their video. This project models the parts of it whose correctness is not visible in any
one function body and proves what they promise. `dafny verify dfyconfig.toml` checks the whole project.

## What is modelled

**The live-video pipeline.** The access-unit splitter (`AccessUnits`, `AccessUnitLaws`) is a nested loop over a
growing buffer; it is proved to emit, for every way a stream is cut into reads, the units of a one-shot split
(NAL type 9 of ITU-T H.264 Annex B marks a boundary). The datagram side (`LspPacket`, `LspAssembler`,
`VideoAssembler`, `LspReceiver`, `LspServer`) is the receive loop, the generation map and the self-synchronising
container; `LspFragments` and `LspContainer` are a reference writer for the same format, and `LspHeader` says byte by
byte which headers pass. `LspDamage` is what becomes of packets and records that no writer would produce. `LspRuns`
follows the loop over every sequence of arrivals, `LspStream` goes the whole way from records to recovered frames, and
`LspRecovery` says what disturbs that and that it starts again after it.

The hub (`HubState`, `VideoHub`) is a class whose methods refine functions on a value state. `HubDrains` takes a
publish apart into the steps it makes under the lock, between any two of which a reader may receive, because readers do
not take the lock. `HubViews` is one subscriber's side of that, `HubDrainLaws` and `HubDrainRuns` what holds over every
run of those steps and all other operations, `HubDrainExample` the run in which a reader is handed a frame it cannot
decode. `HubRuns` has the coarser runs in which a publish is one step, and `HubUndisturbed` shows that these are the
finer runs in which no receive falls into a publish. `HubBacklogs` and `HubOperations` say what each operation means
for the backlog and for every subscriber, in terms of frames alone, and what the backlog is after any run.

**The lease server.** `IPv4` gives the byte-wise address operations their meaning as numbers, `Leases` is the
allocator over its three maps, `DhcpWire` the packet reader and the reply writer (RFC 2132 section 2), `DhcpServer`
the class with the code's loops, `DhcpRuns` every run of packets at non-decreasing times (RFC 2131 section 4.3).
`DhcpPromise` says what every packet does in terms of who holds which address until when, and whether the lease time
a client is told is kept.

**The RCD handshake.** `RcdMessage` is the framing, `RcdTranscript` the block-buffered hash, `RcdHandshake` and
`RcdService` the command machine as functions and as the class that refines them, `RcdServer` the serving loop,
`RcdRuns` what every sequence of messages, valid or not, leads to, and `RcdConnection` what every string of bytes on a
connection does. `RcdProtocol` is the protocol as a client sees it, on messages alone, and every answer is proved to
follow it; `RcdWire` carries that down to the bytes of a connection. The hash functions are parameters of which only
the digest lengths are used.

**Daemon lifecycle.** `ControlSession` is a step relation for the setup goroutine of a kart's control session, the
teardown that may interrupt it between any two steps, and the callers of that teardown; one action is one critical
section or one fallible call, and `m.mu` and `dc.mu` are held across actions where the code holds them.
`ControlRuns` carries the invariant, `ControlLaws` states what follows for every run, `ControlRecords` that the
manager's two maps agree and which karts they know, and `ControlStory` what a session that nobody disturbs ends up
with, from how its own calls turned out; `ControlCancels` says exactly when a session's context is cancelled.

`ModeState` and `ModeManager` are `SetState` with all its points of failure, as a function and as the class that refines
it; `ModeOutcomes` says what one call answers, writes and leaves on air, and `ModeRuns` covers every run of calls, timer
expiries and `Close`.

## What the proofs found

The model follows the code. Where a property one would expect does not hold of it, the exact condition is proved.

- `SplitUndoesConcat`: joining units and splitting again is the identity exactly when no unit of six bytes or more
  that ends in a zero byte is followed by a unit with a three-byte start code: the zero is taken for the longer
  start code.
- `DecodableIffUndisturbed` and `DisturbedRun`: a full queue is emptied one frame at a time while its reader may be
  receiving. A frame received in between has lost the one before it, and the marker that tells of the loss comes only
  behind it: with 2 to 5 queued and 6 published, a reader that is at 1 can be handed 3 and then the marker. What a
  subscriber receives is decodable exactly if it receives no frame other than a key frame directly after a drain of its
  queue took one. Order, no repeats and the marker behind any damage hold without that condition.
- `ScanEnds`: the configuration accepts a subnet with prefix 0 (internal/config/config.go:549-574). For it the scan
  never leaves the subnet, wraps around, and ends exactly if some address is neither the gateway nor the broadcast
  address nor in use; it takes about 2^32 - 2 live leases for it not to end, and no lemma exhibits such a table. Every
  operation is modelled under that condition, and unconditionally for prefixes from 1 on.
- `ScanStart`: the first lease address is made by adding two to the last byte without a carry; for a prefix of at
  most 30 that byte has room, and for longer prefixes the scan is over at once or starts outside the subnet.
- `NetworkAddressIsGranted`: a REQUEST that names the network address itself is acknowledged, although the allocator
  never offers it: `claim` excludes the gateway and the broadcast address only.
- `TimeToldIsKept`: an acknowledgement tells the client a lease of 28800 seconds (option 51). A REQUEST without an
  address (option 50) from a client whose lease still runs is acknowledged like that and does not extend the lease, so
  the time told is longer than the address is kept, unless the lease is renewed later. Every other grant is kept.
- `EveryChangeIsCaught`: the check of a packet's header catches every change of one byte, except in the top bit of the
  byte at offset 4, which it masks.
- `FourthByteOverlaps`: a number of four bytes whose last byte has its top bit set is read with that bit in the digit
  before it.
- `RejectedLeavesUnchanged` and `EntropyFailureSkipsBegin`: a begin whose random source fails is rejected and yet
  moves the handshake on, so that the next command is accepted without it. Every other rejection changes nothing.
  The branch is dead with the Go version of go.mod (1.26.0): since Go 1.24 `crypto/rand.Read` never returns an error.
- `SerialCheckIdle`: the check of a packet's serial against the previous one is idle; whatever the assembler is
  given, nothing would change without it.
- `DeafExactlyAfterLastWrite`: when only the last write of the pairing file fails, the daemon is RUNNING with a
  listener that nobody accepts from, and asking for RUNNING again does nothing.
- `StaleRecord` and `AirAfterDown`: a PAIRING start that fails at its record or its listener leaves the record and
  the access point in DOWN, and asking for DOWN does not clear either.
- `DownStaysDown` and `StaleTimerRevives`: a pairing timer that fired before it was disarmed still makes its call,
  and can bring a daemon put to DOWN back to RUNNING. DOWN is safe from that exactly when as many timers have made
  their call as have fired.
- `SetStateKeepsMode`: the mode invariant fails exactly when the access point will not stop on the way to DOWN. The
  stop of internal/wireless/ap.go:285-335 never reports an error, so with it the invariant always holds.
- `ObserverInStep`: the transitions an observer is told of form a chain up to the current state exactly if no failing
  call moves the state; such a call tells nobody.
- `TypedNilIsFatal`, `FailedSenderPanics`, `CrashIsReachable` and `CrashNeedsTypedNil`: the production constructor of
  drive senders (internal/daemon/daemon.go:194-196) returns a non-nil interface holding a nil pointer when it fails.
  From wherever a run has come to, the next steps of that setup goroutine then panic; a run in which no sender fails to
  open that way does not. Only uses of the drive sender can panic in this model.

## Model
| member | source | states |
|---|---|---|
| `AccessUnits.FindAudStart` | internal/daemon/video_transcoder.go:215-225 | the position found is the least one at or after the start where a delimiter is recognised, and -1 exactly when there is none |
| `AccessUnits.FirstAudUnique` | internal/daemon/video_transcoder.go:215-225 | "least recognised position" has one answer, so the scan is determined by what a delimiter is |
| `AccessUnits.FirstAudExtends` | internal/daemon/video_transcoder.go:215-225 | a delimiter once found stays where it is when more bytes arrive |
| `AccessUnits.SplitDrop` | internal/daemon/video_transcoder.go:181-201 | bytes in which no delimiter starts may be dropped from the front without changing the split of buffer plus future |
| `AccessUnits.KeepTail` | internal/daemon/video_transcoder.go:181-201 | with no delimiter found, the last eight bytes are all the future can depend on |
| `AccessUnits.CutFirst` | internal/daemon/video_transcoder.go:181-201 | once the next delimiter is in the buffer, the unit before it is final whatever follows |
| `AccessUnits.CutUnits` | internal/daemon/video_transcoder.go:181-201 | what was emitted plus the split of the buffer and any future is the split of everything received, and no finished unit stays behind |
| `AccessUnits.TakeChunk` | internal/daemon/video_transcoder.go:178-202 | one read, empty or not, keeps that agreement; a refused unit leaves a prefix of the split |
| `AccessUnits.EmitRest` | internal/daemon/video_transcoder.go:203-210 | at the end of the stream everything the one-shot split has is emitted |
| `AccessUnits.ReadAccessUnits` | internal/daemon/video_transcoder.go:174-213 | streaming equals batch: for every cutting of the stream into reads the units emitted are those of the one-shot split, all of them at the end, all but the unfinished last one at an error; a refusing callback stops the loop at once |
| `AccessUnitLaws.SplitLosesOnlyAPrefix` | internal/daemon/video_transcoder.go:174-213 | the emitted units joined are the stream from the first delimiter on |
| `AccessUnitLaws.EveryUnitOpensWithDelimiter` | internal/daemon/video_transcoder.go:174-213 | every emitted unit begins with a delimiter |
| `AccessUnitLaws.RecognisedExactlyIf` | internal/daemon/video_transcoder.go:215-225 | a delimiter is recognised exactly where the bytes read 00 00 01 and a type of 9 and one byte more, or 00 00 00 01 and a type of 9, in either form with a byte behind it |
| `AccessUnitLaws.SplitUndoesConcat` | internal/daemon/video_transcoder.go:174-225 | for lists of single units, splitting undoes joining if and only if no unit ending in a zero byte meets a short start code |
| `HubState.PublishValid` | internal/daemon/video_hub.go:47-88 | publishing keeps: backlog bytes counted and capped, backlog empty or with its only key frame first, at most four frames queued, a channel open exactly while subscribed, IDs never reused |
| `HubState.UnsubscribeValid` | internal/daemon/video_hub.go:90-101 | so does unsubscribing, twice included |
| `HubState.DiscontinueValid` | internal/daemon/video_hub.go:103-123 | so does a discontinuity, which cuts off subscribers without room |
| `HubState.RemoveValid` | internal/daemon/video_hub.go:137-149 | so does removing a device |
| `HubState.SubscribeValid` | internal/daemon/video_hub.go:151-207 | so does subscribing, under an ID never used before |
| `HubState.ReceiveValid` | internal/daemon/video_hub.go:178-205 | so does a receive |
| `HubDrainRuns.EveryMoveValid` | internal/daemon/video_hub.go:47-217 | wherever a run of all operations stops, also between two frames taken by a drain, the invariant holds |
| `HubDrainRuns.AlwaysInPublishOrder` | internal/daemon/video_hub.go:47-217 | over all those runs a subscriber receives frames in publish order, each at most once, and markers |
| `HubDrainRuns.DecodableIffUndisturbed` | internal/daemon/video_hub.go:178-217 | over all those runs: every frame a subscriber received was a key frame or the immediate successor of the one received just before it, if and only if it received no frame but a key frame directly after a drain of its queue took one |
| `HubDrainRuns.DecodableOnSight` | internal/daemon/video_hub.go:178-217 | the same iff on the frames alone, whatever indices one assigns them, when no two published frames are the same |
| `HubDrainRuns.DamageIsMarked` | internal/daemon/video_hub.go:80-86 | unless its queue is just being emptied, a subscriber that received a frame without its predecessor has received a marker since or has one pending |
| `HubDrainRuns.ReadyRunLosesNothing` | internal/daemon/video_hub.go:47-88 | over any part of a run in which a subscriber stays ready it is given every frame offered to its device, in order, and no marker |
| `HubDrainExample.DisturbedRun` | internal/daemon/video_hub.go:178-217 | a run from the start in which a reader is handed frames 1 and 3 of six and then the marker, which no assignment of indices makes decodable |
| `HubUndisturbed.DrainedWithReader` | internal/daemon/video_hub.go:209-217 | whoever is first at each removal, a drain and a reader empty the queue, and the reader has, in order, what it was first for |
| `HubUndisturbed.PublishesWhole` | internal/daemon/video_hub.go:47-88 | the steps of a publish that nobody interferes with end where the publish in one step does |
| `HubUndisturbed.RunInWhole` | internal/daemon/video_hub.go:47-217 | every run whose publishes are single steps is an undisturbed run of those taken apart |
| `HubUndisturbed.EveryRunValid` | internal/daemon/video_hub.go:47-207 | the invariant holds after every run of the six operations with publishes as single steps |
| `HubUndisturbed.EveryRunDecodable` | internal/daemon/video_hub.go:47-207 | in every run in which no receive falls into a publish, each frame a subscriber receives is a marker, a key frame, or the immediate successor in publish order of the frame received just before it |
| `HubUndisturbed.KeyFrameResumes` | internal/daemon/video_hub.go:47-88 | after every such run, a key frame within the cap makes every subscriber of the device that has room ready again and is queued for it |
| `HubBacklogs.PublishedBacklog` | internal/daemon/video_hub.go:47-75 | the backlog after a publish, from the frames: the old one, or none for a key frame, and the frame, if there is a key frame to go back to and the bytes are within 128 MiB, and otherwise empty |
| `HubBacklogs.PublishedTo` | internal/daemon/video_hub.go:62-88 | every subscriber after a publish: ready, and given exactly the frame, if and only if the frame was recorded, it was ready or the frame is a key frame, and fewer than four frames are queued; with four queued, a marker in their place |
| `HubBacklogs.BacklogIsLastGroup` | internal/daemon/video_hub.go:47-149 | after every run of the six operations with publishes as single steps, the backlog is exactly the frames published since the last key frame if these are within the cap and no discontinuity or removal came since, and otherwise empty |
| `HubOperations.UnsubscribeEnds` | internal/daemon/video_hub.go:90-101 | the subscription is over and its channel closed, what is queued can still be read, nobody else notices, and a second time does nothing |
| `HubOperations.DiscontinueDoes` | internal/daemon/video_hub.go:103-123 | the backlog is empty and nobody of the device ready; who has room gets a marker, who has none is unsubscribed and its channel closed |
| `HubOperations.RemoveDoes` | internal/daemon/video_hub.go:137-149 | the device has no backlog and no subscriber, their channels are closed and can be read to the end, and other devices are as before |
| `HubOperations.SubscribeDoes` | internal/daemon/video_hub.go:151-177 | a new ID with an open channel, to read the backlog first, ready exactly if there is one and it was not skipped |
| `HubOperations.ReceiveDoes` | internal/daemon/video_hub.go:178-205 | the oldest of what the subscriber has still to receive is taken, and nobody else notices |
| `VideoHub.VideoHub.constructor` | internal/daemon/video_hub.go:43-45 | an empty hub satisfying the invariant |
| `VideoHub.VideoHub.Send` | internal/daemon/video_hub.go:80-86 | the marker sent after a drain finds room, on an open channel |
| `VideoHub.VideoHub.Drain` | internal/daemon/video_hub.go:209-217 | the queue is empty afterwards and nothing else changed, whatever a reader receives meanwhile; the reader got, in order, the frames it was first for |
| `VideoHub.VideoHub.Offer` | internal/daemon/video_hub.go:76-87 | one subscriber's queue and readiness after a frame, overflow included, and nobody else's; what its reader got meanwhile |
| `VideoHub.VideoHub.Publish` | internal/daemon/video_hub.go:47-88 | the whole new state of hub and channels, with the invariant, the same for every schedule of readers during the drains, and what each reader got |
| `VideoHub.VideoHub.Unsubscribe` | internal/daemon/video_hub.go:90-101 | the same, closing the channel at most once |
| `VideoHub.VideoHub.PublishDiscontinuity` | internal/daemon/video_hub.go:103-123 | the same |
| `VideoHub.VideoHub.Remove` | internal/daemon/video_hub.go:137-149 | the same |
| `VideoHub.VideoHub.Subscribe` | internal/daemon/video_hub.go:151-177 | the same, with the snapshot to be read before the channel and a new ID |
| `VideoHub.VideoHub.Receive` | internal/daemon/video_hub.go:178-205 | hands out the snapshot first, then the channel, in order |
| `LspPacket.NiffinRoundTrip` | internal/daemon/lsp_video.go:29-52 | every well-formed source datagram is read back with its generation, index, count, sequence and packet |
| `LspPacket.ReadBase128` | internal/daemon/lsp_video.go:161-178 | the loop computes the recursive reader, running out of bytes and a fourth byte included |
| `LspPacket.Base128RoundTrip` | internal/daemon/lsp_video.go:161-178 | the reader inverts the writer for every number below 2^28, in one to four bytes, before any suffix |
| `LspPacket.FourthByteOverlaps` | internal/daemon/lsp_video.go:161-178 | a fourth byte with its top bit set is read as the last one, with that bit in the digit before it |
| `LspPacket.ContainsNALType` | internal/daemon/lsp_video.go:252-266 | true exactly when a start code followed by a unit of that type lies in the payload |
| `LspAssembler.ConsumeGood` | internal/daemon/lsp_video.go:83-159 | on every packet and from every reachable state: synchronized means a size from 16 to 1400, an active record has its prefix and its stored length, every frame has data of length total - 32, at least 1, and frame numbers go up by one |
| `LspAssembler.SerialCheckIdle` | internal/daemon/lsp_video.go:83-130 | over every sequence of packets, discards and resets, from every reachable state, frames and state are the same with the serial comparison and without it |
| `VideoAssembler.VideoAssembler.constructor` | internal/daemon/lsp_video.go:70 | a fresh assembler, unsynchronized |
| `VideoAssembler.VideoAssembler.DiscardActiveFrame` | internal/daemon/lsp_video.go:72-74 | only the active record is given up |
| `VideoAssembler.VideoAssembler.ResetAll` | internal/daemon/lsp_video.go:76-81 | everything but the frame number is given up |
| `VideoAssembler.VideoAssembler.Consume` | internal/daemon/lsp_video.go:83-159 | in bounds and terminating on every packet; state, frames and error as specified, with the invariant |
| `VideoAssembler.VideoAssembler.ConsumeMediaEntries` | internal/daemon/lsp_video.go:180-227 | the entry loop agrees with folding single entries, up to the first error |
| `LspHeader.AcceptedExactlyIf` | internal/daemon/lsp_video.go:89-99 | a header passes if and only if it begins with L2 and its two check bytes are the exclusive or of 0xAA and the even and the odd bytes of its anchor, the top bit of the first left out |
| `LspHeader.EveryChangeIsCaught` | internal/daemon/lsp_video.go:89-99 | in a header that passes, changing any one byte of check or anchor makes it fail, if and only if the change is not in the top bit of the byte at offset 4 alone |
| `LspHeader.AcceptedExample` | internal/daemon/lsp_video.go:89-99 | the header 4C 32 AA AB, seven zeros, 01 and any size passes |
| `LspFragments.PacketIsItsPieces` | internal/daemon/lsp_video.go:180-250 | the entries of a packet written from pieces are exactly these pieces, in order |
| `LspFragments.BoundariesDoNotMatter` | internal/daemon/lsp_video.go:180-227 | how pieces are placed into packets does not affect the result |
| `LspFragments.RecordReassembled` | internal/daemon/lsp_video.go:180-227 | one record, cut into pieces in any way after its bare header, becomes its frame |
| `LspFragments.KeyFrameExactlyIf` | internal/daemon/lsp_video.go:213-266 | the assembler takes a frame for a key frame exactly if somewhere in its data a start code of either length is followed by a slice header of type 5 that is not the last byte |
| `LspFragments.ReassemblyUndoesFragmentation` | internal/daemon/lsp_video.go:180-250 | for every list of records with data, every cutting and every placement into packets, exactly their frames come out, in order |
| `LspContainer.FirstPacketRead` | internal/daemon/lsp_video.go:83-159 | the packet that synchronizes an assembler is read over its header, any supported descriptors with numbers in one to four bytes, and its section, and then is its pieces |
| `LspContainer.LaterPacketRead` | internal/daemon/lsp_video.go:83-159 | so is every later packet up to the synchronized size |
| `LspDamage.BetweenRecords` | internal/daemon/lsp_video.go:180-227 | outside a record every piece is passed over but a bare header, and a header that declares less than itself is an error |
| `LspDamage.RecordCounted` | internal/daemon/lsp_video.go:180-227 | whatever total a record declares and however its data is cut, it becomes its frame if and only if the total is right, and otherwise nothing, and the next record starts afresh |
| `LspDamage.EntriesUpToDamage` | internal/daemon/lsp_video.go:180-250 | entries in front of bytes that are no entry, of unknown kind or cut short, count; the record under way is lost and the packet ends in an error |
| `LspDamage.NoHeader` | internal/daemon/lsp_video.go:83-104 | without a header that passes and declares 16 to 1400 bytes, an unsynchronized assembler gives nothing and goes on waiting |
| `LspDamage.LaterPacketDamaged` | internal/daemon/lsp_video.go:180-227 | a packet damaged behind its pieces counts up to there and leaves the assembler synchronized |
| `LspDamage.FirstPacketDamaged` | internal/daemon/lsp_video.go:83-227 | so does the packet that synchronizes it |
| `LspDamage.FirstPacketFaulty` | internal/daemon/lsp_video.go:105-148 | a good header and descriptors before an unsupported or unfinished descriptor, a missing control byte or a cut serial: nothing counts and the assembler waits for a header again |
| `LspReceiver.CompleteHasAll` | internal/daemon/device_media.go:181-184 | when the map has as many packets as the count, its keys are exactly 0 to count - 1 |
| `LspReceiver.OnArrivalOk` | internal/daemon/device_media.go:132-200 | every arrival, malformed and parity datagrams included, keeps the receiver's invariant |
| `LspServer.LSPVideoServer.TakeSource` | internal/daemon/device_media.go:161-199 | sequence check, generation change, duplicates and completion as specified, for one source datagram |
| `LspServer.LSPVideoServer.ConsumeGeneration` | internal/daemon/device_media.go:185-199 | the packets of the generation go through the assembler in index order up to the first error |
| `LspServer.LSPVideoServer.Serve` | internal/daemon/device_media.go:132-200 | what is written to the transcoder is what the arrivals so far recover, or up to the frame whose write failed; a discontinuity is published for a failed write and for nothing else |
| `LspRuns.RunIsUnbroken` | internal/daemon/device_media.go:161-166 | the run of arrivals a receiver works on has source datagrams only, each sequence number one up from the one before modulo 2^23 |
| `LspRuns.EveryFrameGapFree` | internal/daemon/device_media.go:132-200 | every frame handed to the transcoder comes out when an assembler without a record is fed complete generations of one such run, in order, each packet once and in index order |
| `LspRuns.ConsumedGenerationIsWhole` | internal/daemon/device_media.go:167-199 | whenever a generation is consumed it has every index once, one generation number and one count, all from that run |
| `LspStream.EveryRecordArrives` | internal/daemon/device_media.go:132-200 | the whole way: records with data, cut, packed, grouped into generations sent in any order within, under consecutive sequence numbers and amid datagrams that do not count, come out as exactly their frames, in order |
| `LspStream.GenerationGives` | internal/daemon/device_media.go:161-199 | a generation gives nothing before its last datagram and then what its packets give in index order, whatever order they came in |
| `LspStream.SentIsLogged` | internal/daemon/lsp_video.go:29-52 | datagrams written as bytes, with any trailers, are what the receive loop takes them for |
| `LspRecovery.SourceExactlyIf` | internal/daemon/lsp_video.go:29-52 | a datagram counts if and only if it is a source datagram as a sender lays it out |
| `LspRecovery.ParityExactlyIf` | internal/daemon/lsp_video.go:29-52 | it is a parity datagram if and only if it is laid out like one with the top bit of its third byte set |
| `LspRecovery.PassedOver` | internal/daemon/device_media.go:132-160 | datagrams from elsewhere and parity datagrams change nothing and give nothing |
| `LspRecovery.BrokenOff` | internal/daemon/device_media.go:148-160 | any other datagram of the device that is no source datagram makes the receiver wait for a header |
| `LspRecovery.RecoversAfterLoss` | internal/daemon/device_media.go:161-199 | a synchronized receiver that missed datagrams, by a gap or a generation left incomplete, or has nothing begun, recovers exactly the frames of everything sent from then on in whole generations, waiting for no header |
| `LspRecovery.CountContradicted` | internal/daemon/device_media.go:175-180 | a datagram that contradicts the count of its generation ends that generation and the record under way, and no more |
| `LspRecovery.DatagramKept` | internal/daemon/device_media.go:167-184 | a datagram that leaves its generation incomplete is kept under its index, in place of an earlier one there, and changes nothing else |
| `LspRecovery.GenerationBrokenOff` | internal/daemon/device_media.go:185-199 | a whole generation of which the assembler refuses a packet gives exactly what the packets before it give, and the record under way is lost |
| `IPv4.NextIPv4` | internal/wireless/dhcp_proto.go:351-358 | the next address is plus one modulo 2^32, through all carries |
| `IPv4.ContainsIsRange` | internal/wireless/dhcp_proto.go:222-233 | for a contiguous mask, containment is a range of numbers and the broadcast address its last |
| `IPv4.IsBroadcast` | internal/wireless/dhcp_proto.go:360-367 | true exactly for the broadcast address |
| `IPv4.ValInjective` | internal/wireless/dhcp_proto.go:351-358 | different addresses are different numbers |
| `Leases.AllocateIsLeast` | internal/wireless/dhcp_proto.go:167-194 | a client without a lease is offered the least address from base + 2 on that is in the subnet, not the gateway, not the broadcast address and not in use; nothing exactly when there is none; with prefix 0 the addresses 0 and 1 come last |
| `Leases.ClaimGrants` | internal/wireless/dhcp_proto.go:112-154 | a request for an address is granted exactly when the address is in the subnet, neither gateway nor broadcast, and nobody else's; otherwise it is refused |
| `Leases.NetworkAddressIsGranted` | internal/wireless/dhcp_proto.go:112-154 | with a prefix up to 31, asking for the network address gets it when it is neither the gateway nor in use, although it is never offered |
| `Leases.AllocateValid` | internal/wireless/dhcp_proto.go:167-194 | the three maps stay mutual inverses with one deadline each and allowed addresses only |
| `Leases.ClaimValid` | internal/wireless/dhcp_proto.go:112-154 | so they do after a claim |
| `Leases.ExpireValid` | internal/wireless/dhcp_proto.go:198-209 | and after a sweep |
| `Leases.ReleaseValid` | internal/wireless/dhcp_proto.go:156-165 | and after a release |
| `Leases.LeasesInjective` | internal/wireless/dhcp_proto.go:40-52 | two clients never hold one address |
| `Leases.SweepEmpties` | internal/wireless/dhcp_proto.go:198-209 | once every deadline has passed a sweep restores the empty pool |
| `DhcpServer.DHCPServer.constructor` | internal/wireless/dhcp_proto.go:64-75 | empty, consistent tables |
| `DhcpServer.DHCPServer.ExpireLocked` | internal/wireless/dhcp_proto.go:198-209 | the loop over the deadlines removes exactly the lapsed clients from all three maps |
| `DhcpServer.DHCPServer.Release` | internal/wireless/dhcp_proto.go:156-165 | the client is gone from all three maps, nobody else is |
| `DhcpServer.DHCPServer.FirstLeaseIP` | internal/wireless/dhcp_proto.go:211-215 | the first candidate is base + 2, or outside a subnet in which nothing from base + 2 on is free |
| `DhcpServer.DHCPServer.Scan` | internal/wireless/dhcp_proto.go:180-193 | terminates whenever the scan can end, and finds the least free address if there is one, or in the subnet of prefix 0 one of the two it reaches by wrapping around |
| `DhcpServer.DHCPServer.Allocate` | internal/wireless/dhcp_proto.go:167-194 | answer and new tables as specified, with consistency |
| `DhcpServer.DHCPServer.Claim` | internal/wireless/dhcp_proto.go:112-154 | the same over both critical sections |
| `DhcpServer.DHCPServer.HandlePacket` | internal/wireless/dhcp_proto.go:77-110 | any bytes: new tables and reply bytes as specified, with consistency |
| `DhcpServer.ScanStart` | internal/wireless/dhcp_proto.go:211-215 | the uncarried addition means base + 2, or a place where the scan is already over |
| `DhcpServer.ScanEnds` | internal/wireless/dhcp_proto.go:180-193 | the scan ends if and only if the prefix is at least 1 or some address is neither the gateway nor the broadcast address nor in use |
| `DhcpWire.ParseDHCPPacket` | internal/wireless/dhcp_proto.go:300-342 | the option loop terminates in bounds on all inputs and computes the recursive parser |
| `DhcpWire.ParseIsLastWins` | internal/wireless/dhcp_proto.go:320-341 | on every well-formed option list, however the rest breaks off, the result maps each code to its last data |
| `DhcpWire.EveryInputIsAList` | internal/wireless/dhcp_proto.go:320-341 | every byte string is such a list followed by a place where reading stops |
| `DhcpWire.Reply` | internal/wireless/dhcp_proto.go:235-280 | the buffer written step by step is the specified reply |
| `DhcpWire.ReplyParses` | internal/wireless/dhcp_proto.go:235-342 | parsing any reply to any parsed request gives 300 bytes, the same xid, hardware type and address, and exactly the options meant: 53 and 54, and unless it is a NAK 1, 28, 26, 51, 58 and 59 |
| `DhcpRuns.EveryRunConsistent` | internal/wireless/dhcp_proto.go:77-209 | the tables are consistent after every run of packets at non-decreasing times |
| `DhcpRuns.GrantIsRecorded` | internal/wireless/dhcp_proto.go:77-154 | whatever is offered or acknowledged is allowed and recorded for the asker |
| `DhcpRuns.GrantHasDeadline` | internal/wireless/dhcp_proto.go:77-154 | with a deadline later than the packet |
| `DhcpRuns.AfterHolds` | internal/wireless/dhcp_proto.go:77-209 | before its deadline a lease survives every packet by which its holder does not give it up |
| `DhcpRuns.LeaseExclusive` | internal/wireless/dhcp_proto.go:77-209 | over whole runs: an address granted to one client is granted to no other before the recorded deadline, unless the first releases it, declines it or moves |
| `DhcpRuns.GrantOnTheWire` | internal/wireless/dhcp_proto.go:77-110 | the reply bytes of a grant parse to its type, its address and the asker's identity |
| `DhcpPromise.ReadExactlyIf` | internal/wireless/dhcp_proto.go:300-318 | a packet is read if and only if it has 240 bytes, the cookie and a hardware address of 1 to 16 bytes; which error otherwise, and where each field lies |
| `DhcpPromise.DiscoverDoes` | internal/wireless/dhcp_proto.go:77-194 | a DISCOVER is answered with the client's live lease renewed for 28800 seconds, or with the least address that is usable and nobody's, leased for that time; not at all if and only if there is none; nobody else's live lease changes |
| `DhcpPromise.RequestDoes` | internal/wireless/dhcp_proto.go:77-154 | a REQUEST is acknowledged, and the lease then runs 28800 seconds, if and only if the address asked for is usable and nobody else's; without an address, the live lease is confirmed as it is, or an address found as for a DISCOVER; otherwise it is refused |
| `DhcpPromise.OthersDo` | internal/wireless/dhcp_proto.go:77-110 | a RELEASE or DECLINE ends the sender's lease and no other; any other packet changes nothing; neither is answered |
| `DhcpPromise.AnswersTell` | internal/wireless/dhcp_proto.go:235-280 | the reply bytes of an OFFER, ACK or NAK: 300 bytes, kind, address, server and, but for a NAK, mask, broadcast address, MTU 1500 and times, with the asker's identity |
| `DhcpPromise.TimeToldIsKept` | internal/wireless/dhcp_proto.go:112-280 | after every grant the address is held at least as long as option 51 of the reply says, except if and only if the client asked for no address, its lease was live, and that lease was shorter |
| `DhcpPromise.ExclusiveForTheTimeTold` | internal/wireless/dhcp_proto.go:77-280 | over whole runs: a grant of any other kind keeps its address from all other clients for the time the reply told, unless its holder gives it up |
| `RcdMessage.EncodeMessage` | internal/rcd/rcd.go:78-89 | the fields written one by one into the buffer are the specified header followed by the payload |
| `RcdMessage.DecodeEncoded` | internal/rcd/rcd.go:44-89 | decoding an encoding gives the message back if and only if its payload is at most 0x1000 bytes |
| `RcdMessage.Conn.ReadMessage` | internal/rcd/rcd.go:101-122 | the message or error, and exactly what was taken off the stream |
| `RcdMessage.OversizedReadsNoPayload` | internal/rcd/rcd.go:101-122 | a declared length above the bound takes the header and nothing more |
| `RcdMessage.ReadIsBounded` | internal/rcd/rcd.go:101-122 | one read, successful or not, never takes more than a header and 0x1000 bytes |
| `RcdMessage.FramingRoundTrip` | internal/rcd/rcd.go:41-122 | reading the joined encodings of any list of bounded messages returns the list and leaves no byte |
| `RcdTranscript.Transcript.Append` | internal/rcd/rcd.go:930-938 | hashed and buffered bytes together grow by the exchange, and the buffer stays under one block |
| `RcdTranscript.Transcript.FlushedDigest` | internal/rcd/rcd.go:940-942 | the hash of the longest whole-block prefix of everything appended |
| `RcdTranscript.Transcript.Finalize` | internal/rcd/rcd.go:944-951 | the hash of everything appended followed by the client's digest |
| `RcdTranscript.Replay` | internal/rcd/rcd.go:917-951 | however bytes are divided among appends: the flushed digest is the hash of the longest whole-block prefix, the final one that of everything and the client's digest |
| `RcdTranscript.AppendBlocks` | internal/rcd/rcd.go:930-938 | flushing as blocks fill is flushing everything anew |
| `RcdHandshake.SelectsCommonVersion` | internal/rcd/rcd.go:813-870 | negotiation selects a version exactly if the two lists share one, and then one in both |
| `RcdHandshake.HandleKeepsDeviceKnown` | internal/rcd/rcd.go:683-731 | the device is non-nil wherever a command dereferences it |
| `RcdHandshake.RejectedLeavesUnchanged` | internal/rcd/rcd.go:762-915 | a rejected message leaves the whole service as it was, if and only if it is not a begin in its turn that failed for want of entropy |
| `RcdService.HandshakeService.BeginHandshake` | internal/rcd/rcd.go:762-811 | reply and new service as specified, error paths included |
| `RcdService.HandshakeService.NegotiateVersion` | internal/rcd/rcd.go:813-870 | the same, over the nested version search |
| `RcdService.HandshakeService.ReleaseSecretKey` | internal/rcd/rcd.go:872-888 | the same |
| `RcdService.HandshakeService.FinalizeHandshake` | internal/rcd/rcd.go:890-915 | the same, announcing the device on success only |
| `RcdService.HandshakeService.Handle` | internal/rcd/rcd.go:683-731 | one message: the dispatched command, and the exchange in the transcript only if it was accepted |
| `RcdRuns.AcceptedCommandsInOrder` | internal/rcd/rcd.go:683-915 | over every message sequence the accepted commands are a prefix of 1, 2, 4 or, only when pairing, of 1, 2, 3, 4 |
| `RcdRuns.AnnouncedOnlyWhenMatched` | internal/rcd/rcd.go:890-951 | a device is announced at most once, and only after the digest of exactly the accepted exchanges matched |
| `RcdRuns.NormalModeRecognizes` | internal/rcd/rcd.go:813-870 | in normal mode completion implies that the offered pairing ID is the derived one |
| `RcdRuns.EntropyFailureSkipsBegin` | internal/rcd/rcd.go:762-811 | in either mode, after a well-formed begin that failed for want of entropy, a negotiate with the pairing ID derived from it and a common version is accepted as the first command |
| `RcdRuns.HonestClientCompletes` | internal/rcd/rcd.go:762-951 | after any message sequence, rejected ones included: once finalize is due, which a client sees, the hash of the accepted exchanges it saw completes the handshake, and the answer is the digest of all of them |
| `RcdRuns.PairingIDHandedOut` | internal/rcd/rcd.go:631-636 | after any message sequence, in either mode, the accepted negotiate was answered with the pairing ID derived from the accepted begin |
| `RcdRuns.PairThenReconnect` | internal/rcd/rcd.go:631-915 | the pairing ID handed out in any pairing-mode run is recognised after any normal-mode run that accepted the begin of the same device, and whatever is rejected after that, an honest client completes |
| `RcdServer.Server.Serve` | internal/rcd/rcd.go:445-578 | until reading fails, one response per message in order, and a device announced is reported gone at the end |
| `RcdConnection.ServiceAfterIsRun` | internal/rcd/rcd.go:503-576 | the service that answers a connection goes through the run of exactly the requests routed to it |
| `RcdConnection.AcceptedWasRequested` | internal/rcd/rcd.go:683-731 | every accepted exchange was asked for by a message on the connection |
| `RcdConnection.AnnouncedByBytes` | internal/rcd/rcd.go:445-578 | whatever bytes arrive on a connection, a device is announced only if the messages in them carried a handshake, begun by that device, whose digest matches exactly the exchanges accepted before it |
| `RcdServer.ResponseAnswersMessage` | internal/rcd/rcd.go:503-576 | the i-th response echoes service and command of the i-th message |
| `RcdServer.OutputIsReadable` | internal/rcd/rcd.go:445-578 | a peer reads exactly the responses back from the output |
| `RcdProtocol.EveryAnswerIsRight` | internal/rcd/rcd.go:683-951 | after any message sequence every further message gets the answer that follows from its bytes and the exchanges accepted so far alone: which command is due, every code of refusal, and every byte of an accepted answer |
| `RcdProtocol.KeysHandedOut` | internal/rcd/rcd.go:631-888 | in every run the ID handed out is the hash of master key, ident and name cut at its first zero, read from the bytes of the begin, and the key handed out by command 3 is the hash of master key and that ID |
| `RcdProtocol.OneKeyPerDevice` | internal/rcd/rcd.go:631-888 | a device is handed the same ID and the same key in every pairing run |
| `RcdProtocol.AnnouncedIsTheClient` | internal/rcd/rcd.go:762-915 | the device announced has the name and ident of the begin, the ID and version it was answered, and the key of that ID |
| `RcdWire.ReadsExactly` | internal/rcd/rcd.go:41-122 | what reading the next message gives and leaves for every stream, error by error, and the fields of the message as numbers in its bytes |
| `RcdWire.WritesExactly` | internal/rcd/rcd.go:78-89 | the bytes written for a message, field by field |
| `RcdWire.EveryMessageAnswered` | internal/rcd/rcd.go:445-578 | every message on a connection gets the answer of `EveryAnswerIsRight` in a response that echoes its service and command, with status zero or the code of the refusal; what is no request for service 1 is refused as a bad request |
| `ControlRuns.SetupKeepsInv` | internal/daemon/devices.go:176-300 | every step of a setup goroutine keeps one closer per resource, in its own session and in all others |
| `ControlRuns.TearKeepsInv` | internal/daemon/devices.go:313-341 | so does every step of a teardown, between which setup steps may fall |
| `ControlRuns.ActionKeepsInv` | internal/daemon/devices.go:103-349 | so does every action of every party |
| `ControlLaws.NoLeak` | internal/daemon/devices.go:158-341 | over every run: when a setup goroutine has ended and its teardown is not under way, what it opened is closed (media and drive exactly once) or attached to the deviceControl now in m.controls |
| `ControlLaws.OneCloser` | internal/daemon/control.go:359-365 | at every moment media and drive are closed at most once, and what a field names is still open |
| `ControlLaws.EstablishedSession` | internal/daemon/devices.go:230-294 | an established session has its connection, its opened drive, and media exactly if the kart was told the ports |
| `ControlStory.EstablishedAsCallsWent` | internal/daemon/devices.go:177-294 | over every run, for a session set up to the end and never cancelled: media is attached and open and the kart told its ports exactly if both calls succeeded, drive mode is on exactly if SetState did too, the sender is attached and open exactly if it opened, and the connection is attached and open |
| `ControlStory.ReportedAsCallsWent` | internal/daemon/devices.go:277-299 | what the daemon then reports of the kart: the serial that was read, if any, and armed exactly if all four calls succeeded and the sender says so |
| `ControlStory.AllAttached` | internal/daemon/devices.go:158-299 | a run from the start in which everything succeeds ends with connection, media and sender attached and open, drive mode on and the kart armed |
| `ControlLaws.SupersededIsInert` | internal/daemon/devices.go:176-300 | a setup step of a session no longer in m.controls changes neither m.controls nor m.devices |
| `ControlLaws.NewestIsCurrent` | internal/daemon/devices.go:165-174 | m.controls names the session started last for its kart |
| `ControlLaws.SupersededForEver` | internal/daemon/devices.go:158-341 | a session that has left m.controls never returns |
| `ControlLaws.CancelledAttachesNothing` | internal/daemon/devices.go:203-284 | once its context is cancelled, by teardown or at shutdown, a session attaches nothing more in any continuation, save what a check had already let through |
| `ControlLaws.SetupEnds` | internal/daemon/devices.go:177-300 | a setup goroutine takes at most 22 steps, whatever interleaves |
| `ControlLaws.NoDeadlock` | internal/daemon/devices.go:313-341 | whenever m.mu is held, its holder or the holder of the dc.mu it waits for can go on |
| `ControlLaws.LockReleased` | internal/daemon/devices.go:305-349 | from every reachable world, m.mu is free after a bounded number of actions of its holder and of those that hold what it waits for |
| `ControlLaws.SetupWaitsOnlyForLocks` | internal/daemon/devices.go:177-300 | a setup goroutine that has not ended waits for nothing but these locks |
| `ControlLaws.TypedNilIsFatal` | internal/daemon/devices.go:260-283 | a goroutine left with a typed nil never ends, and using it panics |
| `ControlLaws.FailedSenderPanics` | internal/daemon/devices.go:260-283 | from every reachable world, a sender that fails to open takes the daemon down with the next two steps of its goroutine |
| `ControlLaws.CrashIsReachable` | internal/daemon/daemon.go:194-196 | a run from the start ends in that panic |
| `ControlLaws.CrashNeedsTypedNil` | internal/daemon/devices.go:260-283 | a run that panics has a step at which a drive sender failed to open and returned a typed nil |
| `ControlRecords.SessionHasRecord` | internal/daemon/devices.go:103-349 | over every run: a kart in m.controls is in m.devices, unless its session is just being torn down because it disconnected or shut down |
| `ControlRecords.ReportNamesTheKart` | internal/daemon/devices.go:285-299 | over every run: at its last critical section an undisturbed session finds its kart in m.devices, so the event it sends names it |
| `ControlRecords.RecordAfter` | internal/daemon/devices.go:103-349 | what each action makes of the record of a kart |
| `ControlRecords.RecordsAreOfKnownKarts` | internal/daemon/devices.go:103-349 | over every run: the daemon has a record of exactly the karts registered and neither disconnected, shut down nor cleared since |
| `ControlCancels.CancelledExactlyIf` | internal/daemon/devices.go:158-349 | over every run: the context of a session is cancelled if and only if the base context is, or the session is being torn down, or it is no longer its kart's current one |
| `ControlLaws.CommandsReachAnOpenSender` | internal/daemon/control.go:190-301 | while a drive command holds dc.mu the sender in the field stays there and open |
| `ModeManager.Manager.constructor` | internal/daemon/daemon.go:158-199 | a manager in DOWN with nothing open |
| `ModeManager.Manager.StopPairingTimeoutLocked` | internal/daemon/state.go:193-198 | the timeout is disarmed; its timer is cancelled if it was armed |
| `ModeManager.Manager.StopListenersLocked` | internal/daemon/state.go:161-171 | both listener fields are nil and what they held is closed |
| `ModeManager.Manager.PersistPairingLocked` | internal/daemon/persist.go:9-34 | the file holds the record, or the bare state, if a file is configured and the write succeeds |
| `ModeManager.Manager.SetState` | internal/daemon/state.go:14-136 | result and whole new state for every target and every combination of failures |
| `ModeManager.Manager.Close` | internal/daemon/daemon.go:222-250 | everything stopped and the manager closed, once |
| `ModeOutcomes.AnswerIsFirstFailure` | internal/daemon/state.go:14-136 | the answer of a call names the first of its steps that failed |
| `ModeOutcomes.FileAfterCall` | internal/daemon/state.go:14-136 | what the pairing file holds after a call: the record with the drawn credentials exactly if a PAIRING start came as far as writing it, and otherwise a bare state or what it held |
| `ModeOutcomes.AirAfterCall` | internal/daemon/state.go:44-122 | what is on air after a call that is not refused |
| `ModeOutcomes.RefusedOrTornDown` | internal/daemon/state.go:14-59 | a refused call changes nothing, and any other ends the listeners, the devices and the timeout it found |
| `ModeOutcomes.CloseStopsEverything` | internal/daemon/daemon.go:222-250 | Close stops listeners, timeout, devices and the access point, keeps state, file and log, and does nothing a second time |
| `ModeRuns.SetStateRestores` | internal/daemon/state.go:38-136 | from any state, a call that tears down ends with the mode invariant true and no devices, unless the access point will not stop |
| `ModeRuns.SetStateKeepsMode` | internal/daemon/state.go:14-136 | running listener iff RUNNING, pairing listener iff PAIRING, timeout armed iff PAIRING, PAIRING has its record and its network on air: kept if and only if the access point does not fail to stop on the way to DOWN |
| `ModeRuns.FailureLeavesDown` | internal/daemon/state.go:38-136 | an error after teardown began leaves DOWN, except a failed last write, which leaves RUNNING, and a failed AP stop, which leaves the old state |
| `ModeRuns.SuccessReachesTarget` | internal/daemon/state.go:60-135 | success means the requested state, in the file and at the observer too, and in PAIRING the drawn credentials |
| `ModeRuns.DeafExactlyAfterLastWrite` | internal/daemon/state.go:73-87 | a RUNNING listener without an accept loop comes exactly from the failed last write, and a repeated RUNNING does not mend it |
| `ModeRuns.StaleRecord` | internal/daemon/state.go:105-122 | a pairing record remains in DOWN exactly after a PAIRING start that failed at its record or its listener |
| `ModeRuns.AirAfterDown` | internal/daemon/state.go:44-52 | what is on air in DOWN, for each way of getting there |
| `ModeRuns.EveryRunKeepsMode` | internal/daemon/state.go:14-198 | the mode invariant over every run of calls and timer expiries before Close, with an AP that stops when asked |
| `ModeRuns.NeverTwoListeners` | internal/daemon/state.go:161-171 | over every run, whatever fails: at most one listener open, and none and no timer after Close |
| `ModeRuns.PairingEnds` | internal/daemon/state.go:173-191 | in PAIRING a timer is running or its call waits, and that call ends PAIRING |
| `ModeRuns.FiredIsCount` | internal/daemon/state.go:173-198 | over every run, the timers waiting to call are those that fired less those that called |
| `ModeRuns.DownStaysDown` | internal/daemon/state.go:173-198 | the timers alone can lead out of DOWN if and only if more of them fired in the run than have made their call |
| `ModeRuns.StaleTimerRevives` | internal/daemon/state.go:173-198 | such a timer takes a daemon from DOWN to RUNNING |
| `ModeRuns.SetStateInStep` | internal/daemon/events.go:32-40 | a call breaks the chain of reported transitions if and only if it gets past its guards, something other than the AP stop fails, and the daemon was not in DOWN or only the last write failed |
| `ModeRuns.ObserverInStep` | internal/daemon/events.go:32-40 | over whole runs, the reported transitions are in step with the state all along if and only if no call in it fails and moves the state |

## Left out

- VideoHub.VideoHub.Subscribe: streams and subscribers are values inside the hub object, so aliasing of the nested Go structs is not captured; subscriber and frame numbers do not wrap at 2^64.
- VideoHub.VideoHub.Receive: the forwarding goroutine of a subscription and the end of its context are the two steps "receive" and "unsubscribe". A receive may come at any moment, also while a publish holds the lock; an unsubscribe waits for the lock.
- The hub's `reset`, which nothing calls.
- LspServer.LSPVideoServer.Serve: reads are a list of arrivals, and the transcoder is a predicate on how many writes succeed; the idle deadline and the check of the sender's host are not modelled.
- Parity datagrams beyond being ignored; the record field that `EntryStep` tests for being below 32 once more is proved redundant only through the invariant.
- LspRuns.EveryFrameGapFree: when a packet of a generation is rejected, the loop drops the frames that packet had already completed; so does the model, see `GenerationBrokenOff`.
- DhcpServer.DHCPServer.Scan: demands that the scan can end, see `ScanEnds`; so do the operations that scan. On values, a server that scans for ever gives no answer.
- DhcpServer.DHCPServer.HandlePacket: one packet at a time, as the only caller does; addresses are four bytes.
- DhcpRuns.LeaseExclusive: stated against the recorded deadline; `ExclusiveForTheTimeTold` is stated against the time the client was told.
- RcdMessage.Conn.ReadMessage: the connection is the bytes it will deliver; a stream that ends inside a message reads as its end, and deadlines and network errors are not told apart.
- RcdServer.Server.Serve: writing never fails; deadlines, logging and redaction are left out.
- SHA-256, SHA-512, HMAC and AES-GCM, and the key material derived with them beyond the pairing ID and secret: parameters of the model.
- The client side of RCD except as the honest client of `HonestClientCompletes`.
- ControlLaws.NoLeak: closing a connection twice is possible and harmless in the code (teardown and the goroutine may both do it), so connections are only shown to be closed at least once.
- ControlLaws.SetupEnds: every fallible call is assumed to return; dial retries and timeouts are not modelled.
- ControlLaws.NoDeadlock: readers of m.mu, which hold it only to copy, are not separate parties.
- The link between `driveMode` and the sender's armed flag while setup is running.
- ModeManager.Manager.SetState: `cfg` is fixed, the caller's context and the accept loops' own work are not modelled, and devices are only known to be cleared.
- `Manager.Start`, which calls `SetState` or writes the pairing file once, and reloading.
- Device selectors, telemetry, drive packets, settings, configuration loading, the ffmpeg process and its arguments, hostapd, netlink, gRPC, HTTP, WebRTC and the frontend.
