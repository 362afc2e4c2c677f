# Verified model of the session transport

This project models, in Dafny 4.11, the three deterministic cores that carry a session's media and files, and proves
what they promise:

- **ALF framing** (`backend/internal/alf`, and the browser's `frontend-user/src/lib/alf.ts` and `crc32.ts`): the
  35-byte-header codec sealed with the CRC-32 of clause 3.2.9 of IEEE 802.3, the splitter, the out-of-order
  reassembler with expiry, length-prefixed stream framing, and the `ingest` step that composes them.
- **The session multiplexer** (`backend/internal/scheduler`): five bounded queues, strict priority for signal,
  credit-based weighted fair queueing (WFQ) for the other four lanes, a token bucket, and the drainer that puts
  refused items back, with any number of concurrent enqueuers.
- **The application-layer BBR controller** (`backend/internal/congestion/bbr`): ring-buffer filters and a four-state
  machine whose output sets the bucket's rate.

`dafny verify --verification-time-limit 0 --resource-limit 2000000 dfyconfig.toml` verifies the whole project. (Dafny's
plain time limit per proof depends on the machine; the resource limit does not.)

## How it is built

Each object of the source that changes in place is a class (`Reassembler`, `Session`, `StreamReader`, `StreamWriter`,
`Pump`, `Writer`, `Bucket`, `Queue`, `Scheduler`, `MaxFilter`, `MinFilter`, `Controller`). Its methods follow the code branch by
branch and loop by loop, and are proved equal to a function from the old value to the new one; whole-run theorems are
then about sequences of those functions. `WireFormat`, `Polynomial`, `Interleaving`, `BucketLaws` and `Emission` state what
these functions mean in literal bytes, bits, fields and arithmetic.

| file | what it holds |
|---|---|
| `Wrappers`, `Bytes` | `Option`, `Result`; big-endian numbers |
| `Crc32`, `Polynomial` | table-driven and bit-serial CRC; the checksum as a polynomial remainder |
| `BitBursts`, `ErrorDetection` | bit bursts; what `Decode` therefore rejects |
| `Frames`, `Fragments`, `WireFormat` | the codec; the splitter; every byte on the wire in plain numbers |
| `Reassembler`, `ReassemblyRuns`, `Interleaving` | the reassembler; splitting undone; messages do not mix |
| `Redelivery`, `ReassemblyLedger` | how often a message is handed on; accounting over whole runs |
| `Ingest`, `Streams` | decode-push-encode; the Go stream writer and reader |
| `BytePump`, `WebWriter` | the browser as stream reader and as writer |
| `Queues`, `TokenBucket`, `BucketLaws` | bounded queues and the bank; the bucket; its laws in plain numbers |
| `Wfq`, `Starvation` | one round of fair queueing; any sequence of rounds |
| `Mux`, `MuxRuns`, `MuxStarvation` | the multiplexer as a step system; its runs; starvation in its runs |
| `MuxShare`, `MuxPaced`, `MuxStalls` | the share a lane is delivered; what pacing does to it; rounds that pick nothing |
| `MuxQueues` | depth, byte counter, signal latency and blocking, queue by queue |
| `Scheduler` | the scheduler object, each call a run of the step system |
| `RingFilters`, `Bbr`, `BbrRuns` | filters; the controller; its runs |
| `Emission`, `Pacing` | what the controller emits, from the samples alone; controller and bucket together |

Readings that matter:

- Concurrency is a step system (`Mux`): `Enqueue` is three steps (closed test, locked insertion, drop count) and a turn
  of `drainOnce` four (pick, `Allow`, put-back or send, count), because the code drops the lock between them.
- Bytes are 0..255; the checksum register is a `bv32`. Times are integer nanoseconds passed in as parameters.
  `float64` quantities are exact reals, except that the code's `uint64(float64(x) * 1.25)` is `5 * x / 4` rounded down.
- The `uint64` product at `backend/internal/congestion/bbr/bbr.go:122` wraps in the model as it does in the code. The
  bounds of `backend/internal/config/config.go:126-134` are the precondition `ValidParams`.
- The clock, the outcome of the send callback and the bytes of streams are parameters.
- `Books` and `Log` are histories kept beside the state for the accounting theorems; the code has no such fields.

## Where the code differs from what one might expect

- **Minimum share.** Requirement FR-B11 (`docs/Requirements.md:185`) promises low-priority queues a measurable minimum
  share. As to picks: there is a bound on the rounds that pass over a backlogged lane exactly when all weights are positive
  and the smallest item has at least as many bytes as they add up to (`MultiplexerStarvationFreeIff`); the bound is then
  (S + 3·ΣW) / w for a lane of weight w, S being the largest item. As to delivery: over the runs that leave the switch
  alone there is a bound on the rounds without a delivery exactly when, besides, pacing is off (`DeliveryIff`). With pacing
  off a lane backlogged for n rounds is delivered at least n·w - 3·ΣW - 2·S bytes (`UnpacedDelivery`). With pacing on a
  refusal uses up a pick and never refunds its credit: for any two lanes, any item size within the burst and any n there is
  a run in which one of them is delivered its full share over n rounds and the other nothing at all, although nothing is
  oversize (`PacedStarves`). What is delivered is then short by at most S for every refusal (`MinimumDelivery`).
- **Not work-conserving.** A pick returns nothing when all backlogged lanes are in debt (`StallIff`). Such picks come at
  most (S - 1) / w in a row (`StallsAreShort`), and as many do come when S is at least 2·w (`StallBoundReached`).
- **Oversize items.** While pacing is on, an item larger than the burst is refused at every visit, and nothing behind it
  on its lane is delivered either (`TooBigNeverAllowed`, `OversizeNeverLeaves`, `OversizeBlocksLane`).
- **Put-back.** A refused item returns to the front without touching the counters. A queue gets to hold more than its
  capacity exactly when an item is put back on it while it is full (`OverfullIff`). Its byte counter is right exactly when
  no item with bytes in it has been put back since the queue last held no bytes (`BytesRightIff`).
  `RefillBehindRefusal` is a run in which both go wrong.
- **Reassembly is not exactly-once.** For all traffic whose pushes on the key are the message's own fragments, a timer for
  the key counts exactly how often the message is handed on (`DeliveredByTimer`). Whatever the clock and the resets, that is
  at most once for every stretch of the traffic that carries all fragments (`HandedOnAtMost`, `HandedOnAtMostOnce`). It is
  exactly that often as long as no pending entry of the message is taken away by a reset or by expiry: once if and only if
  all fragments arrive and never all of them again (`ExactlyOnceIff`, `HandedOnOnceIff`). Without resets that proviso holds
  on reliable channels, and wherever all traffic falls within one ttl (`InTimeUndisturbed`). Without it the message can
  be lost although all fragments arrive (`ApartIsLost`), even when they arrive within one ttl (`StaleDuplicateCosts`). Sent
  twice in time, it is handed on twice (`HandedOnTwice`).
- **The measured rate can be too low.** The product in it wraps; the rate is the true one exactly below 18446744074
  delivered bytes per sample (`RateTrueIff`).
- **`iterateFrames` ends with an exception** even at a clean end of stream (`ServerToBrowser`).
- **Dead branches.** The missing-part branch at `backend/internal/alf/reassembler.go:111-113` and the return to Startup at
  `backend/internal/congestion/bbr/bbr.go:214-216` are never taken (`CountDecides`, `StepOrdered`).

## Model

| member | source | states |
|---|---|---|
| Crc32.BuildTable | frontend-user/src/lib/crc32.ts:1-6 | the nested loops fill every slot with the eight-step remainder of its index |
| Crc32.Crc32Ieee | frontend-user/src/lib/crc32.ts:8-14 | the table loop computes the CRC-32 that a bit-by-bit register computes |
| Crc32.TableStep | frontend-user/src/lib/crc32.ts:11 | one table look-up equals eight shifts of the register |
| Crc32.SerialIsTableDriven | frontend-user/src/lib/crc32.ts:1-14 | byte-wise and bit-serial registers agree on every input |
| Crc32.FeedOneToOneInState | frontend-user/src/lib/crc32.ts:11 | the step is injective in the register |
| Crc32.Feed4OneToOne | frontend-user/src/lib/crc32.ts:8-14 | four bytes fed from one register value can be told apart |
| Crc32.BurstDetected | frontend-user/src/lib/crc32.ts:8-14 | damage within four consecutive bytes always changes the checksum |
| Polynomial.ChecksumIsRemainder | frontend-user/src/lib/crc32.ts:1-14 | the checksum is the complemented remainder, modulo the generator of clause 3.2.9, of the message times x^32 with its first 32 bits complemented |
| Polynomial.TagIsRemainder | backend/internal/alf/frame.go:96-98 | the same for the four bytes on the wire, bit by bit |
| Polynomial.TagIsUnique | backend/internal/alf/frame.go:133-138 | no other four bytes are the tag |
| Polynomial.Division | frontend-user/src/lib/crc32.ts:1-14 | the long division yields a remainder: what is left besides a multiple of the generator |
| BitBursts.SerialIsShifted | frontend-user/src/lib/crc32.ts:8-14 | the checksum register is a function of the message bits, lowest first in each byte |
| BitBursts.WindowOneToOne | frontend-user/src/lib/crc32.ts:8-14 | from one register value, different windows of at most 32 bits lead to different values |
| BitBursts.CrcDetectsBitBurst | frontend-user/src/lib/crc32.ts:8-14 | damage within 32 consecutive bits always changes the checksum |
| Crc32.CrcContinues | backend/internal/alf/frame.go:96-97 | checksumming in two calls equals checksumming the concatenation |
| Frames.Encode | backend/internal/alf/frame.go:84-100 | the buffer filled in place is header, tag, payload; errors in the code's order |
| Frames.WriteHeader | backend/internal/alf/frame.go:145-161 | writes the 31 header bytes and touches nothing else |
| Frames.DecodeEncode | backend/internal/alf/frame.go:84-143 | Decode undoes Encode on every encodable frame, negative timestamps included |
| Frames.EncodeDecode | backend/internal/alf/frame.go:84-143 | Encode undoes Decode on every accepted byte string |
| Frames.AcceptedIffEncoding | backend/internal/alf/frame.go:102-183 | accepted byte strings are exactly the encodings of valid frames |
| Frames.WireInjective | backend/internal/alf/frame.go:84-100 | different frames have different encodings |
| Frames.Accepted | backend/internal/alf/frame.go:102-143 | what acceptance implies about length, header and tag |
| WireFormat.EncodeAnswers | backend/internal/alf/frame.go:84-100 | Encode succeeds exactly for channel <= 4, kind 1 to 3, 1 <= fragTotal <= 4096, fragIdx < fragTotal and at most 65535 bytes; else which error |
| WireFormat.EncodeWrites | backend/internal/alf/frame.go:84-161 | every byte of an encoding at its offset, tag and payload included |
| WireFormat.DecodeAnswers | backend/internal/alf/frame.go:102-183 | the answer of Decode to any byte string, in terms of single bytes |
| WireFormat.EndsMessageIff | backend/internal/alf/frame.go:68-70 | end of message: bit 0 of the flags, a total of at most 1, or the last index |
| WireFormat.ReadFrameAnswers | backend/internal/alf/stream.go:47-64 | the answer of ReadFrame to any stream, the prefix in single bytes |
| WireFormat.BrowserWrites | frontend-user/src/lib/alf.ts:32-50 | the browser writes the same bytes, whether or not the server would accept them |
| WireFormat.TurnAnswers | frontend-user/src/lib/alf.ts:129-143 | one turn of iterateFrames: prefix between 35 and 2 MiB, then decode |
| ErrorDetection.RejectsOneByte | backend/internal/alf/frame.go:123-138 | any one byte changed, anywhere in an encoding, is rejected |
| ErrorDetection.RejectsBurst | backend/internal/alf/frame.go:123-138 | any damage within four consecutive bytes of header and payload is rejected |
| ErrorDetection.RejectsBitBurst | backend/internal/alf/frame.go:123-138 | any damage within 32 consecutive bits of header and payload, at any bit offset, is rejected |
| ErrorDetection.RejectsTagDamage | backend/internal/alf/frame.go:133-138 | any damage to the tag alone is rejected |
| ErrorDetection.RejectsWrongLength | backend/internal/alf/frame.go:103-131 | a truncated or extended encoding is rejected |
| Fragments.Split | backend/internal/alf/fragment.go:7-54 | succeeds exactly on splittable input, with exactly the specified fragments, else the code's error |
| Fragments.PiecesCoverPayload | backend/internal/alf/fragment.go:31-45 | the pieces in order are the payload |
| Fragments.FragmentsWellFormed | backend/internal/alf/fragment.go:36-52 | each fragment is a valid frame of bounded size, and only the last ends the message |
| WireFormat.SplitWrites | backend/internal/alf/fragment.go:36-52 | each fragment field by field; of the flags only bit 0 changes, set exactly on the last |
| WireFormat.SplitCuts | backend/internal/alf/fragment.go:31-45 | the slices: max bytes each, the last one the rest, none empty |
| WireFormat.WholeIs | backend/internal/alf/reassembler.go:119-136 | the received message has the template's fields, the whole payload, and flags changed in bit 0 only |
| Fragments.SingleFragment | backend/internal/alf/fragment.go:23-30 | a one-fragment split is the whole message |
| Reassembly.Reassembler.constructor | backend/internal/alf/reassembler.go:37-49 | starts empty, with the defaults for non-positive arguments |
| Reassembly.Reassembler.Push | backend/internal/alf/reassembler.go:65-137 | the whole new state and answer, keeping the invariant |
| Reassembly.Reassembler.Store | backend/internal/alf/reassembler.go:79-136 | the part of Push after expiry: mismatch, extension, completion, size limit |
| Reassembly.Reassembler.ExpireLocked | backend/internal/alf/reassembler.go:147-157 | removes exactly the expired entries, in whatever order the map is visited, and counts them |
| Reassembly.Reassembler.Sweep | backend/internal/alf/reassembler.go:141-145 | the same, on demand |
| Reassembly.Reassembler.Reset | backend/internal/alf/reassembler.go:159-163 | empties the map and keeps the drop counter |
| Reassembly.PushKeepsValid | backend/internal/alf/reassembler.go:65-137 | each entry keeps 1 to total-1 parts of 2 to 4096, indices below total; each returned frame is valid, frag 0 of 1, within maxPay |
| Reassembly.CountDecides | backend/internal/alf/reassembler.go:105-113 | by pigeonhole the part count decides completeness, so the missing-part branch is dead |
| Interleaving.PushAtOnce | backend/internal/alf/reassembler.go:65-78 | what Push refuses, with which error and no effect, and a message in one frame |
| Interleaving.PushDiscards | backend/internal/alf/reassembler.go:79-118 | a disagreeing total takes the entry away and counts as a drop; an oversize completion takes it away and does not |
| Interleaving.PushOpens | backend/internal/alf/reassembler.go:79-101 | a new entry, under the frame's channel and sequence number, has the frame's fields and lives for ttl |
| Interleaving.CompletionKeepsFields | backend/internal/alf/reassembler.go:119-136 | a completed message has the entry's fields, and its flags except for bit 0, which is set |
| Interleaving.PushSparesOthers | backend/internal/alf/reassembler.go:79-106 | a push changes no entry of another channel or sequence number on channels 0, 3 and 4 |
| Interleaving.SurvivesEverySweep | backend/internal/alf/reassembler.go:147-157 | the entries that survive every sweep are those on channels 0, 3 and 4 |
| Interleaving.SweepLeaves | backend/internal/alf/reassembler.go:141-157 | a sweep leaves exactly those and the ones whose deadline has not passed, unchanged |
| Interleaving.MessageStandsAlone | backend/internal/alf/reassembler.go:65-157 | non-interference: on channels 0, 3 and 4 what is handed on for a message is what its own pushes alone make of it |
| Interleaving.TwoMessages | backend/internal/alf/reassembler.go:65-137 | two messages of one channel, interleaved in any way, are each handed on once with their own payload |
| ReassemblyRuns.RunsKeepValid | backend/internal/alf/reassembler.go:65-163 | the invariant holds after every run of pushes, sweeps and resets |
| ReassemblyRuns.ReassemblyUndoesSplit | backend/internal/alf/reassembler.go:65-137 | under any order, repeats and interleaving that takes no pending entry of the message away, the push that completes the index set returns the whole base frame, and no earlier one returns anything |
| ReassemblyRuns.InTimeUndisturbed | backend/internal/alf/reassembler.go:141-163 | without resets, on a reliable channel or with all events within one ttl, no pending entry is taken away |
| Redelivery.LateDuplicateReopens | backend/internal/alf/reassembler.go:79-106 | after the push that completes a message, one more fragment of it opens a new, incomplete entry |
| Redelivery.DeliveredByTimer | backend/internal/alf/reassembler.go:65-163 | for all traffic, whatever the clock, sweeps and resets: one copy of the whole message for every full set that the key's timer counts |
| Redelivery.HandedOnAtMost | backend/internal/alf/reassembler.go:65-163 | for all traffic: m copies need m consecutive stretches that each carry every index |
| Redelivery.DeliveredPerSet | backend/internal/alf/reassembler.go:65-137 | if no pending entry of the message is taken away: one copy of the whole per full set of fragments, and the entry holds exactly the rest |
| Redelivery.HandedOnPerStretch | backend/internal/alf/reassembler.go:65-137 | if no pending entry of the message is taken away: at least m copies are handed on if and only if the traffic falls into m stretches that each carry every fragment |
| Redelivery.ExactlyOnceIff | backend/internal/alf/reassembler.go:65-137 | if no pending entry of the message is taken away: handed on exactly once if and only if all fragments arrive, and at no point all of them before and all of them after |
| Redelivery.ApartIsLost | backend/internal/alf/reassembler.go:79-157 | on an expiring channel, two fragments more than ttl apart both arrive and nothing is handed on |
| Redelivery.StaleDuplicateCosts | backend/internal/alf/reassembler.go:79-157 | a stale duplicate starts the clock, and a full set that lies within one ttl is not handed on |
| Redelivery.HandedOnTwice | backend/internal/alf/reassembler.go:65-137 | every message sent twice over is handed on at least twice |
| ReassemblyLedger.EntriesAccountedFor | backend/internal/alf/reassembler.go:65-163 | created = completed + expired + mismatched + oversize + superseded + reset + in flight; dropped = expired + mismatched |
| ReassemblyLedger.CompletionIsConcatenation | backend/internal/alf/reassembler.go:79-136 | the completing push joins an entry created by an earlier one and never replaced since; the payload joins, by index, the first push of each index from that one on, none of them used before |
| ReassemblyLedger.BirthsRecorded | backend/internal/alf/reassembler.go:79-100 | the push on record as the creator of an entry met none, there has been one ever since, and every later fragment met it |
| ReassemblyLedger.UsedStaysUsed | backend/internal/alf/reassembler.go:102-136 | a push that fed a completion stays used, so with the row above no push feeds two |
| Ingest.Session.Ingest | backend/internal/session/session.go:321-341 | decode, push, encode: the state and what is handed on, with the raw-bytes fallback |
| Ingest.RelayIs | backend/internal/session/session.go:329-340 | relayed are the frame's own bytes, or, above 65535 bytes of payload, the bytes that just arrived |
| Ingest.LastArrival | backend/internal/session/session.go:321-341 | if no pending entry of the message expires: an arriving fragment hands on the whole frame if it completes the message and nothing otherwise |
| Ingest.MessageArrivesOnce | backend/internal/session/session.go:321-341 | if no pending entry of the message expires: by the completing arrival exactly one frame has been handed on for it, the whole, with its own encoding |
| Ingest.HandedOnAtMostOnce | backend/internal/session/session.go:321-341 | whatever the clock: only the whole frame with its own encoding, only if all fragments arrive, and twice only if all of them arrive again |
| Ingest.HandedOnOnceIff | backend/internal/session/session.go:321-341 | if no pending entry of the message expires: handed on exactly once if and only if all its fragments arrive, and never all of them again |
| Streams.StreamWriter.WriteFrame | backend/internal/alf/stream.go:19-33 | appends prefix and encoding, cut short where the underlying writer fails, or nothing when the frame does not encode |
| Streams.SentIsPrefix | backend/internal/alf/stream.go:19-33 | what is written is a prefix of the framed encoding, and all of it exactly when neither write fails |
| Streams.TornStreamReads | backend/internal/alf/stream.go:19-64 | after a failed write every earlier frame is read, then the error that fits the cut |
| Streams.StreamReader.ReadFrame | backend/internal/alf/stream.go:47-64 | the answer and the bytes left, on short, oversize and malformed input too |
| Streams.FrameReadsBack | backend/internal/alf/stream.go:19-64 | a written frame is read back with the rest untouched, or refused as too big |
| Streams.StreamReadsBack | backend/internal/alf/stream.go:19-64 | a list of frames is read back as that list, then a clean end |
| BytePump.Pump.Read | frontend-user/src/lib/alf.ts:106-127 | exactly the next n bytes under any chunking; leftover is the unread suffix of what was received |
| BytePump.Pump.IterateFrames | frontend-user/src/lib/alf.ts:129-143 | what is yielded depends on the bytes only, not on the chunks |
| BytePump.SameWire | frontend-user/src/lib/alf.ts:32-50 | the browser encodes every frame to the server's bytes |
| WebWriter.EncodeWeb | frontend-user/src/lib/alf.ts:32-50 | the buffer filled in place is header, tag, payload, with no validation |
| WebWriter.Writer.WriteStream | frontend-user/src/lib/alf.ts:96-104 | appends prefix and encoding |
| WebWriter.ServerAcceptsIff | frontend-user/src/lib/alf.ts:32-50 | the server decodes what the browser encodes exactly when it would have encoded it itself, and then to the same frame |
| WebWriter.WebFrameReads | frontend-user/src/lib/alf.ts:96-104 | ReadFrame returns the browser's frame exactly when it is encodable and not too long |
| WebWriter.BrowserToServer | frontend-user/src/lib/alf.ts:96-104 | frames written by the browser are read by the server as exactly that list, then a clean end |
| BytePump.SameDecode | frontend-user/src/lib/alf.ts:52-74 | the server accepts what the browser accepts with a valid header, as the same frame |
| BytePump.ServerToBrowser | frontend-user/src/lib/alf.ts:106-143 | frames written by the server, cut into any chunks, are yielded as exactly that list |
| BytePump.YieldedIsFinal | frontend-user/src/lib/alf.ts:129-143 | later bytes never change what was already yielded |
| TokenBucket.Bucket.constructor | backend/internal/scheduler/tokenbucket.go:18-29 | starts full and enabled, with the defaults for zero |
| TokenBucket.Bucket.SetRate | backend/internal/scheduler/tokenbucket.go:31-41 | zero is ignored; the burst only grows |
| TokenBucket.Bucket.SetDisabled | backend/internal/scheduler/tokenbucket.go:43-47 | only the switch changes |
| TokenBucket.Bucket.Allow | backend/internal/scheduler/tokenbucket.go:55-78 | answer and new state: refill, cap, charge |
| TokenBucket.Bucket.WaitNs | backend/internal/scheduler/tokenbucket.go:80-90 | the deficit divided by the rate, rounded down |
| BucketLaws.VisitIs | backend/internal/scheduler/tokenbucket.go:55-78 | one visit in numbers: fill at the rate up to the burst, then take the bytes if they are there |
| BucketLaws.RateChangeIs | backend/internal/scheduler/tokenbucket.go:31-41 | a nonzero rate holds from then on, up or down; the burst is lifted to an eighth of it if lower |
| BucketLaws.AccruesAtRate | backend/internal/scheduler/tokenbucket.go:31-78 | until the next rate change the account is exact at that rate, less what the cap cuts off |
| BucketLaws.WindowConforms | backend/internal/scheduler/tokenbucket.go:55-78 | from any visit on, grants are within the burst plus the highest rate times the time since that visit |
| TokenBucket.BucketConforms | backend/internal/scheduler/tokenbucket.go:31-78 | over any run tokens stay in [0, burst] and grants are within tokens plus accrual, so within burst + Rmax × time |
| TokenBucket.AllowedIff | backend/internal/scheduler/tokenbucket.go:55-78 | n bytes pass exactly when n is within the burst and the deficit has accrued |
| TokenBucket.WaitIsExact | backend/internal/scheduler/tokenbucket.go:80-90 | WaitNs + 1 ns later the bytes pass; before WaitNs they do not |
| TokenBucket.GrantAsSoon | backend/internal/scheduler/tokenbucket.go:55-90 | a visit as soon as WaitNs has passed is granted and leaves less than another n tokens |
| TokenBucket.TooBigNeverAllowed | backend/internal/scheduler/tokenbucket.go:55-78 | above the burst an enabled bucket never lets the bytes pass |
| Queues.Queue.constructor | backend/internal/scheduler/queue.go:20-25 | empty, with capacity 8 for values below 1 |
| Queues.Queue.Enqueue | backend/internal/scheduler/queue.go:27-39 | appends and counts, or counts a drop when full |
| Queues.Queue.Dequeue | backend/internal/scheduler/queue.go:41-54 | removes the oldest item; the byte counter stops at zero |
| Queues.Queue.PutFront | backend/internal/scheduler/scheduler.go:137-144 | the item returns to the front and no counter moves |
| Wfq.BestWins | backend/internal/scheduler/scheduler.go:177-188 | the scan picks the first backlogged lane of highest non-negative credit, or none exactly when all are in debt |
| Wfq.RoundKeepsFloor | backend/internal/scheduler/scheduler.go:166-197 | no credit falls below -S |
| Wfq.RoundKeepsSpread | backend/internal/scheduler/scheduler.go:166-197 | with items of at least ΣW: any 1, 2, 3 or 4 credits sum to at most 3, 5, 6, 6 times ΣW |
| Wfq.RoundKeepsStairs | backend/internal/scheduler/scheduler.go:166-197 | with items of at least 4·wmax: at most 4-j lanes reach credit j·wmax |
| Starvation.CreditsStayBounded | backend/internal/scheduler/scheduler.go:157-198 | floor and both ceilings over any sequence of rounds |
| Starvation.MinimumShare | backend/internal/scheduler/scheduler.go:157-198 | a lane backlogged for n rounds has been served n·w less a constant, in bytes |
| Starvation.NoStarvation | backend/internal/scheduler/scheduler.go:157-198 | the wait of a backlogged lane is bounded |
| Starvation.StallIsShort | backend/internal/scheduler/scheduler.go:166-197 | rounds that serve nobody come at most (S-1)/w in a row |
| Starvation.FindGap | backend/internal/scheduler/scheduler.go:166-197 | with items below ΣW some lane gets any distance ahead of another |
| Starvation.StarveBehind | backend/internal/scheduler/scheduler.go:166-197 | behind such a lead a backlogged lane waits as long as one likes |
| Starvation.StarvationFreeIff | backend/internal/scheduler/scheduler.go:157-198 | a bound on the wait exists if and only if all weights are positive and the cheapest item costs at least ΣW |
| Starvation.InDebtForEver | backend/internal/scheduler/scheduler.go:166-197 | a lane of weight 0, once served, waits for as long as one likes |
| Starvation.CreditBoundedIff | backend/internal/scheduler/scheduler.go:157-198 | a bound on credit exists, for any weights, if and only if the cheapest item costs at least ΣW |
| Mux.StepKeepsInv | backend/internal/scheduler/scheduler.go:63-155 | every step of every goroutine keeps order, depth, counter and token invariants |
| MuxRuns.OrderedConservation | backend/internal/scheduler/scheduler.go:131-155 | accepted = delivered, then the at most one in hand, then queued, in order; at most cap + 1 queued; depth = enq - deq + put-backs; bytes at most the true size |
| MuxRuns.DropsAccountedFor | backend/internal/scheduler/scheduler.go:63-82 | at rest drops = queue-full drops + send errors, and sent = successful sends |
| MuxRuns.RunsAreTurns | backend/internal/scheduler/scheduler.go:157-198 | every run of the multiplexer refines a legal sequence of rounds |
| MuxRuns.CreditInEveryState | backend/internal/scheduler/scheduler.go:166-197 | the credit bounds in every reachable state of the multiplexer |
| MuxRuns.NoLaneStarves | backend/internal/scheduler/scheduler.go:157-198 | after any history, a backlogged lane is passed over by the picks for a bounded number of rounds |
| MuxShare.MinimumDelivery | backend/internal/scheduler/scheduler.go:131-198 | after any history, what n rounds take from and deliver of a backlogged lane is at least n·w less a constant and less S per refusal |
| MuxPaced.UnpacedDelivery | backend/internal/scheduler/scheduler.go:131-198 | with pacing kept off, a lane backlogged for n rounds is delivered at least n·w less a constant |
| MuxPaced.PacedStarves | backend/internal/scheduler/scheduler.go:131-198 | with pacing on, for any two lanes and every n, a run of n rounds in which one is delivered its full share and the other nothing |
| MuxPaced.DeliveryIff | backend/internal/scheduler/scheduler.go:131-198 | the rounds without a delivery are bounded if and only if pacing is off, all weights are positive and the smallest item has at least ΣW bytes |
| MuxShare.RunSettled | backend/internal/scheduler/scheduler.go:131-155 | what is taken from a lane is delivered, put back or in hand, to the byte |
| MuxRuns.StallsAreShort | backend/internal/scheduler/scheduler.go:166-197 | picks that return nothing, with a lane backlogged throughout, come at most (S-1)/w in a row |
| MuxStalls.StallBoundReached | backend/internal/scheduler/scheduler.go:166-197 | from New on there is a run that ends in (S-1)/w rounds in a row that pick nothing although a lane has something queued |
| MuxRuns.StallIff | backend/internal/scheduler/scheduler.go:166-197 | a round returns nothing exactly when every backlogged lane is in debt |
| MuxQueues.SignalFirst | backend/internal/scheduler/scheduler.go:161-164 | until an accepted signal is sent no round takes place and no credit moves, every pick takes a signal, and their number is bounded by its position and the put-backs |
| MuxQueues.InsertGoes | backend/internal/scheduler/queue.go:80-94 | the queue of an item by channel number; unknown channels share the file queue |
| MuxQueues.OverfullIff | backend/internal/scheduler/scheduler.go:137-144 | a queue exceeds its capacity in a run if and only if an item is put back on it while it is full |
| MuxQueues.BytesRightIff | backend/internal/scheduler/queue.go:27-54 | the byte counter is never too high, and right if and only if no bytes were put back since the queue last held none |
| MuxQueues.RefillBehindRefusal | backend/internal/scheduler/scheduler.go:131-155 | a run after which a queue is over its capacity and its byte counter too low |
| MuxQueues.OversizeBlocksLane | backend/internal/scheduler/scheduler.go:131-155 | while pacing is on, nothing from an oversize item on is delivered on its lane |
| MuxStarvation.TurnsHappen | backend/internal/scheduler/scheduler.go:63-198 | every legal plain sequence of rounds is produced by some run of the multiplexer |
| MuxStarvation.MultiplexerStarvationFreeIff | backend/internal/scheduler/scheduler.go:157-198 | over all runs, the rounds that pass over a backlogged lane are bounded if and only if all weights are positive and the smallest item has at least ΣW bytes; a pick may still be refused |
| Scheduler.NewBank | backend/internal/scheduler/queue.go:70-78 | five distinct empty queues, each with its own configured capacity, 8 for values below 1 |
| Scheduler.Scheduler.constructor | backend/internal/scheduler/scheduler.go:38-61 | builds the initial state of the step system, the bucket at minimum pacing |
| Scheduler.Scheduler.Enqueue | backend/internal/scheduler/scheduler.go:63-82 | is the run check, insert, count; true exactly when open and not full |
| Scheduler.Scheduler.ApplyBBR | backend/internal/scheduler/scheduler.go:106-111 | switch first, then the rate unless zero: the two bucket steps of the step system |
| Scheduler.Scheduler.Replenish | backend/internal/scheduler/scheduler.go:166-176 | each backlogged lane earns its weight, the others nothing |
| Scheduler.Scheduler.Choose | backend/internal/scheduler/scheduler.go:177-188 | finds the winner of the round |
| Scheduler.Scheduler.Pick | backend/internal/scheduler/scheduler.go:157-198 | the three phases together are the pick of the step system |
| Scheduler.Scheduler.PutBackFront | backend/internal/scheduler/scheduler.go:137-144 | only the front of the item's own queue changes |
| Scheduler.Scheduler.DrainStep | backend/internal/scheduler/scheduler.go:131-155 | one turn of the loop is a run of the step system, and shrinks the backlog if the loop goes on |
| Scheduler.Scheduler.DrainOnce | backend/internal/scheduler/scheduler.go:131-155 | the loop ends, and all of it is a run of the step system |
| RingFilters.MaxFilter.Add | backend/internal/congestion/bbr/window.go:18-25 | returns the maximum of the last window values, the new one included |
| RingFilters.MaxFilter.Max | backend/internal/congestion/bbr/window.go:27-39 | the maximum of the last min(k, window) values |
| RingFilters.MinFilter.Add | backend/internal/congestion/bbr/window.go:57-64 | returns the least positive of the last window values |
| RingFilters.MinFilter.Min | backend/internal/congestion/bbr/window.go:66-83 | the least positive of the last min(k, window) values, 0 if none |
| RingFilters.RingIsLastN | backend/internal/congestion/bbr/window.go:18-83 | the slots in use hold exactly the last values added |
| Bbr.Controller.constructor | backend/internal/congestion/bbr/bbr.go:54-66 | starts in Startup with empty filters |
| Bbr.Controller.OnSample | backend/internal/congestion/bbr/bbr.go:86-165 | the whole new state and output: disabled, first sample, and measured sample |
| Bbr.Controller.Advance | backend/internal/congestion/bbr/bbr.go:167-219 | the transition of the four-state machine |
| Bbr.Controller.Enter | backend/internal/congestion/bbr/bbr.go:221-237 | the state and its gains |
| Bbr.Controller.SetEnabled | backend/internal/congestion/bbr/bbr.go:78-82 | only the switch changes |
| Bbr.Controller.Measure | backend/internal/congestion/bbr/bbr.go:107-129 | the counters, the rate, and both filters |
| Bbr.RateTrueIff | backend/internal/congestion/bbr/bbr.go:122 | the wrapped rate is never above the true one, and equals it exactly below 18446744074 delivered bytes |
| Bbr.Controller.Decide | backend/internal/congestion/bbr/bbr.go:137-163 | pacing and window, clamped |
| Emission.RunRemembers | backend/internal/congestion/bbr/bbr.go:86-129 | rates, round-trip times, counters and rounds are those of the samples taken while enabled, in literal arithmetic |
| Emission.Emitted | backend/internal/congestion/bbr/bbr.go:107-219 | phase, pacing and window after a measured sample, from the samples alone: bandwidth times the phase's gain, within the bounds |
| Emission.BaselineEmits | backend/internal/congestion/bbr/bbr.go:99-106 | the first sample is the baseline and changes neither phase nor pacing |
| Emission.DisabledEmits | backend/internal/congestion/bbr/bbr.go:89-98 | a disabled controller emits MaxPacingBps and remembers nothing |
| BbrRuns.StepOrdered | backend/internal/congestion/bbr/bbr.go:167-237 | filled exactly outside Startup, gains match the state, only the allowed moves; Startup is never re-entered |
| BbrRuns.RunOrdered | backend/internal/congestion/bbr/bbr.go:167-237 | over whole runs: every step is an allowed move, and Startup, once left, is never seen again |
| BbrRuns.DrainIsShort | backend/internal/congestion/bbr/bbr.go:186-193 | Drain handles at most five enabled samples in the life of a controller |
| BbrRuns.StartupTerminates | backend/internal/congestion/bbr/bbr.go:170-185 | with rates at most B, Startup handles at most 3G+1 samples that have a bandwidth estimate |
| BbrRuns.ClimbIsLogarithmic | backend/internal/congestion/bbr/bbr.go:171-174 | G is at most 1 + log base 1.25 of B |
| BbrRuns.ProbesAreApart | backend/internal/congestion/bbr/bbr.go:194-218 | consecutive ProbeRTT entries are at least duration + interval apart |
| BbrRuns.SixteenSamplesAverageOne | backend/internal/congestion/bbr/bbr.go:194-206 | the pacing gains of any 16 consecutive samples within ProbeBW sum to 16 |
| BbrRuns.OutputsBounded | backend/internal/congestion/bbr/bbr.go:86-165 | pacing is 0 or within bounds; each measured sample gives a window of at least 4800, exactly 4800 in ProbeRTT |
| Pacing.EgressBounded | backend/internal/scheduler/scheduler.go:106-111 | through any interleaving of samples, switching, the two steps of ApplyBBR and Allow calls, rate and burst stay bounded, and so do the bytes let through over any stretch |
| Pacing.SettingsStay | backend/internal/scheduler/scheduler.go:106-111 | the bucket runs at the latest nonzero rate and is off as at the latest switch, whatever comes between |
| Pacing.PacedFromTheStart | backend/internal/congestion/bbr/bbr.go:136-152 | from construction on, pacing, rate and burst are within the configured bounds |
| Pacing.OversizeNeverLeaves | backend/internal/scheduler/tokenbucket.go:55-78 | an item above max(MinPacingBps, MaxPacingBps/8) is refused at every visit of every enabled run |

## Left out

- QUIC, HTTP/3 and WebTransport wiring, the HTTP API, certificates, origin checks, logging and configuration parsing.
- The browser's user interface, and the file upload of `frontend-user/src/lib/transport.ts`, which gives each chunk its own sequence number and so does not follow the reassembler's contract.
- The uni-stream reads of `backend/internal/session/loops.go:78-95`, which hand unframed read chunks to `ingest`.
- `split` and `maxDatagramPayload` of `frontend-user/src/lib/alf.ts`, and `MaxPayloadForDatagram` of `backend/internal/alf/frame.go`.
- Simulated drop and jitter, JSON signalling, SHA-256, the room and session registries.
- `OnDrop` callbacks, `Stats` and queue snapshots, the wake channel and the ticker of `Run`.
- Float rounding, conversions of floats beyond 64 bits, overflow of 64-bit times and of lengths near the top of `int`, and wrap-around of the 64-bit counters.
- The difference between a nil and an empty payload: both are the empty sequence.
- The fields `priorCwnd` and `priorState` of the BBR controller, which the code never reads.
- Ingest.MessageArrivesOnce: for messages of at most 65535 bytes; a longer one does not encode, and the branch that then relays the raw bytes of the last fragment is in `Ingest.Session.Ingest` only.
- Ingest.LastArrival: bounded in the same way.
- Reassembly.Reassembler.Push: the pending entries are values in the map, where the code stores pointers; the model does not capture that aliasing.
- Scheduler.Scheduler.DrainOnce: the call without interference; interleaving with enqueuers is the subject of `Mux` and `MuxRuns`.
- Ingest.HandedOnOnceIff: bounded in the same way.
- Ingest.HandedOnAtMostOnce: bounded in the same way.
- MuxPaced.PacedStarves: for rates of less than one item a nanosecond; `MuxPaced.DeliveryIff` has no such bound, its run may first set the rate.
- MuxStarvation.MultiplexerStarvationFreeIff: about picks; what is delivered is the subject of `MuxPaced.DeliveryIff`.
