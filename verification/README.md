# HTTP over XMPP: bodies in pieces

A model of how a body travels over an XMPP session: cut into blocks, carried by one of several transports, put together
again by a peer that may be slow, may close at the same moment, or may see a stanza twice. The model has one module per
part of the program.

- `Bytes`, `Base64`, `Chunked`, `ChunkedRoundTrip`, `ChunkRouter`, `ChunkExpiry`: the block buffer, the base64 codec and the
  chunkedBase64 transport, from a body in arbitrary parts to a reader on the other side, chunks in any order.
- `IbbOutStream`, `IbbScheduler`, `IbbManager`: in-band bytestreams (XEP-0047), sending. A stream is what its closure
  variables hold; a session is all its streams and the fair scheduler in front of them; one event is one stretch of code
  between two awaits. `IbbManager.Manager` is the same code in the source's form, each method proved equal to the step.
- `IbbStreamSafety`, `IbbBlocking`, `IbbSchedulerSafety`, `IbbFairness`, `IbbProgress`, `IbbStall`: what every run of a
  session keeps, how bytes are cut into blocks, who is granted a slot and when, who is woken, and the one way to wake nobody.
- `IbbInStream`, `IbbDelivery`, `IbbReplay`: the receiving side, one stream end to end over a channel that may replay,
  and what a replay does to the backpressure.
- `IbbDuplex`, `IbbDuplexLiveness`, `IbbDuplexDelivery`: two endpoints of one sid and their crossing closes.
- `IbbTeardown`: one duplex endpoint against any peer, user and clock, and every way it can end: close, abort, a cancelled
  reader, a refused block, a failed inbound half, the peer's close, a refused or timed-out open. `IbbTeardown.Duplex` is
  the same code in the source's form.
- `S5bNegotiation`, `S5bSession`, `S5bProgress`: the SOCKS5 negotiation (XEP-0260) of a Jingle session and its fallback.
- `Socks5`: the handshake over two TCP byte streams cut at will. `RateLimit`: the token buckets. `Dpip`,
  `DpipFraming`: the Dillo plugin tags. `Select`: the stanza budgets and the choice of a transport.

Every "in every run" statement is by induction over sequences of enabled events, with no bound on their number.

## What turned out not to hold

Each has a concrete run or input that shows it, and the exact condition under which the code does what it promises.

- **A waiting stream can be left waiting.** A pump that asks for a slot while its stream is still queued sweeps parked
  blocks first; if the sweep frees a slot and the queue's turn comes to that same stream, the grant goes to it, the
  request is refused all the same, and the pump parks on a slot it holds (src/ibb/ibb.ts:705-717). With a budget of one
  block nothing then happens until the stream's own user calls again: `IbbStall.StallIsReachable`, `IbbStall.StallLasts`.
  A refused request leaves its stream with a slot if and only if `IbbProgress.StrandsRequest` holds before it
  (`IbbProgress.RequestStrandsIff`), and that slot is lost unless the stream has a block unanswered or another pump. So, in
  every run, all reserved slots stay live, and no wake-up is lost, if and only if no event strands one, a condition on the
  state before the event: `IbbProgress.StepLiveIff`, `IbbProgress.EveryRunProgresses`.
- **A replay further back than 64 blocks kills the stream**, though a window may be configured up to 256
  (src/ibb/ibb.ts:128, src/constants.ts:89): `IbbInStream.ReplayToleratedIff`.
- **A replayed copy of a block whose ack is withheld is acked at once**, so the receiver can end up holding more than
  its high-water mark plus a window of blocks. In every configuration of block size and windows, that bound holds in all
  runs with at most n such acks if and only if n is 0: `IbbReplay.BackpressureHoldsIff`. With n of them what is held is
  below the mark plus W + n blocks (`IbbDelivery.UnreadIsBounded`), and a run comes within one block of that, whatever n
  (`IbbReplay.MemoryBoundIsTight`); with 32768-byte blocks, a receive window of 1 and a sender window of 1, one replay
  makes it 98304 bytes at a mark of 65536.
- **A duplex can send two closes.** An open that times out is followed by a close of its own (src/ibb/ibb.ts:389-401),
  also when the inbound half failed before, say by a shorter idle timeout, and its teardown has sent one:
  `IbbTeardown.SecondCloseIsReachable`. That is the only way: `IbbTeardown.OneCloseAtTheEnd`, `IbbTeardown.SecondCloseIff`.
- **A DPIP attribute named `__proto__` is lost**: parsing assigns it to an object that swallows it
  (examples/dillo/src/dpip.ts:40-78): `Dpip.ParseInvertsBuild`, `Dpip.ProtoIsLost`.

## Model

| member | source | states |
|---|---|---|
| Bytes.ConcatBytes | src/util/bytes.ts:6-16 | filling one array at a running offset yields the parts laid end to end |
| Bytes.BlockBuffer.Push | src/util/bytes.ts:41-45 | the queue grows at the back by exactly the part; an empty part changes nothing |
| Bytes.BlockBuffer.Take | src/util/bytes.ts:51-70 | exactly n bytes come off the front in order, and only then; otherwise a range error and no change |
| Bytes.BlockBuffer.Drain | src/util/bytes.ts:72-78 | everything buffered, in order, and the buffer is empty |
| Bytes.BlockBuffer.CopyingIsAmortised | src/util/bytes.ts:20-79 | under any interleaving of push, take and drain, bytes ever copied by coalescing are at most bytes pushed plus bytes removed, so at most twice those pushed |
| Base64.EncodeBase64 | src/util/base64.ts:14-40 | the loop over three bytes yields the digits of section 4 of RFC 4648, position by position, with its padding |
| Base64.DecodeBase64 | src/util/base64.ts:47-85 | with a wrapping 32-bit accumulator and no write out of range: the bytes the digits stand for, or the exact error |
| Base64.DecodeDigits | src/util/base64.ts:66-84 | the accumulator loop fills exactly floor(3 n / 4) bytes, each the one its position in the digits determines |
| Base64.AccumulatorKeepsLastDigits | src/util/base64.ts:77-77 | however often the unmasked accumulator has wrapped, its low twelve bits are the last two digits |
| Base64.DecodeInvertsEncode | src/util/base64.ts:14-85 | any text that is an encoding once its whitespace is taken out decodes to the bytes encoded |
| Base64.WhitespaceIsFree | src/util/base64.ts:49-54 | whitespace spliced in anywhere does not change what a text decodes to, or its error |
| Base64.RoundTrip | src/util/base64.ts:14-85 | decoding the encoding of any byte sequence returns it |
| Base64.EncodedLength | src/util/base64.ts:88-90 | the length computed without encoding is the length of the encoding |
| Base64.EncodingIs | src/util/base64.ts:6-40 | character k is the one at the place in the alphabet that bits 6k to 6k + 5 of the bytes spell, zero bits behind the last; then '=' up to a multiple of four |
| Base64.DecodingIs | src/util/base64.ts:6-85 | without white space and at most two '=': an error for a length no encoding has, or for the first character outside the alphabet, at its index; else bytes whose six-bit groups are the places of the characters in it, but for the bits of the last that fill no byte |
| Chunked.Send | src/transport/chunked.ts:48-76 | the chunks sent depend only on the concatenated body, not on its partition: its blocks in order, numbered from 0, the last one and only it marked last |
| Chunked.PushPart | src/transport/chunked.ts:56-63 | a part pushed sends every full block but a last one, and at most one block's worth stays buffered |
| Chunked.BlocksFlatten | src/transport/chunked.ts:48-76 | the blocks lay the body out again; each but the last is exactly the chunk size, and the last is empty only if the body is |
| Chunked.ArbitraryInputIsSafe | src/transport/chunked.ts:135-227 | whatever arrives: the output is the stored chunks 0 .. nextNr-1 in order, every pending number lies beyond them, the byte count is exact and within the cap, onFinished runs at most once |
| Chunked.PushOutcome | src/transport/chunked.ts:135-203 | what an arrival does to a live stream: it fails, with that reason, if the number came before, lies beyond one marked last, does not decode or does not fit; it closes with a chunk marked last that nothing before is missing of; a stream that fails hands over nothing more |
| Chunked.EndsOnce | src/transport/chunked.ts:183-227 | an abort or a cancelled reader ends a live stream as it is, and nothing changes a stream after its end |
| Chunked.ChunkReassembler.PushChunk | src/transport/chunked.ts:135-181 | the in-place push is the step those properties are about |
| Chunked.ChunkReassembler.DrainPending | src/transport/chunked.ts:189-203 | the drain loop hands over every chunk in line and closes on the last |
| Chunked.ChunkReassembler.AbortWith | src/transport/chunked.ts:183-187 | the reader errors once, and nothing happens to a finished stream |
| Chunked.ChunkReassembler.CancelReader | src/transport/chunked.ts:128-130 | a cancelled reader finishes the stream |
| Chunked.ChunkReassembler.FinishOnce | src/transport/chunked.ts:220-227 | finishing twice is finishing once |
| ChunkedRoundTrip.AnyOrderRoundTrip | src/transport/chunked.ts:48-203 | for every body, chunk size and order of arrival the reader gets exactly the body if and only if at each arrival what waits behind a hole fits the cap with the new chunk; the stream closes at the arrival of the last missing chunk and not before; otherwise it fails as too large |
| ChunkedRoundTrip.DrainRuns | src/transport/chunked.ts:189-203 | draining stops at the first hole, and completes the body exactly if there is none |
| ChunkRouter.EveryRunRoutes | src/transport/chunked.ts:289-363 | in every run each undisturbed stream is where feeding it its chunks directly would have put it, however many came before expect(), and the orphans kept never exceed their cap |
| ChunkRouter.RoutedRoundTrip | src/transport/chunked.ts:48-363 | sender to reader through the router: whenever expect() is called and whatever else is routed, after any number of arrivals an undisturbed stream has failed as too large exactly if one of them found too much waiting; else its reader has every block before the first missing one, and the closed body once none is missing, not before |
| ChunkExpiry.AfterArrival | src/transport/chunked.ts:337-363 | after an arrival each key's waiting chunks are exactly those of the last ten seconds, in order, and the new one behind them unless it does not fit 512 KiB with all that is kept |
| ChunkExpiry.DisturbedOnlyIf | src/transport/chunked.ts:337-363 | in every run a stream loses a chunk only if one of its chunks was over ten seconds old when an orphan arrived, or found no room, before it was expected |
| ChunkExpiry.RoutedInTime | src/transport/chunked.ts:48-363 | the same round trip for every stream whose chunks come within ten seconds and 512 KiB until it is expected, with no word about lost chunks |
| ChunkRouter.SharedRouter.SweepOrphans | src/transport/chunked.ts:351-363 | exactly the expired chunks go, and the running byte count stays the sum of the payloads kept |
| ChunkRouter.SharedRouter.Buffer | src/transport/chunked.ts:337-349 | an orphan is kept if it fits after the sweep, else dropped, with the byte count kept exact |
| ChunkRouter.SharedRouter.Handle | src/transport/chunked.ts:316-335 | a stanza goes to its reassembler or to the orphans; one without a usable number is ignored |
| ChunkRouter.SharedRouter.ExpectStream | src/transport/chunked.ts:289-306 | registering replays the waiting chunks in order and takes their bytes off the count |
| IbbStreamSafety.EveryRunTransfersCorrectly | src/ibb/ibb.ts:449-688 | in every run every stream keeps its whole invariant: bytes, sequence numbers across the wrap, window, latched failure, phase of close() |
| IbbStreamSafety.CloseContract | src/ibb/ibb.ts:563-688 | of a sending half by itself (a duplex: IbbTeardown.OneCloseAtTheEnd): at most one close stanza and no data after it; what is written is what is on the wire plus what is buffered; a close() that resolves without the peer's means every block acked and all bytes written dispatched |
| IbbStreamSafety.EarliestFailureIsReported | src/ibb/ibb.ts:518-545 | whatever order rejections arrive in, the failure reported is the abort or that of the earliest block refused so far |
| IbbBlocking.NothingIsHeldBack | src/ibb/ibb.ts:563-612 | in every run a usable stream that no pump works for buffers less than a block, and nothing if each write is flushed or it is closing |
| IbbBlocking.BlocksAreFull | src/ibb/ibb.ts:563-567 | in every run a stream that does not flush each write sends full blocks only, but for a last one when it closes; and on any stream a block is a full one or all that was buffered when it left |
| IbbOutStream.DispatchKeeps | src/ibb/ibb.ts:505-516 | taking, numbering and sending a block in one step keeps the stream's invariant and its window |
| IbbOutStream.RecordKeeps | src/ibb/ibb.ts:518-537 | an answer in any order keeps the latched failure the lowest refused ordinal |
| IbbOutStream.ContinueCloseKeeps | src/ibb/ibb.ts:636-661 | close() after its pump sends its stanza only when everything was taken and answered |
| IbbOutStream.AnswerOutcome | src/ibb/ibb.ts:518-537 | an ack fails nothing; a refusal fails the stream, reported for the block sent earliest, unless it is the item-not-found that the peer's close explains |
| IbbOutStream.CloseGoesOn | src/ibb/ibb.ts:636-661 | close() waits exactly while blocks are unanswered and neither the peer nor an abort ended the stream; then a failure comes first, then the peer's close, and only then its own goes out |
| IbbOutStream.CloseIsAnswered | src/ibb/ibb.ts:651-661 | a refused close rejects unless the peer's crossed it, and is reported if nothing failed before |
| IbbOutStream.AbortOutcome | src/ibb/ibb.ts:662-681 | abort() leaves alone a stream that has failed, closed or been closed, and fails any other at once with one close |
| IbbOutStream.PeerCloseOutcome | src/ibb/ibb.ts:684-690 | the peer's close is noted once, and whoever waits looks again |
| IbbSchedulerSafety.EveryRunSchedules | src/ibb/ibb.ts:571-612 | the scheduler's invariant holds between any two steps of every run |
| IbbSchedulerSafety.BudgetIsExact | src/ibb/ibb.ts:705-814 | the session budget is the counted blocks plus the reserved slots and never exceeds the limit; counted slots are distinct blocks in flight in dispatch order; nobody is queued twice or waits while a slot is free; a parked pump has an answer coming or a place in the queue |
| IbbSchedulerSafety.TurnsAreFair | src/ibb/ibb.ts:705-717 | between any two states of a run a stream at position p has taken the p-th turn, or moved up one place for every turn taken: nobody overtakes it |
| IbbFairness.KeepsWantingIsGranted | src/ibb/ibb.ts:802-814 | a stream at position p that keeps wanting a slot until it has one: the p-th turn from now is logged as a grant to it, so at most p turns of others come before, or it is still queued, one place up for every turn |
| IbbFairness.StepDropsUnwilling | src/ibb/ibb.ts:802-814 | an event drops from the queue only a stream that did not want a slot before it or does not after it |
| IbbSchedulerSafety.GrantKeeps | src/ibb/ibb.ts:802-814 | the granting loop keeps the accounting and the order of the queue, and stops only with the budget full or nobody waiting |
| IbbProgress.SweepIsExact | src/ibb/ibb.ts:760-774 | the early exit loses nothing: exactly the slots at or past the cutoff are reclaimed |
| IbbProgress.ReclaimedIff | src/ibb/ibb.ts:751-774 | a counted block is reclaimed exactly if an ack has been timed before and it has been unanswered for at least the floor and four times the latency |
| IbbProgress.SmoothedMoves | src/ibb/ibb.ts:737-749 | a sample moves the latency an eighth of the way to itself, and the first is taken as it is |
| IbbProgress.OnlyCountedAcksAreTimed | src/ibb/ibb.ts:737-749 | an answer is a sample exactly if it is an ack of a block still counted, and measures that block's age |
| IbbProgress.GrantOutcome | src/ibb/ibb.ts:802-814 | free slots go to the streams that want one, in queue order, as far as they last |
| IbbProgress.RequestStrandsIff | src/ibb/ibb.ts:705-717 | exactly when a refused request leaves its stream with a slot it will not use |
| IbbProgress.WaitersAreServed | src/ibb/ibb.ts:490-497 | while no grant is stranded, a waiting stream means a full budget and a stream that holds part of it, by a reserved slot with its pump woken or an answer to come, or by a counted block still unanswered |
| IbbProgress.StepLiveIff | src/ibb/ibb.ts:592-612 | however many blocks its pump sends, an event leaves every reserved slot live if and only if its pump's first request does not strand one |
| IbbProgress.StrandingNeedsSweep | src/ibb/ibb.ts:705-709 | only a request that reclaims a parked block can strand a slot |
| IbbProgress.EveryRunProgresses | src/ibb/ibb.ts:705-814 | in every run all reserved slots have stayed live if and only if no event stranded one; while they are, a waiting stream means a full budget and a stream that holds part of it, by a reserved slot with its pump woken or an answer to come, or by a counted block still unanswered |
| IbbStall.StallIsReachable | src/ibb/ibb.ts:705-717 | a run of thirteen states that ends with streams waiting and the whole budget reserved for a parked pump |
| IbbStall.StallPersists | src/ibb/ibb.ts:705-814 | no event but a call by the stalled stream's own user ends it |
| IbbStall.StallLasts | src/ibb/ibb.ts:705-814 | from there on no run hands out a slot until that user calls |
| IbbManager.Manager.ReclaimParked | src/ibb/ibb.ts:760-774 | the sweep loop over the counted set is the reclaiming step |
| IbbManager.Manager.GrantSendSlots | src/ibb/ibb.ts:802-814 | the granting loop is the granting step |
| IbbManager.Manager.AcquireSendSlot | src/ibb/ibb.ts:705-717 | a slot now, or the stream queued once, after reclaiming and granting |
| IbbManager.Manager.ReleaseSendSlot | src/ibb/ibb.ts:720-723 | a slot given back is handed on at once |
| IbbManager.Manager.EndSendSlot | src/ibb/ibb.ts:737-749 | only a block still counted gives its slot back, and only its ack is a latency sample |
| IbbManager.Manager.GiveBackGrants | src/ibb/ibb.ts:579-584 | a leaving pump returns every slot reserved for its stream |
| IbbManager.Manager.DispatchBlock | src/ibb/ibb.ts:505-516 | one block leaves in the slot its pump holds |
| IbbManager.Manager.Pumping | src/ibb/ibb.ts:592-612 | the pump loop, from one await to the next, is the pump's step |
| IbbManager.Manager.Write | src/ibb/ibb.ts:625-629 | write() refuses an unusable stream, else buffers and pumps |
| IbbManager.Manager.Close | src/ibb/ibb.ts:630-641 | close() up to the first await of its pump |
| IbbManager.Manager.Settle | src/ibb/ibb.ts:490-537 | an answer: latch, give the slot back, then wake |
| IbbManager.Manager.OnReclaimTimer | src/ibb/ibb.ts:787-791 | the timer reclaims and grants |
| IbbInStream.RedeliveryDistance | src/ibb/ibb.ts:130-133 | across any number of wraps a block is taken for a redelivery exactly when it lies 1 to 64 back, and for the expected one exactly when it is |
| IbbInStream.ReplayToleratedIff | src/ibb/ibb.ts:1237-1250 | a replay d blocks back is acked and dropped if and only if d is at most 64, and otherwise fails the stream |
| IbbInStream.ReplayOfHeldBlockIsAcked | src/ibb/ibb.ts:1238-1240 | the copy is acked while the original's ack is being withheld |
| IbbInStream.HandlersAreReleased | src/ibb/ibb.ts:1262-1291 | an ack is withheld only on a live stream whose buffer is full, through every handler |
| IbbInStream.FullWindowIsAcked | src/ibb/ibb.ts:1383-1389 | when a window and a block fit under the cap, a full window on an empty buffer is acked with no read |
| IbbInStream.DataOutcome | src/ibb/ibb.ts:1237-1291 | a data request on a live stream, case by case: a copy of one of the last 64 blocks is acked and dropped; a wrong number or a payload that does not decode fails the stream, hands over nothing and is answered accordingly; the block expected goes behind what the reader has and is acked unless it fills the buffer |
| IbbInStream.LateOutcome | src/ibb/ibb.ts:1229-1235 | on a stream that is over nothing is handed over, and only a tombstone still acks |
| IbbInStream.ResumeOutcome | src/ibb/ibb.ts:1264-1291 | a waiting handler parks again while the buffer of a live stream is full, and is else answered by how the stream ended |
| IbbInStream.CloseOutcome | src/ibb/ibb.ts:1294-1319 | the peer's close ends a live stream cleanly with what it has handed over; a tombstone answers; nobody else knows of it |
| IbbInStream.MessageOutcome | src/ibb/ibb.ts:1322-1371 | data carried by a message fails a live stream exactly if its number is neither expected nor one of the last 64, or it is expected and does not decode or takes what is unread over 1 MiB past the mark |
| IbbInStream.MessagesAreDelivered | src/ibb/ibb.ts:1322-1371 | for blocks carried by messages, any of the last 64 again at any time and the reader reading along: what is handed over is the blocks in order, each once across any number of wraps |
| IbbInStream.Inbound.HandleData | src/ibb/ibb.ts:1223-1291 | the data handler up to its first await: same branches, same answers |
| IbbInStream.Inbound.Resume | src/ibb/ibb.ts:1264-1291 | a woken handler parks again or answers, item-not-found if the stream died meanwhile |
| IbbInStream.Inbound.Conclude | src/ibb/ibb.ts:1262-1291 | the end of a data handler: withhold while the consumer lags, else answer |
| IbbInStream.Inbound.Consume | src/ibb/ibb.ts:1006-1013 | reading wakes every withheld ack once there is room |
| IbbInStream.Inbound.HandleClose | src/ibb/ibb.ts:1294-1319 | the peer's close ends the reader, or is answered by a tombstone, or finds nothing |
| IbbInStream.Inbound.HandleMessageData | src/ibb/ibb.ts:1322-1371 | data carried by a message: no ack, and runaway buffering fails the stream |
| IbbInStream.Inbound.FinishStream | src/ibb/ibb.ts:1428-1443 | finishing unregisters, wakes every handler, and errors the reader unless it was cancelled |
| IbbDelivery.DeliveredInOrderOnce | src/ibb/ibb.ts:505-1291 | end to end, any of the last 64 blocks replayed at any time: the reader's bytes are a prefix of those written, each block once across any number of wraps; the stream never fails by itself; every acked block is among them |
| IbbDelivery.ResolvedCloseMeansDelivered | src/ibb/ibb.ts:630-661 | a close() that resolves without the peer's means the reader was handed exactly what was written |
| IbbDelivery.CleanEndIsComplete | src/ibb/ibb.ts:1294-1319 | a reader that ends cleanly has everything dispatched, and everything written unless the sender aborted |
| IbbDelivery.UnreadIsBounded | src/ibb/ibb.ts:1262-1291 | unread bytes stay below the high-water mark plus a window of blocks, plus one block for each withheld block whose copy was acked |
| IbbReplay.MemoryBoundIsTight | src/ibb/ibb.ts:1238-1291 | for every block size, pair of windows and number of early acks, a run whose unread bytes come within one block of that bound |
| IbbReplay.BackpressureHoldsIff | src/ibb/ibb.ts:1238-1291 | in every configuration the bound without early acks holds in all runs with at most n of them if and only if n is 0 |
| IbbDuplex.ActKeeps | src/ibb/ibb.ts:1055-1221 | while neither side aborts, times out or refuses a block, every action of either endpoint keeps both sides and both directions of a duplex |
| IbbDuplex.RecvDataIs | src/ibb/ibb.ts:1223-1291 | data reaching a live half is taken or held; data reaching a tombstone is acked and discarded; none is refused |
| IbbDuplex.RecvCloseIs | src/ibb/ibb.ts:1294-1319 | a crossing close is answered with a result, and nothing of the peer's is held by then |
| IbbDuplex.ResumeIs | src/ibb/ibb.ts:1286-1290 | a woken handler of a duplex never answers item-not-found |
| IbbDuplexLiveness.NothingIsRefused | src/ibb/ibb.ts:1055-1221 | in every run every answer is a result, no stream fails, no reader errors, no close() rejects |
| IbbDuplexLiveness.ClosesResolve | src/ibb/ibb.ts:1055-1221 | once one or both sides closed, at any moment, and nothing more can happen: every close() has resolved, both readers have ended cleanly, both entries are unregistered |
| IbbDuplexLiveness.ActivityDiesDown | src/ibb/ibb.ts:1055-1221 | that point is reached: from any state internal steps are fewer than a rank of the state |
| IbbDuplexDelivery.DuplexDelivers | src/ibb/ibb.ts:1055-1291 | each reader's bytes are a prefix of what the other wrote; a side whose own close went out, crossing or not, has had all of it received |
| IbbTeardown.EveryRunTearsDown | src/ibb/ibb.ts:1055-1221 | against any peer, user and clock, every event keeps the wire, what the peer knows, and the two halves of a duplex in step |
| IbbTeardown.OneCloseAtTheEnd | src/ibb/ibb.ts:1101-1210 | whatever ends it, a duplex has sent its blocks in order, then at most one close, by whichever path, and nothing after it, unless its open timed out and its sending half closed as well, when there are two; and peerKnows is set exactly if a close went out, the peer's came in, or the open was refused |
| IbbTeardown.HalvesEndTogether | src/ibb/ibb.ts:1074-1210 | with nothing pending, the inbound half is over exactly if the sending half is or the open was refused; then the peer knows, the reader has its end or its error, no handler waits and the entry is gone |
| IbbTeardown.SecondCloseIff | src/ibb/ibb.ts:389-401 | after an open that timed out two closes were sent exactly if the inbound half had failed of its own accord |
| IbbTeardown.SecondCloseIsReachable | src/ibb/ibb.ts:389-401 | a run that sends two |
| IbbTeardown.HowItEnds | src/ibb/ibb.ts:1074-1210 | the reader's end is clean after an own close() or the peer's and an error after anything else; the entry stays behind as a tombstone exactly if this side ended the stream and still awaits an answer |
| IbbTeardown.RefusalTearsDownOnce | src/ibb/ibb.ts:518-545 | a refused block tears the duplex down once, at the first refusal the peer's close does not explain |
| IbbTeardown.Duplex.RetireInbound | src/ibb/ibb.ts:1074-1088 | a live half ends once, with or without an error, and stays registered as a tombstone if asked; a finished one is left as it is |
| IbbTeardown.Duplex.TellPeerOnce | src/ibb/ibb.ts:1102-1114 | a close leaves exactly if the peer does not know yet |
| IbbTeardown.Duplex.AbortCall | src/ibb/ibb.ts:662-680 | abort() up to its first await: nothing on a half that is over, else latch, wake, retire the inbound half, close |
| IbbTeardown.Duplex.AbortContinues | src/ibb/ibb.ts:1150-1153 | the inbound half is retired and the peer told, even when the sending half had failed before |
| IbbTeardown.Duplex.AbortFinally | src/ibb/ibb.ts:1154-1158 | the entry goes |
| IbbTeardown.Duplex.CloseCatch | src/ibb/ibb.ts:1200-1204 | a close() that rejects retires the inbound half and tells the peer |
| IbbTeardown.Duplex.CloseFinally | src/ibb/ibb.ts:1205-1207 | the tombstone goes when close() is over |
| IbbTeardown.Duplex.Discard | src/ibb/ibb.ts:389-401 | a refused open ends the inbound half unheard; a timed-out one sends a close |
| IbbTeardown.Duplex.OnPeerClose | src/ibb/ibb.ts:1294-1319 | the peer's close ends both halves, also when it reaches a tombstone |
| IbbTeardown.Duplex.OnBlockAnswered | src/ibb/ibb.ts:518-545 | the first refusal tears the duplex down before its block gives its place back |
| S5bNegotiation.OffersAreOrdered | src/jingle/jingle.ts:107-122 | no cid twice, the adapter's order kept strictly within a type, every hosted candidate above every proxy |
| S5bNegotiation.PrioritiesAre | src/socks5/jingle-s5b.ts:58-66 | 65536 times the preference of the type plus the local one, which is not negative |
| S5bNegotiation.OffersAre | src/jingle/jingle.ts:107-122 | each host is offered under its place as a cid, directly if it is our own and as a proxy else, with the priorities of section 2.1 of XEP-0260 |
| S5bNegotiation.CheckCids | src/socks5/jingle-s5b.ts:149-156 | a parsed offer is refused exactly if a cid occurs twice |
| S5bNegotiation.OneTryOrder | src/socks5/jingle-s5b.ts:290-296 | sorting by priority and cid has one result whatever order the candidates came in |
| S5bNegotiation.OneIsTriedBefore | src/socks5/jingle-s5b.ts:290-296 | of two candidates the one of higher priority is tried first, or else the one whose cid comes first |
| S5bNegotiation.TryOrderExists | src/socks5/jingle-s5b.ts:290-296 | any candidates without a repeated cid can be put in that order |
| S5bNegotiation.ResolveAgrees | src/socks5/jingle-s5b.ts:254-284 | both sides resolve the same two reports to mirrored outcomes: the higher priority, the initiator's own on a tie, a fallback exactly if neither could use any |
| S5bNegotiation.SettlesOnce | src/jingle/s5b-negotiation.ts:117-247 | under any sequence of calls each promise settles at most once, first reports stand, and an outcome is the resolution of exactly those two |
| S5bNegotiation.AccumulateKeepsFirsts | src/jingle/s5b-negotiation.ts:126-133 | after a batch, what is known is all that was received, in order, each cid once and as it came first; so every cid offered is known |
| S5bNegotiation.UsedOutcome | src/jingle/s5b-negotiation.ts:158-172 | a cid we offered is recorded as the peer's report unless one was before; any other fails everything |
| S5bNegotiation.FailureOutcome | src/jingle/s5b-negotiation.ts:241-246 | a failure leaves nobody waiting, and what had settled as it was |
| S5bNegotiation.WaitsEnd | src/jingle/s5b-negotiation.ts:121-233 | candidates, or word that there are none, end the wait for them; an activation and a switch are noted |
| S5bNegotiation.Session.Receive | src/jingle/s5b-negotiation.ts:126-133 | candidates accumulate by cid, and the waiter fires on the first batch |
| S5bNegotiation.Session.RemoteUsed | src/jingle/s5b-negotiation.ts:158-172 | a cid we offered becomes the peer's report; any other fails every waiter |
| S5bNegotiation.Session.RemoteError | src/jingle/s5b-negotiation.ts:174-178 | the peer could use nothing: its first report stands, and it is done offering |
| S5bNegotiation.Session.SettleOutcome | src/jingle/s5b-negotiation.ts:189-198 | with both reports in, the outcome settles once |
| S5bNegotiation.Session.FailAll | src/jingle/s5b-negotiation.ts:241-246 | every waiter not settled yet is rejected |
| S5bNegotiation.Session.ReportLocal | src/jingle/s5b-negotiation.ts:149-152 | our first report stands, and settles the outcome if the peer's is there |
| S5bSession.BothSidesAgree | src/jingle/jingle.ts:399-961 | in any interleaving, whenever both sides settle they chose the same candidate with mirrored owner or both fall back; and the side that uses the peer's candidate holds a connection it dialled |
| S5bSession.OpenFindsItsReceiver | src/jingle/jingle.ts:559-1120 | the fallback's open is on its way only to a responder that has armed its receiver for that very sid, having fallen back too |
| S5bSession.NothingFailsAlone | src/jingle/jingle.ts:399-961 | unless a side breaks off, no waiter is ever rejected |
| S5bSession.NobodyIsLeftWaiting | src/jingle/jingle.ts:852-930 | a side that breaks off fails all who wait; one without an adapter reports at once that it can use nothing |
| S5bSession.OffersBecomeKnown | src/jingle/jingle.ts:399-961 | in any interleaving, once a side's offer has been received the other knows exactly its candidates, all of them and in order; before, none |
| S5bProgress.RunsToItsEnd | src/jingle/jingle.ts:399-1120 | no interleaving deadlocks: with neither side broken off, a stuck session is one where both are done and agree |
| S5bProgress.EveryRunIsShort | src/jingle/jingle.ts:399-1120 | every session is over within 24 steps |
| Socks5.BuildConnectRequest | src/socks5/protocol.ts:128-142 | the request of section 4 of RFC 1928 for a domain of at most 255 bytes, else an error |
| Socks5.RequestRoundTrip | src/socks5/protocol.ts:128-171 | parsing a built request returns its domain and port 0 |
| Socks5.WireBytes | src/socks5/protocol.ts:105-186 | the four messages byte for byte |
| Socks5.RequestParsesIff | src/socks5/protocol.ts:145-171 | the parser accepts exactly the connect requests of section 4 of RFC 1928 for a domain, any port, whatever follows |
| Socks5.RequestProblems | src/socks5/protocol.ts:145-171 | which error anything else gets: the first check that fails |
| Socks5.ReplyParsesIff | src/socks5/protocol.ts:188-199 | a reply is a success exactly if it starts with the version and 0 |
| Socks5.SegmentationIsInvisible | src/node/socks5.ts:63-104 | what exact-count reads return depends only on the bytes received and the counts asked, not on how TCP cut them or when each read was issued |
| Socks5.NothingIsLost | src/node/socks5.ts:63-122 | bytes returned, then what release() hands over, are exactly the bytes received, and no read waits that could be served |
| Socks5.SocketReader.FlushWaiters | src/node/socks5.ts:71-77 | the loop serves waiting reads in order |
| Socks5.SocketReader.TakeIn | src/node/socks5.ts:83-86 | a segment is appended, then reads are served |
| Socks5.SocketReader.Ask | src/node/socks5.ts:96-101 | a read queues behind the others, and is served at once if it can be |
| Socks5.SocketReader.Release | src/node/socks5.ts:108-121 | the leftover is everything buffered, and the buffer is empty |
| Socks5.HandshakeCompletes | src/node/socks5.ts:125-162 | under any segmentation the server learns the client's domain, the client succeeds if and only if the server knows it, and neither waits for bytes that are not coming |
| Socks5.BodyIsExact | src/node/socks5.ts:108-162 | body bytes that share a segment with the handshake are not lost: what a side has after it is a prefix of the other's body, and all of it once all has arrived |
| RateLimit.RateLimiter.EvictOldest | src/server/rate-limit.ts:69-79 | the scan removes the first of the least recently updated |
| RateLimit.RateLimiter.Take | src/server/rate-limit.ts:82-103 | one request: refill, spend or the seconds to wait |
| RateLimit.ConfigurationIs | src/server/rate-limit.ts:59-64 | a burst of at least one request, by default a second's worth rounded up, and at least one bucket, by default 10000 |
| RateLimit.BareJidIs | src/server/rate-limit.ts:47-49 | what stands before the first slash |
| RateLimit.TrackedIsBounded | src/server/rate-limit.ts:82-103 | never more buckets than the cap, each between empty and the burst, dated by the last request of its own JID and not by an earlier one |
| RateLimit.AdmissionsAreBounded | src/server/rate-limit.ts:82-103 | from any request of a JID on, while it is not evicted, at most the burst plus the rate times the time elapsed is admitted |
| RateLimit.RetryAfterSuffices | src/server/rate-limit.ts:97-102 | whoever is refused and comes back after the Retry-After is admitted, whatever others do meanwhile |
| RateLimit.RetryAfterIsTight | src/server/rate-limit.ts:97-102 | nor is it padded: a second before it is over the same JID is refused again |
| RateLimit.BurstIsAdmitted | src/server/rate-limit.ts:82-99 | whatever the clock says and whoever else asks, the first burst of requests of a JID is admitted |
| RateLimit.EvictionIsUnobservable | src/server/rate-limit.ts:69-88 | as long as no more JIDs are heard from within a bucket's fill time than can be tracked, every answer is the one a limiter without a cap gives |
| Dpip.BuildTag | examples/dillo/src/dpip.ts:24-33 | the printed tag, or an error exactly if a name is invalid |
| Dpip.ParseTag | examples/dillo/src/dpip.ts:40-78 | the index-advancing loops accept, reject and assign exactly as the grammar over the remaining text |
| Dpip.ReadValueAt | examples/dillo/src/dpip.ts:59-74 | a value runs to the first quote not followed by another, doubled quotes undone |
| Dpip.ParseInvertsBuild | examples/dillo/src/dpip.ts:24-78 | for any valid names and any values parsing inverts printing if and only if no attribute is named `__proto__`; a printed tag always parses |
| Dpip.ToMapHolds | examples/dillo/src/dpip.ts:24-78 | of distinct names each is mapped to its own value, and there are no others |
| Dpip.ProtoIsLost | examples/dillo/src/dpip.ts:76-76 | a tag that does not survive |
| Dpip.ParsesIff | examples/dillo/src/dpip.ts:40-78 | the parser accepts a text exactly if it spells some attributes, each between spaces and with its quotes doubled, and assigns just those in order |
| Dpip.TagOfOne | examples/dillo/src/dpip.ts:24-33 | a printed tag character for character |
| Dpip.SpacesAre | examples/dillo/src/dpip.ts:20-33 | which code points count as white space |
| DpipFraming.TerminatorOnlyAtEnd | examples/dillo/src/dpip.ts:8-18 | in a printed tag with an attribute the terminator occurs at the end and nowhere else; in an empty tag nowhere |
| DpipFraming.TagBuffer.Push | examples/dillo/src/dpip.ts:94-102 | the bytes are taken in even when the limit is exceeded |
| DpipFraming.TagBuffer.FindEnd | examples/dillo/src/dpip.ts:121-127 | the first terminator |
| DpipFraming.TagBuffer.NextTag | examples/dillo/src/dpip.ts:105-111 | a complete tag leaves the buffer, malformed or not |
| DpipFraming.TagBuffer.Rest | examples/dillo/src/dpip.ts:114-118 | whatever is buffered, and the buffer is empty |
| DpipFraming.AnyChunking | examples/dillo/src/dpip.ts:85-119 | however tags and a payload are cut and however often the reader looks, the tags come out one for one and the rest is the payload, byte for byte |
| DpipFraming.CompleteTagComesOut | examples/dillo/src/dpip.ts:105-111 | the next tag is there to be taken exactly once its last byte was pushed |
| DpipFraming.PushThrowsIff | examples/dillo/src/dpip.ts:94-102 | however tags and payload are cut, a push throws exactly if the bytes pushed by then exceed the tags taken out by more than the limit |
| DpipFraming.NoPushThrows | examples/dillo/src/dpip.ts:94-111 | for a reader that takes each complete tag before the next push, and pushes nothing more once it has the last, none throws if the longest tag less one byte and the longest piece fit the limit together |
| Select.ChunksFitIff | src/transport/select.ts:85-114 | with the chunk size derived from a stanza limit every chunk of every body leaves 510 characters for its envelope if and only if the limit is at least 854 |
| Select.SizeFits | src/transport/select.ts:100-114 | the rounding costs at most two characters, and exactly two for the limits that are 2 modulo 4, below the size cap |
| Select.SizesAre | src/transport/select.ts:85-114 | a chunk size is the peer's wish within 256 and 65536, else 4096; the budgets are what a stanza limit leaves, in whole bytes |
| Select.SelectStream | src/transport/select.ts:184-206 | the first preferred mechanism the peer accepts; too large exactly when canStream is false |
| Select.SelectEncoding | src/transport/select.ts:127-168 | whatever goes inline is within the budget as escaped or encoded, as text rather than base64 if it can; what does not fit goes by the first preferred mechanism the peer accepts, and is refused exactly when there is none |
| Select.EscapedLength | src/transport/select.ts:70-78 | the length after escaping the five special characters |
| Select.EscapedCosts | src/transport/select.ts:70-78 | escaping costs four characters for an ampersand, three for a bracket and five for a quote |

## Left out

- XML trees, namespaces, the stanza codec and IQ plumbing: messages are abstract values, and a request and its answer are two messages of a channel.
- Timers and clocks: a timer is an event that may happen at any time, the clock a number that does not go back. The reclaim timer is not claimed to be armed whenever someone waits; dispatching a block does not arm it (src/ibb/ibb.ts:726-730).
- The idle watchdog and per-block deadlines of IBB: a deadline is a refusal that may arrive at any time, an idle timeout an abandoned reader.
- Configured windows: `sendWindowBlocks` is constant, a window any number from 1 to 256; reading a setting that is not a number is not modelled (src/ibb/ibb.ts:205-212).
- Opening an IBB stream: parking an early open and claiming it (src/ibb/ibb.ts:886-973) would only add the bookkeeping of two maps.
- IbbManager.Manager: its streams are values in a sequence field, not objects of their own, so aliasing between a stream handle and the manager is not captured; the same holds for the reassemblers of ChunkRouter.SharedRouter.
- IbbDuplex.ActKeeps: two endpoints, as values, without the other streams of their sessions; which pump holds which session slot is abstracted to a pump being active. That both closes resolve is promised only without aborts, timeouts and refused blocks; those paths are in IbbTeardown, for one endpoint against an arbitrary peer.
- IbbTeardown.OneCloseAtTheEnd: an awaited answer may come at any time or never, so that every abort() returns is not claimed; the idle timer's arming is left out, it may fire whenever the inbound half is live.
- IbbDelivery.DeliveredInOrderOnce: the sender starts at sequence number 0 and the channel replays only within the last 64 stanzas, as the receiver's tolerance demands.
- Bytes.BlockBuffer.Take: blocks are values, so the rule that a taken block is used before the next push is not captured.
- Chunked.Send: an abort signal between parts, and a chunk size of 0, which makes the buffer throw (callers always pass 256 or more).
- ChunkRouter.RoutedRoundTrip: a key is expected once; release() of the router and two reassemblers under one key are not modelled.
- S5bSession.BothSidesAgree: each side is a value moved by steps, not an entry the handlers and coroutines of one manager update in place; a side need not wait for the IQ result of what it sent before it goes on, which only adds interleavings; the session map, the sockets, the SHA-1 of the destination address and the transfer itself are left out.
- Sorting itself: candidates are sorted by a library call; only the order is modelled.
- Socks5.HandshakeCompletes: a domain is its bytes; UTF-8 encoding and decoding are not modelled, nor are DNS, connection errors and proxies.
- RateLimit.RateLimiter.Take: times and rates are real numbers, so floating-point rounding is not captured; the 429 response around it is left out.
- DpipFraming.AnyChunking: one character stands for one byte; decoding a tag's bytes as UTF-8 is not modelled; a push that throws has taken its bytes in, and the reading goes on from there (DpipFraming.PushThrowsIff says which push throws).
- Dpip.BuildTag: attributes come in the order the object enumerates them.
- Dpip.ParsesIff: which of its errors a text that does not parse gets is not stated.
- Select.SelectEncoding: the decoded text and the content-type test are inputs; text decoding drops a byte order mark and lengths count UTF-16 units, so no claim is made that text preserves bytes.
- SHA-1, compression, WHATWG streams beyond a queue with a high-water mark, sipub, HTTP proxying, discovery, the browser extension, the command line and the Electron shell: input and output, libraries, or members easier than the above.
