# Verified model of the lidi one-way transfer pipeline

lidi sends byte streams through a network diode. The sending side cuts each client's input into blocks, numbers them
with a `u8` that wraps, encodes every block into RaptorQ packets with several threads and sends the packets over UDP.
The receiving side groups packets by block id, decodes the groups with several threads, restores the order and hands the
blocks to one worker per client. Nothing ever flows back, so each stage has to be right on its own.

`dafny verify dfyconfig.toml` checks the project.

## How the model is built

| stage | source | modules |
|---|---|---|
| cutting a client's input into blocks, marking failures | `src/send/client.rs`, `src/send/server.rs` | `SendClient` |
| numbering, encoding, ordered release | `src/send/ordering.rs`, `src/send/encoding.rs`, `src/send/mod.rs` | `Turnstile`, `TurnstileOrder`, `SendPipeline` |
| grouping packets in a sliding window of ids | `src/receive/reblock.rs` | `ReblockModel`, `Reblock`, `SlidingWindow`, `WindowRefinement`, `ReblockOrder`, `ReblockConservation` |
| decoding, ordered release | `src/receive/decode.rs` | `Turnstile`, `TurnstileOrder`, `TurnstileFailures` |
| sorting blocks into client queues | `src/receive/dispatch.rs` | `Dispatch` |
| writing to a client | `src/receive/client.rs` | `ReceiveClient` |
| block format and sizes | `src/protocol.rs` | `LittleEndian`, `Blocks`, `RaptorQSizing` |
| file transfer on top of a stream | `src/aux/file` | `Streams`, `FileTransfer` |
| everything together | | `EndToEnd`, `Delivery`, `Arrival` |

The sequential workers are methods over classes, arrays and loops. The packet-grouping worker is the class
`Reblock.Reblocker`, proved equal, turn by turn, to the functions of `ReblockModel`. What those functions mean is then
stated against a second machine, `SlidingWindow`, which numbers blocks with unbounded integers and has no wrap-around and
no flags; `WindowRefinement` relates the two.

The threads around a shared counter are one labelled transition system, `Turnstile`, used twice. A step is a single action
of a single thread: take an entry, finish the work, look at the counter under the mutex, send, bump, notify, wake up for no
reason. The guards of the steps read only what the threads can see. Absolute sequence numbers, the accepted items and the
number of passed entries are history.

Environment choices are nondeterministic: how much a read returns, whether a stream fails, which packets arrive and in
which batches, when the receive timeout strikes, whether a queue's client worker is gone. Streams, sockets and client
workers can also be declared reliable; what an operation then cannot fail to do is stated too. The fountain code, set up
for one block length, is a pair of functions with one assumption (`EndToEnd.SoundCodec`): packets of a block carry its
id, and decoding packets of one block gives that block or nothing. Only the statements about complete delivery also assume
that enough different packets of a block always decode (`Delivery.Recovers`). The hash is an arbitrary function of the
sequence of calls made on the hasher.

## What comes out

* Within one reset epoch, for any number of clients, any schedule of all threads and any loss, duplication and reordering
  of packets inside the skew bound, a client receives an initial part of what was sent to it, and all of it when the
  transfer is reported complete (`EndToEnd.QueueEndToEnd`, `EndToEnd.Deliver`).
* When the packets of every block arrive while the window covers them, but for as many as the sizing tolerates to be lost,
  and all threads have come to rest, every client that was sent completely gets its whole input and the verdict that it is
  complete (`Arrival.NothingLostFromSending`, `Arrival.SizedCodeMakes`, `Delivery.DeliverEpoch`).
* Every failed decode is reported by exactly one marker, and every transfer under way when a marker reaches the dispatcher
  ends with an Abort (`TurnstileFailures.RunMarkers`, `Delivery.FailureAborts`).
* The skew bound is tight: a packet whose block number lies between 129 before and 255 past the cursor is judged as an
  unbounded window would judge it; one step further on either side it is taken for another block
  (`WindowRefinement.IdTestExact`).
* The `damaged` test (src/receive/reblock.rs:34) and the "too far" branch (src/receive/reblock.rs:120) never fire, in any
  run. So a receive timeout drops what is buffered without telling the dispatcher (`ReblockModel.ReachableInv`,
  `ReblockModel.TimeoutForgets`).
* The sender cannot deadlock or lose a wake-up, for 1 to 255 encoders with channels of as many places
  (`SendPipeline.SenderDelivers`).
* Between resets the packet-grouping worker loses and doubles nothing, whatever packets arrive and however far they stray:
  each packet it takes in is in exactly one block handed over or one buffer (`ReblockConservation.WorkerConservation`), and
  no turn hands over more than 127 blocks (`ReblockConservation.EventBound`).
* The receiver's turnstile releases in order exactly as long as no decoder looks at the counter with an entry a positive
  whole number of turns of 256 past the one awaited (`TurnstileOrder.OrderExact`, `Turnstile.RunInvIff`). After 256 failed
  decodes such a look is possible, and a block is released although every block before it was lost
  (`TurnstileOrder.OrderLostAfterFullTurn`).
* Block lengths are multiples of 8. Lengths 0 and 8, too short for a block header, come out of the sizing exactly when the
  block size is less than 16 or less than one packet (`RaptorQSizing.BlockLengths`); the original then fails when it
  builds a block or computes `max_data_len`.
* The hash of a file depends on the buffer size once the file is at least as long as one of the buffers
  (`FileTransfer.ChunksAgreeIff`); with equal sizes both ends agree, whatever the reads return (`FileTransfer.RoundTrip`).
* A file whose stream ends too early is reported as an I/O error, for want of a footer; the error for disagreeing sizes can
  only come out for an empty buffer (`FileTransfer.RefusedForHash`).
* The receiver's threshold is a 16-bit sum, and it can be met exactly when the receiver's minimum count is no more than the
  sender's repair count or that sum wraps (`RaptorQSizing.ThresholdReachable`).

## Model

| member | source | states |
|---|---|---|
| `ReblockModel.InitialInv` | src/receive/reblock.rs:16-21 | the state before the first datagram satisfies the invariant |
| `ReblockModel.RestartInv` | src/receive/reblock.rs:50-79 | after a reset the open slots are exactly the 127 ids from the first datagram's on, and everything is empty |
| `ReblockModel.AcceptAllInv` | src/receive/reblock.rs:81-100 | storing packets keeps the invariant and touches neither flags nor cursor |
| `ReblockModel.AdvanceInv` | src/receive/reblock.rs:115-127 | the slot opened opposite the cursor is always empty, and the moved window is again exactly the open slots |
| `ReblockModel.DrainPass` | src/receive/reblock.rs:102-128 | each pass of the loop strictly lowers the number of buffered packets |
| `ReblockModel.DrainInv` | src/receive/reblock.rs:102-128 | the loop ends with the cursor's buffer below the threshold, no error sent, no reset pending |
| `ReblockModel.TurnInv` | src/receive/reblock.rs:23-131 | every turn, timeout or datagrams, keeps the invariant; a reset is pending exactly after a timeout |
| `ReblockModel.ReachableInv` | src/receive/reblock.rs:33-42 | in every run a slot is open iff it lies in the window and closed slots are empty, so the `damaged` and "too far" branches never fire |
| `ReblockModel.TimeoutForgets` | src/receive/reblock.rs:28-56 | after a timeout the worker behaves as if just started: what was buffered is lost without a marker |
| `Reblock.Reblocker.constructor` | src/receive/reblock.rs:12-21 | 256 empty buffers, all ids ignored, reset pending |
| `Reblock.Reblocker.OnTimeout` | src/receive/reblock.rs:28-45 | the scan in place sends the error marker exactly when some ignored slot holds packets |
| `Reblock.Reblocker.Restart` | src/receive/reblock.rs:50-79 | buffers, flags, cursor and the decoders' counter after a reset, whatever they were before |
| `Reblock.Reblocker.OpenWindow` | src/receive/reblock.rs:73-78 | the wrapping loop clears the flags of exactly the 127 ids from the cursor on |
| `Reblock.Reblocker.Store` | src/receive/reblock.rs:83-87 | a packet is appended to its own slot unless that one is ignored |
| `Reblock.Reblocker.HandOverOne` | src/receive/reblock.rs:103-127 | one pass: what is sent, which flags change, and the cursor, in both outcomes |
| `Reblock.Reblocker.HandOver` | src/receive/reblock.rs:102-128 | the loop in place is the recursive specification |
| `Reblock.Reblocker.OnDatagrams` | src/receive/reblock.rs:50-128 | a whole turn in place, output and decoders' counter included, is the specification's turn |
| `SlidingWindow.ReleaseFacts` | src/receive/reblock.rs:102-128 | what goes out is, in order, the whole buffers that reached the threshold, up to the first that did not |
| `SlidingWindow.FeedFacts` | src/receive/reblock.rs:81-128 | one batch in the unbounded window: packets inside it are taken in, each then in one group or one buffer, in arrival order; `ReblockConservation.TurnFed` carries it to the 8-bit worker for any packets |
| `SlidingWindow.FeedBound` | src/receive/reblock.rs:102-128 | a batch makes the unbounded window hand over at most 127 blocks; `ReblockConservation.EventBound` carries it to the 8-bit worker |
| `SlidingWindow.Conservation` | src/receive/reblock.rs:81-128 | the same over any run of the unbounded window, with consecutive groups that each reach the threshold; `ReblockConservation.WorkerConservation` states it of the 8-bit worker for any packets |
| `SlidingWindow.AcceptedWithin` | src/receive/reblock.rs:84-99 | when all packets lie in one window, a block still waiting has all of its packets |
| `SlidingWindow.FeedWithin` | src/receive/reblock.rs:81-128 | packets of the current window, in any batches: where the cursor stops and what every block has received |
| `SlidingWindow.StopUnique` | src/receive/reblock.rs:102-102 | the stopping point depends only on how many packets each block has |
| `SlidingWindow.ReorderTolerance` | src/receive/reblock.rs:84-128 | permuting and rebatching packets of the window changes neither the blocks handed over nor what is left buffered |
| `WindowRefinement.IdTestExact` | src/receive/reblock.rs:84-87 | the 8-bit test is the unbounded window test exactly inside the window and where the distance modulo 256 is at least 127; so from 129 before to 255 past the cursor, and not one step further |
| `WindowRefinement.PutRefines` | src/receive/reblock.rs:83-87 | storing one packet is simulated by the unbounded window |
| `WindowRefinement.AdvanceRefines` | src/receive/reblock.rs:115-127 | closing a slot, opening the opposite one and moving the cursor is a shift of the unbounded window |
| `WindowRefinement.ReleaseRefines` | src/receive/reblock.rs:102-128 | the drain loop hands over the unbounded window's groups under their 8-bit ids |
| `WindowRefinement.Refinement` | src/receive/reblock.rs:81-128 | over any run within the skew bound, with any number of wraps, the 8-bit worker is the unbounded one |
| `WindowRefinement.EpochRefinement` | src/receive/reblock.rs:50-128 | the same from a pending reset on, whatever the buffers held |
| `WindowRefinement.EpochOutput` | src/receive/reblock.rs:110-113 | an epoch hands over consecutive blocks, each with exactly the packets accepted for it: two sender blocks are never mixed |
| `ReblockOrder.BatchRefinesSingles` | src/receive/reblock.rs:81-100 | a batch inside the window and the same packets one at a time end in the same state with the same ids; single-fed groups are initial parts of the batched ones |
| `ReblockOrder.ReorderingIsHarmless` | src/receive/reblock.rs:84-128 | permuted packets of the window give the same ids and the same cursor, in the 8-bit worker |
| `ReblockOrder.CursorStops` | src/receive/reblock.rs:102-127 | the cursor moves past exactly the leading blocks with enough packets |
| `ReblockConservation.TurnFed` | src/receive/reblock.rs:81-128 | one turn on any packets at all is a turn of the unbounded window on the same packets, numbered by their distance ahead of the cursor |
| `ReblockConservation.RunFed` | src/receive/reblock.rs:81-128 | so is any run between resets, with what was really taken in conserved |
| `ReblockConservation.WorkerConservation` | src/receive/reblock.rs:81-128 | for any packets: handed over ids are consecutive, each block has all packets buffered or taken in for it, in arrival order and enough of them, and the buffers have all the others |
| `ReblockConservation.EpochConservation` | src/receive/reblock.rs:50-128 | the same from a pending reset on, starting with empty buffers at the first datagram's id |
| `ReblockConservation.TurnBound` | src/receive/reblock.rs:102-128 | whatever has arrived, the loop hands over at most 127 blocks before it stops |
| `ReblockConservation.EventBound` | src/receive/reblock.rs:23-131 | so does every turn, timeouts and resets included |
| `Turnstile.InitialInv` | src/send/mod.rs:149-156 | counter and next id equal, workers idle: the invariant holds |
| `Turnstile.TurnExact` | src/send/encoding.rs:22-28 | an entry's id equals the counter exactly when the entry is a whole number of turns of 256 past the next one |
| `Turnstile.StepPut` | src/send/ordering.rs:14-16 | numbering an entry with the wrapping id keeps the invariant |
| `Turnstile.StepTake` | src/send/encoding.rs:7-10 | taking an entry from the queue keeps the invariant |
| `Turnstile.StepFail` | src/receive/decode.rs:15-18 | a failed decode sends one marker out of turn, frees the worker and changes nothing else; the invariant holds |
| `Turnstile.StepCheck` | src/receive/decode.rs:29-34 | a safe look at the counter lets only the next entry through |
| `Turnstile.StepSend` | src/send/encoding.rs:30-30 | sending under the mutex appends the result of the next entry |
| `Turnstile.StepBump` | src/send/encoding.rs:32-33 | bumping the counter passes exactly the entry sent |
| `Turnstile.StepNotify` | src/send/encoding.rs:34-34 | waking all sleepers keeps the invariant; no sleeper whose turn has come stays asleep |
| `Turnstile.StepInv` | src/receive/decode.rs:9-58 | every safe step of every worker keeps the invariant |
| `Turnstile.RunInv` | src/receive/decode.rs:9-58 | so does every safe run |
| `Turnstile.RunInvIff` | src/receive/decode.rs:29-34 | the invariant holds in every state of a run iff no worker of it looks at the counter a positive multiple of 256 past the next entry |
| `Turnstile.BoundedSafe` | src/receive/decode.rs:10-34 | runs that never take more than 256 entries past the counter are safe |
| `Turnstile.CheckSafeIff` | src/receive/decode.rs:29-34 | one look at the counter keeps the invariant iff it is safe |
| `Turnstile.ReleasedInOrder` | src/receive/decode.rs:14-48 | in every safe run what is released is a gap-free initial part of the accepted entries' results, and nothing past an entry whose work failed |
| `Turnstile.TakenWithinWorkers` | src/send/encoding.rs:18-34 | without failures, entries taken and not passed are in workers' hands, so no more than the workers |
| `Turnstile.LosslessBounded` | src/send/encoding.rs:18-34 | with at most 256 workers and no failures every run stays within the bound and is safe |
| `TurnstileOrder.SafeInTurn` | src/receive/decode.rs:29-47 | in a safe run every result sent is that of the first entry whose result was not sent yet |
| `TurnstileOrder.UnsafeRelease` | src/receive/decode.rs:29-43 | after an unsafe look the worker can send, and the result of a later entry takes the place of the next one's |
| `TurnstileOrder.OrderExact` | src/receive/decode.rs:29-47 | a run is safe iff neither it nor any initial part of it, possibly with one more result sent, releases out of turn |
| `TurnstileOrder.StopsAtFailure` | src/receive/decode.rs:14-48 | the decoders come to rest only with everything accepted released, or at an entry whose decode failed |
| `TurnstileFailures.FailMarkers` | src/receive/decode.rs:15-18 | whichever worker's decode fails, one marker is sent and its entry is put down |
| `TurnstileFailures.RunMarkers` | src/receive/decode.rs:14-48 | in every safe run the markers sent are as many as the entries taken whose work failed and that no worker holds any more |
| `TurnstileFailures.AllReported` | src/receive/decode.rs:14-48 | at rest, as many as all the entries taken whose work failed |
| `TurnstileOrder.OrderLostAfterFullTurn` | src/receive/decode.rs:15-34 | a run with one decoder in which 256 failures let the 257th block out first |
| `SendPipeline.NextInv` | src/send/mod.rs:151-156 | every step keeps: submitted blocks are those numbered, then the one in the ordering worker's hands, then those queued |
| `SendPipeline.ReachableInv` | src/send/ordering.rs:8-17 | so does every run |
| `SendPipeline.SenderOrder` | src/send/encoding.rs:18-34 | for 1 to 255 encoders and any schedule the groups sent are the encodings of the submitted blocks, in order, the i-th under id i mod 256 |
| `SendPipeline.RunWithinRoom` | src/send/mod.rs:152-156 | no channel ever holds more than its places |
| `SendPipeline.InternalLowers` | src/send/encoding.rs:5-36 | every step of the sender's threads lowers a measure, notifications included |
| `SendPipeline.HolderOfNext` | src/send/encoding.rs:22-28 | while an entry is taken and not passed, some worker holds the one whose id is on the counter |
| `SendPipeline.NobodySleepsForever` | src/send/encoding.rs:22-34 | workers all idle or asleep are all idle: no wake-up is lost |
| `SendPipeline.SomebodyCanMove` | src/send/mod.rs:151-156 | with bounded channels, unless everything is delivered some thread can take a step |
| `SendPipeline.WakeupRaises` | src/send/encoding.rs:22-28 | a spurious wake-up costs one unit of the measure |
| `SendPipeline.SenderDelivers` | src/send/udp.rs:37-52 | while nothing is submitted the threads stop after at most as many steps as the measure says, and two for each spurious wake-up, with every submitted block sent, in order |
| `LittleEndian.NumberRoundTrip` | src/protocol.rs:268-286 | reading back the bytes of a number gives the number |
| `LittleEndian.BytesRoundTrip` | src/protocol.rs:296-299 | any bytes are those of the number read from them |
| `LittleEndian.FourThenMore` | src/protocol.rs:296-299 | the first byte counts ones, the next 256s, and so on, for numbers of any width |
| `Blocks.HeaderBlock` | src/protocol.rs:261-275 | writing the five header bytes in place over zeros |
| `Blocks.NewBlock` | src/protocol.rs:254-294 | both forms of the constructor, error included: four bytes of the id, one of the type (0 to 4), four of the length, the data, zeros |
| `Blocks.ImageRoundTrip` | src/protocol.rs:296-328 | id, type and payload come back from any block; its length is the block length iff the data fit |
| `Blocks.Reading` | src/protocol.rs:296-328 | which bytes each accessor reads, how they count, and which type bytes are errors |
| `RaptorQSizing.New` | src/protocol.rs:86-132 | the sizes are as specified, or no sizes satisfy the specification |
| `RaptorQSizing.RepairCounts` | src/protocol.rs:107-121 | each repair count is the number of whole packets in its percentage of the block, in hundredths rounded down, the larger for the repair count; with the remainder where the product exceeds 32 bits |
| `RaptorQSizing.SizableIff` | src/protocol.rs:95-114 | sizes exist exactly when the three counts fit in 16 bits |
| `RaptorQSizing.SizedUnique` | src/protocol.rs:92-131 | the parameters determine the sizes, so equally configured ends agree |
| `RaptorQSizing.RepairMonotone` | src/protocol.rs:107-117 | up to 100 percent the product does not wrap, and repair counts grow with the percentage up to the symbol count |
| `RaptorQSizing.ThresholdReachable` | src/protocol.rs:140-150 | when a complete block of the sender meets the receiver's threshold, exactly |
| `RaptorQSizing.ThresholdExact` | src/protocol.rs:140-145 | when the 16-bit threshold is the true sum, exactly; and when it is positive |
| `RaptorQSizing.BlockLengths` | src/protocol.rs:92-98 | block lengths are multiples of 8, and are too short for a block header exactly when the block size is below 16 or below the packet size |
| `SendClient.SendTransfer` | src/send/client.rs:17-81 | Start, Data blocks, End; payloads concatenate to the input; with flush each read makes one block, without all Data payloads are full and the End payload is not; only a failing read cuts it short, and then less than a block is withheld, nothing with flush |
| `SendClient.CutBlock` | src/send/client.rs:39-68 | one block with all that was buffered and read, in either mode |
| `SendClient.AppendBlock` | src/send/client.rs:60-65 | one more block extends the transcript and the payload sequence |
| `SendClient.Serve` | src/send/server.rs:20-37 | a failed transfer is closed by an Abort: the log is always a complete transcript |
| `Dispatch.CollectSnoc` | src/receive/dispatch.rs:71-114 | how one more item changes what a transfer gets |
| `Dispatch.ProjectionLanguage` | src/receive/dispatch.rs:71-85 | each queue is one Start, Data blocks, at most one End or Abort, all of its client; never a heartbeat |
| `Dispatch.SoundAfter` | src/receive/dispatch.rs:87-114 | passing an item on to the active queues keeps each queue the projection of all items on its transfer |
| `Dispatch.SoundAfterStart` | src/receive/dispatch.rs:77-82 | a Start opens a new queue and ends whatever transfer of the same client was under way |
| `Dispatch.SoundAfterBlock` | src/receive/dispatch.rs:87-114 | a block reaches its active transfer or ends it, and an End or Abort ends it |
| `Dispatch.SoundAfterOther` | src/receive/dispatch.rs:59-90 | heartbeats, unknown types and blocks of inactive transfers change no queue |
| `Dispatch.Dispatcher.AbortAll` | src/receive/dispatch.rs:38-55 | lost synchronisation puts one Abort of its client, without data, in every active queue whose worker is there, leaves all other queues alone, and ends all transfers |
| `Dispatch.Dispatcher.Offer` | src/receive/dispatch.rs:77-96 | a Start makes a new queue, offers it to the client workers and puts the Start in it, unless its worker is gone |
| `Dispatch.Dispatcher.Pass` | src/receive/dispatch.rs:92-114 | a block of an active transfer: the tables stay the projection of all items, whether its worker is there or not |
| `Dispatch.Dispatcher.Process` | src/receive/dispatch.rs:38-114 | after every item each queue is the projection of all items so far on its transfer; an initial part once its worker is gone, which happens only when sending fails |
| `ReceiveClient.BufWriter.WriteAll` | src/receive/client.rs:26-27 | the buffered writer keeps the order of bytes, and on an error holds an initial part |
| `ReceiveClient.Receive` | src/receive/client.rs:37-98 | bytes written are an initial part of the payloads received; at the verdict they are all of them, and the verdict is that of the last block; on a socket that does not fail every block that comes is written, up to an End, an Abort or an unknown type |
| `FileTransfer.ReadHeader` | src/aux/file/protocol.rs:52-74 | parsing succeeds on a header followed by anything, and only there, reads its fields from those bytes and stops right behind it; otherwise which error |
| `FileTransfer.WriteHeader` | src/aux/file/protocol.rs:44-50 | the bytes appended: eight of the length of the name, the name, four of the mode, eight of the file length |
| `FileTransfer.HeaderUnique` | src/aux/file/protocol.rs:44-74 | at most one header can be read at a position |
| `FileTransfer.ChunksAre` | src/aux/file/send.rs:107-133 | the calls on the hasher are together the content, whole buffers all but perhaps the last, which is bare and shorter |
| `FileTransfer.ChunksAgreeIff` | src/aux/file/send.rs:107-133 | two buffer sizes make the same calls on the hasher iff they are equal or neither buffer is ever full |
| `FileTransfer.StoreRest` | src/aux/file/send.rs:106-113 | at the end of the content what is left in the buffer is hashed bare and written, at either end |
| `FileTransfer.SendBody` | src/aux/file/send.rs:94-137 | for every schedule of reads, bytes sent and hasher calls depend on content and buffer size only |
| `FileTransfer.SendFile` | src/aux/file/send.rs:86-123 | the stream is header, content, footer; the footer reads as the hash of the content, or 0 |
| `FileTransfer.ReceiveContent` | src/aux/file/receive.rs:139-206 | the receive loop consumes no byte behind the content |
| `FileTransfer.FinishBody` | src/aux/file/receive.rs:156-191 | the rest written, size check, footer and hash check, both ways, with the error of each |
| `FileTransfer.CheckFooter` | src/aux/file/receive.rs:166-191 | sizes are compared first, then hashes; each error with its two values in order |
| `FileTransfer.ReceiveFile` | src/aux/file/receive.rs:109-206 | success only with the whole announced content written and the footer read from right behind it; otherwise the error that fits, with its values |
| `FileTransfer.RefusedForHash` | src/aux/file/receive.rs:168-189 | on streams that do not fail a content with a footer is refused only for its hash; sizes never disagree unless the buffer is empty |
| `FileTransfer.RoundTrip` | src/aux/file/receive.rs:149-205 | for all buffer sizes and read schedules the file arrives, and is accepted iff hashing is off or the hashes agree; always with equal buffer sizes |
| `EndToEnd.CollectedIsInitial` | src/receive/dispatch.rs:71-114 | what a transfer collects is an initial part of its client's blocks, except for an Abort put behind it by a loss |
| `EndToEnd.CollectExact` | src/receive/dispatch.rs:38-114 | what a transfer gets: its client's blocks up to the first item that ends it, then an Abort for a loss, that block for an End or Abort, nothing for another Start |
| `EndToEnd.GroupDecodes` | src/receive/decode.rs:14-19 | the i-th group of an epoch has the packets taken in for its block, and decodes to the sender block it was cut from, or not at all |
| `EndToEnd.ReleasedAreSent` | src/receive/decode.rs:41-47 | blocks reaching the dispatcher in an epoch are consecutive sender blocks |
| `EndToEnd.QueueFaithful` | src/receive/dispatch.rs:92-92 | each client's queue is an initial part of what its sending client produced, or one with an Abort behind it |
| `EndToEnd.QueueDeliverable` | src/receive/client.rs:37-98 | every initial part of a client's queue is worth an initial part of its input, and nothing before the last block ends the transfer |
| `EndToEnd.QueueEndToEnd` | src/receive/client.rs:37-98 | the payloads queued for a client are an initial part of its input, and all of it with the End |
| `EndToEnd.Deliver` | src/receive/client.rs:57-92 | bytes written are an initial part of the input at the other end, and all of it when the transfer is reported complete; which happens, unless the client's socket fails, once the End is queued |
| `Delivery.AllHandedOver` | src/receive/reblock.rs:102-128 | when enough packets of every block arrive inside the window, every block is handed to the decoders |
| `Delivery.AllDispatched` | src/receive/decode.rs:14-48 | and when the decoders have come to rest, every block has reached the dispatcher, in order, without a failure marker |
| `Delivery.WholeTransfer` | src/receive/dispatch.rs:71-114 | a transfer sent completely is collected completely |
| `Delivery.EpochQueue` | src/receive/dispatch.rs:77-96 | each queue a dispatcher creates in an epoch, whatever its history, follows a transfer that starts in the epoch |
| `Delivery.DispatchEpoch` | src/receive/dispatch.rs:21-117 | the dispatcher run over an epoch: every queue it creates is right for its client, and complete when nothing is lost |
| `Delivery.DeliverEpoch` | src/receive/client.rs:37-98 | the client workers after it: every outcome is right, and when nothing fails on the way the client gets its whole input with verdict true |
| `Delivery.MarkerAborts` | src/receive/dispatch.rs:38-55 | a marker ends every transfer under way with an Abort behind its blocks so far |
| `Delivery.FailureAborts` | src/receive/decode.rs:15-18 | when some decode of an epoch failed and the decoders are at rest, a marker has reached the dispatcher and aborted every transfer under way at that moment |
| `Arrival.GroupsSent` | src/send/encoding.rs:14-30 | the i-th group sent is exactly what the code makes of the i-th block under the id i mod 256 |
| `Arrival.AllSent` | src/send/encoding.rs:22-34 | when the sender has come to rest every submitted block has its group |
| `Arrival.EnoughFromSending` | src/receive/reblock.rs:84-102 | packets sent that arrive once and inside the window, but for a tolerated loss, meet the threshold |
| `Arrival.NothingLostFromSending` | src/receive/reblock.rs:81-128 | so complete delivery follows from sending and arrival |
| `Arrival.SizedCodeMakes` | src/protocol.rs:140-168 | with sizes from equal mtu and block size the sender makes enough packets for the receiver's threshold, and the difference may be lost |

## Left out

- Resets across epochs: end-to-end statements start with a reset, with no block queued or held by a decoder, and stop at the next reset; a reset overwrites the counter while decoders may still hold old blocks, and loses buffered packets silently, so nothing of the kind holds across it.
- Progress of the receiver past a failed decode: the counter then stays at the lost block until a reset. Up to there it is `TurnstileOrder.StopsAtFailure`.
- ReblockModel.Drain: a threshold of 0 is excluded; the original's loop would not end. `RaptorQSizing.ThresholdExact` says when the threshold is positive.
- EndToEnd.QueueEndToEnd: assumes that client ids are unique, so that the blocks of an id are those of one client; the original counts them in 32 bits and wraps after 2^32 clients (src/protocol.rs:237-239).
- EndToEnd.DecodersRun: assumes a safe run of the decoders; `TurnstileOrder.OrderExact` shows that exactly this is needed for the order.
- Threads as values: the turnstiles and the sender's channels are states and steps, not classes, since several threads share them; mutex, condition variable and channel operations are atomic steps.
- The decoders' `Reassembled::Error` item (src/receive/decode.rs:51-54): never sent, by `ReblockModel.ReachableInv`.
- The sender's stop path (the `None` of src/send/ordering.rs:9-12, src/send/encoding.rs:7-10 and src/send/udp.rs:38-48): it overtakes blocks still being encoded, so that everything is sent before the stop is not a property of this code.
- Errors of disconnected channels and poisoned mutexes, and the thread failures they cause.
- Sockets, batching of UDP system calls, heartbeats sent on a timer, and the wall clock; a timeout is an event that may happen at any moment.
- RaptorQ itself and the hash function: external libraries.
- Hashes that the client workers only log (src/send/client.rs:28-32, src/receive/client.rs:31-35), and the purge of `ended_transfers` (src/receive/dispatch.rs:105-113), which change no data.
- Blocks.NewBlock: the capacity of a new vector is taken to be exactly what was asked for; the padding relies on it.
- SendClient.SendTransfer: block lengths below 9, for which `max_data_len` underflows; `RaptorQSizing.BlockLengths` says when they arise.
- RaptorQSizing.New: an mtu below 40, for which the original underflows or divides by zero.
- FileTransfer.ReceiveFile: file names, paths, existing files and permissions (src/aux/file/receive.rs:114-137); a file that changes while it is sent.
- src/aux/udp: the same framing as the file header, but simpler. Limits on simultaneous clients, command lines, logging, CPU affinity and language bindings.
