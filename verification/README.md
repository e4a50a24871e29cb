# Verification of the netring core

netring lets goroutines do network I/O over one io_uring instance. Its hard part is shared
memory: many goroutines submit through a ticket lock with a fallback channel, one poller
delivers completions, a slot table and a pool of park cells connect the two, and buffers
circulate between kernel and user space through a ring with a 16-bit tail. This project models
that core in Dafny and proves what it guarantees over all runs.

The protocols (submission, completion, sends) are state machines in which every access to a
shared word is one step and the agents interleave freely. The data structures (slot table,
provided-buffer ring, timing wheel, priority queue) are classes over arrays whose methods are
proved against a value they stand for; the theorems about histories are proved about that value.

| files | what they model |
|---|---|
| `Arith.dfy`, `Words.dfy`, `Options.dfy` | wrapping counters, ring indices, 64-bit words as sets of bits |
| `Submission.dfy`, `SubmissionInvariant.dfy`, `SubmissionSteps.dfy`, `SubmissionTheorems.dfy`, `SubmissionRuns.dfy`, `SubmissionExit.dfy`, `SubmissionDrain.dfy`, `SubmissionWitness.dfy` | `submit`, `fallbackLoop`, `Push`, and the kernel that consumes the SQ |
| `TaskSlots.dfy` | the slot table, with the poller's steps interleaved into `Add` |
| `Completion.dfy`, `CompletionInvariant.dfy`, `CompletionSteps.dfy`, `CompletionTheorems.dfy`, `CompletionRuns.dfy`, `CompletionSlots.dfy` | from arming a cell to reading its result: workers, slots, kernel, poller, recycled cells |
| `EndToEnd.dfy`, `EndToEndWakeUp.dfy` | the submission protocol and the completion path running together |
| `BufferRing.dfy`, `ProvidedBufferRing.dfy` | the provided-buffer ring, as values and in memory |
| `TimingWheel.dfy`, `TimingWheelNodes.dfy` | the timing wheel, as values and as linked nodes in a pool |
| `SendAccounting.dfy`, `SendWaits.dfy` | one descriptor's sends and their continuations |
| `PriorityQueue.dfy` | the bounded binary heap |

`dafny verify dfyconfig.toml` checks everything.

## What turned out false

Six properties one would expect of this code do not hold of it. For each there is a reachable
case in which it fails, and the exact condition under which it holds.

- **Fallback mode need not end.** `finishedPushes.Store` (method_submit_fallback.go:53) overwrites
  credits that arrived after the batch count was taken. With a queue of any size a run reaches a state
  with nothing pending at all from which the fallback bit is never cleared again
  (`FallbackNeedNotEnd`). What was handed over is published all the same
  (`HandedOverIsPublished`). The mode can be left
  from a state if and only if no credit has been overwritten and none has come too late for the
  batch in hand (`FallbackEndsWhen`): otherwise no run clears the bit, and else one is constructed.
- **The ticket CAS compares 32-bit values.** It wins exactly when the ticket is a multiple of 2^32
  away from the tail that was read (`TicketCasWinsWhen`). A goroutine that sleeps before its CAS
  while 2^32 - 1 pushes go by wins the ticket although another holds it, and both are then inside,
  whatever the size of the queue (`LappedCasWins`).
- **The saturation gate of `Add` can be open with no slot behind it.** The translator can absorb a
  release bit before the poller has counted it. From a new table, 4097 Adds around one held-up
  deletion get there (`StaleArises`). It is so exactly if `free` is 0 and `lastDelCount` is one ahead of
  `delCount` (`GateExact`), and exactly then, the poller being quiet, Add's loop finds nothing, however many passes it is given
  (`AddFor`). Add looks at the gate once, so the poller's counting does not help: only a new release
  bit ends the loop (`Spins`, `ReleaseEndsSpin`), and Add holds the submission ticket all that time.
- **`ReplenishOne` restores the wrong buffer** if another pick came between the end of file and the
  call (`EofLost`), and of two readers that meet an end of file together only one is answered
  (`TwoEofsAtOnce`). Over whole runs, buffers are conserved if and only if every replenish comes when no
  buffer is out or, but for releases, directly after an end of file (`ConservedExactlyWhen`).
- **The second continuation of a short send starts past the data**, because `buf` moves by `len`
  and not by `sent` (method_send.go:108). The byte counts are right whenever a wait ends well
  (`NilMeansAllAccepted`); the bytes are right exactly if at most one SEND fell short
  (`DataInOrderWhen`, `TwiceShortGoesAstray`).
- **A send of 2^32 bytes or more is never waited for to the end**, because each SEND asks for the bytes
  still to go modulo 2^32 (method_send.go:43 and 101), so the last 2^32 are never asked for. A wait can end well if
  and only if no SEND has failed and the data is shorter than 2^32 bytes (`WaitEndsWhen`, `LongSendHangs`).

Where comments or ARCH.md and the code differ, the model follows the code:

- method_submit_fallback.go:10-13 calls the translator goroutine the only user of the slot table and
  of the buffer rings. Any ticket holder uses the table (`MutualExclusion` shows that it still has one
  user at a time), and releases of buffers run on the caller's goroutine.
- ARCH.md:159-160 has the poller delete every completed task's slot; `Poll` deletes only those of sends.
- taskslots.go:89 is documented as the gate of absolute saturation; it is exact only between deletions.

## Model

| member | source | states |
|---|---|---|
| `SubmissionTheorems.MutualExclusion` | method_submit.go:42-81 | at most one goroutine or the loop is between claiming the ticket and moving SQTail, so slot allocation and Push run alone |
| `SubmissionTheorems.TicketDistance` | method_submit_fallback.go:33-38 | ticketTail minus SQTail, in 32-bit arithmetic, is 0 when free, 1 when held, 2 only inside a loop dispatch |
| `SubmissionTheorems.TicketCasWinsWhen` | method_submit.go:57 | the CAS wins exactly at a multiple of 2^32; short of a lap exactly when the ticket is free and nothing was pushed since the load |
| `SubmissionTheorems.TriesWhenLevel` | method_submit.go:42-57 | a goroutine goes on to its CAS exactly if the ticket it read is level with all pushes made, and else looks at the fallback bit again |
| `SubmissionTheorems.EpochLedger` | method_submit.go:80-111 | epoch = finishedPushes + uncredited + waiting + served in this batch + lost, in every reachable state |
| `SubmissionTheorems.BatchCountNeverWraps` | method_submit_fallback.go:27-43 | M is at least 1 where it is computed, and counting it down never wraps |
| `SubmissionTheorems.SafeExit` | method_submit_fallback.go:55 | the CAS that clears the bit wins only with an empty channel, no submission pending or uncredited and no credit lost |
| `SubmissionTheorems.LostCreditPinsFallback` | method_submit_fallback.go:53-63 | a credit that is lost, or late for the batch in hand, is never recovered, and the fallback bit stays set in every continuation |
| `SubmissionExit.FallbackEndsWhen` | method_submit_fallback.go:25-65 | from a reachable state in fallback mode some run clears the bit if and only if no credit is lost or late |
| `SubmissionExit.SomeRunLeaves` | method_submit_fallback.go:25-65 | the run that clears it: hand over, feed the batch, credit between two batches, one more batch |
| `SubmissionExit.HandsOver` | method_submit.go:33-68 | in fallback mode a goroutine anywhere on its way reaches the channel within a few steps of its own |
| `SubmissionExit.RunsOn` | method_submit_fallback.go:25-63 | without a lost or late credit the loop reaches the end of its batch, fed by fresh calls, and leaves fallback mode if it was not disturbed |
| `SubmissionTheorems.BatchCountExactWithinLap` | method_submit_fallback.go:28-30 | the M the loop computes is the true number of outstanding submissions if and only if epoch and credits are in the same lap of 2^63 |
| `SubmissionTheorems.ExactlyOnceInOrder` | method_submit.go:28-83 | every task handed over is in the SQ history, the loop's hand or the channel, once, in each goroutine's program order |
| `SubmissionTheorems.QueueFollowsProgramOrder` | method_submit_fallback.go:21-65 | the SQ history holds an initial run of each goroutine's calls, across any switches of mode |
| `SubmissionTheorems.BoundedFifo` | internal/iouring/method_push.go:11-22 | SQTail - SQHead is the true count and never above SQEntries; every unread entry is intact at its slot |
| `SubmissionTheorems.KernelConsumesInOrder` | internal/iouring/method_push.go:18-22 | the kernel's next read is the oldest entry pushed and not yet read |
| `SubmissionWitness.CreditCanBeLost` | method_submit_fallback.go:27-53 | for every queue size: a reachable state in which a credit is lost while every goroutine is back and the queue is empty |
| `SubmissionWitness.LappedCasWins` | method_submit.go:57 | for every queue size: a reachable state in which the CAS of a goroutine that is a lap behind wins the ticket another holds |
| `SubmissionWitness.FallbackNeedNotEnd` | method_submit_fallback.go:53-63 | for every queue size: a reachable state with nothing pending from which no run at all clears the fallback bit |
| `SubmissionDrain.HandedOverIsPublished` | method_submit_fallback.go:21-65 | from every reachable state, credits lost or not, the loop and the kernel alone can publish and read everything that was handed over, in order |
| `SubmissionDrain.DrainStep` | method_submit_fallback.go:21-65 | until then one of them always has a step, and it lowers a measure |
| `SubmissionSteps.TicketCasMeansFree` | method_submit.go:42-57 | short of a lap, a winning CAS means the ticket was free and the tail unmoved |
| `SubmissionSteps.SubmitterKeepsControl` | method_submit.go:28-81 | every step of submit keeps ownership of the ticket, the registers and the meaning of the fallback bit |
| `SubmissionSteps.LoopKeepsControl` | method_submit_fallback.go:21-65 | so does every step of the fallback loop |
| `SubmissionSteps.ClearedOnlyWhenQuiet` | method_submit_fallback.go:55 | a barrier unchanged since the snapshot means that nothing is waiting, uncredited or lost |
| `SubmissionSteps.BatchCountAtLeastOne` | method_submit_fallback.go:27-30 | the task in hand is always part of the batch count |
| `SubmissionSteps.LoopKeepsLedger` | method_submit_fallback.go:27-55 | every step of the loop, the overwriting store included, keeps the ledger |
| `SubmissionSteps.SubmitterKeepsLedger` | method_submit.go:86-100 | every step of submit keeps the ledger |
| `SubmissionSteps.KernelReadsOldest` | internal/iouring/method_push.go:15-19 | through SQArray the kernel finds the oldest unread entry at its head |
| `SubmissionSteps.SubmitterKeepsRing` | internal/iouring/method_push.go:11-22 | every step of submit keeps each unread entry intact at its slot |
| `SubmissionSteps.LoopKeepsRing` | method_submit_fallback.go:33-38 | so does every step of the loop, which waits for room first |
| `SubmissionSteps.EventKeepsInv` | method_submit.go:18-111 | every step of every agent keeps the whole invariant |
| `SubmissionSteps.ReachableInv` | method_submit.go:18-111 | the invariant holds in every reachable state |
| `TaskSlots.Slots.New` | internal/taskslots/taskslots.go:38-78 | accepts exactly the powers of two from 4096 and type sizes that are positive multiples of 8; the table starts empty |
| `TaskSlots.Slots.constructor` | internal/taskslots/taskslots.go:66-75 | sizes and masks of a fresh table, the ledger holding |
| `TaskSlots.Slots.SyncWord` | internal/taskslots/taskslots.go:192-200 | the XOR clears exactly the released bits of one word and moves their number to `free` |
| `TaskSlots.Slots.Take` | internal/taskslots/taskslots.go:116-123 | a clear bit becomes a live index nobody held; nothing else changes |
| `TaskSlots.Slots.MarkReleased` | internal/taskslots/taskslots.go:161-169 | the first store of Del sets that bit and no other; the ledger survives it if and only if the index was live |
| `TaskSlots.Slots.CountRelease` | internal/taskslots/taskslots.go:170 | the second store of Del settles the ledger if it held, and repairs nothing if it did not |
| `TaskSlots.Slots.DelOverflow` | internal/taskslots/taskslots.go:144-158 | deleting an overflow index touches neither bitmaps nor counts |
| `TaskSlots.Slots.Del` | internal/taskslots/taskslots.go:143-171 | removes exactly its index, system ids leave the table as it is, and the ledger holds afterwards if and only if a hot index was live: each may be deleted once |
| `TaskSlots.Slots.Get` | internal/taskslots/taskslots.go:173-190 | a live index yields the task added there; any hot index yields its array slot, a missing overflow index the zero value |
| `TaskSlots.Slots.HotLive` | internal/taskslots/taskslots.go:161-170 | the live hot indices are exactly bitmap minus pollerBitmap |
| `TaskSlots.Slots.OverflowLive` | internal/taskslots/taskslots.go:186-189 | the live indices from cap up are exactly the keys of the overflow map |
| `TaskSlots.Slots.ReservedNeverLive` | internal/taskslots/taskslots.go:145-148 | no live index reaches the system ids, the two reserved user-data ids among them |
| `TaskSlots.Slots.FullIffNotFree` | internal/taskslots/taskslots.go:121 | `free` is zero exactly when every bit is set |
| `TaskSlots.Slots.GateExact` | internal/taskslots/taskslots.go:89 | outside a Del the gate is closed exactly when nothing can be had; it is open with nothing to be had if and only if free is 0 and lastDelCount one ahead of delCount |
| `TaskSlots.Slots.AddHot` | internal/taskslots/taskslots.go:104-139 | the hot path ends within one lap of the wave, with an index nobody holds, while the poller deletes |
| `TaskSlots.Slots.AddOverflow` | internal/taskslots/taskslots.go:90-101 | the search ends with a fresh index in [cap, cap + fallbackMask] and overwrites no entry |
| `TaskSlots.Slots.Add` | internal/taskslots/taskslots.go:87-139 | unless overdrawn: the index is one no live task holds, the task is stored there, and only the poller's deletions change anything else |
| `TaskSlots.Slots.AddFor` | internal/taskslots/taskslots.go:87-139 | for any table: cut off after more passes than there are words, a quiet Add has an index if and only if the table was not overdrawn |
| `TaskSlots.Slots.SomeWordReady` | internal/taskslots/taskslots.go:107-134 | while a slot can be had, some word has a clear bit or a release |
| `TaskSlots.Slots.WaveTarget` | internal/taskslots/taskslots.go:107-134 | the wave reaches such a word in fewer moves than there are words |
| `TaskSlots.Slots.OverflowTarget` | internal/taskslots/taskslots.go:92-97 | while the map is not full a free key lies ahead of fallbackWave |
| `TaskSlots.OverflowInRange` | internal/taskslots/taskslots.go:45-73 | overflow indices stay below 2^63 |
| `TaskSlots.Slots.Spins` | internal/taskslots/taskslots.go:107-138 | with nothing to be had no number of passes finds a slot, whatever the poller does short of setting a release bit, counting included |
| `TaskSlots.Slots.ReleaseEndsSpin` | internal/taskslots/taskslots.go:107-138 | a release bit ends the loop within one lap of the wave |
| `TaskSlots.Slots.AddOnRelease` | internal/taskslots/taskslots.go:125-138 | an Add that absorbs a release the poller has not counted yet, and uses its slot |
| `TaskSlots.Slots.StaleArises` | internal/taskslots/taskslots.go:89-170 | a run from a new table of 4096 slots to an open gate with nothing behind it |
| `Words.XorClears` | internal/taskslots/taskslots.go:194 | XOR with a subset is set difference |
| `Words.FirstZero` | internal/taskslots/taskslots.go:110-116 | the lowest clear bit of the word, or 64 |
| `Words.Pigeonhole` | internal/taskslots/taskslots.go:90-97 | fewer entries than keys leave a key unused |
| `CompletionTheorems.WakesOnlyTheSleeping` | method_poller.go:123-129 | goready meets a goroutine that is asleep in the very call it wakes |
| `CompletionTheorems.SleepsUnlessDelivered` | goruntime.go:39-42 | the unlock callback sleeps exactly if the poller's CAS is still to come, and leaves the word Parked |
| `CompletionTheorems.ResumedExactlyOnce` | method_poller.go:123-129 | a parked operation resumes its worker once, a send never |
| `CompletionTheorems.NoLostWakeUp` | goruntime.go:39-42 | from every state with a worker asleep, dispatch, kernel and poller steps alone can bring it back |
| `CompletionTheorems.FarSideComesToRest` | method_poller.go:44-129 | left to themselves those steps come to an end, in any order |
| `CompletionTheorems.NoSleeperAtRest` | method_poller.go:44-129 | and when none of them is possible nobody is asleep |
| `CompletionTheorems.WakeUpComes` | method_poller.go:95-129 | those steps, with a measure that each of them lowers, whatever the kernel answers |
| `CompletionTheorems.OwnResult` | method_recv.go:66-68 | res and flags read by a worker are those of the CQE for its own SQE, over any recycling |
| `CompletionTheorems.AnsweredOnce` | method_poller.go:105-106 | once the kernel has answered, no later step changes the answer |
| `CompletionTheorems.ReturnedOnce` | method_recv.go:67-75 | once a worker has read its result, no later step changes it |
| `CompletionRuns.ReadsTheAnswer` | method_recv.go:66-68 | in a run from the start the kernel answers an operation once, and that answer is what its worker has read |
| `CompletionRuns.BroughtBackOnce` | method_poller.go:123-129 | counted over the steps of a run, a parked operation's worker is brought back once by the time it returns, a send's never |
| `CompletionTheorems.SlotLeadsHome` | method_poller.go:95-101 | every CQE's slot is found and holds the cell its operation was armed with; the unknown-slot branch never runs |
| `CompletionSlots.Dispatches` | method_submit.go:130-134 | after whatever the others did during Add, the poller's deletions included, the completion path may dispatch under the index it returned, and table and completion path then agree on what is in flight |
| `CompletionSlots.Meanwhile` | method_poller.go:95-129 | a run without dispatches takes out of the table exactly the slots the poller deletes, and the task still waits |
| `CompletionSlots.LooksUp` | method_poller.go:95 | the poller's Get finds the cell of the operation the CQE belongs to |
| `CompletionSlots.Deletes` | method_poller.go:117 | the poller deletes a live index, as Del asks, and the two still agree |
| `CompletionTheorems.CellsNotShared` | netring_private.go:11-20 | two operations that may still touch a cell never share one, and it is not in the pool |
| `CompletionTheorems.PollerKeepsAway` | method_poller.go:103-128 | once the worker may run on, the poller is not at its cell |
| `CompletionTheorems.CellsComeBack` | method_recv.go:73-112 | every cell ever made is in the pool or still in use, never both: none gets lost |
| `CompletionSteps.ArmKeeps` | netring_private.go:11-20 | arming a pooled or new cell keeps the completion invariant |
| `CompletionSteps.SwapKeeps` | goruntime.go:39-42 | the Swap keeps the completion invariant, whether the CAS came before or is still to come |
| `CompletionSteps.PutBackKeeps` | method_recv.go:73-112 | returning the cell to the pool keeps the completion invariant: nobody else may still use it |
| `CompletionSteps.DispatchKeeps` | method_submit.go:130-134 | dispatching under an index no live task holds keeps the completion invariant |
| `CompletionSteps.AnswerKeeps` | internal/iouring/method_get_task.go:9-20 | an answer to any outstanding SQE, with any result, keeps the completion invariant |
| `CompletionSteps.WriteKeeps` | method_poller.go:105-106 | each of the two stores of the result keeps the completion invariant |
| `CompletionSteps.TryDoneKeeps` | method_poller.go:108-123 | the CAS keeps the completion invariant in both outcomes, as does a send's bypass of it |
| `CompletionSteps.GoReadyKeeps` | method_poller.go:128 | the wake-up keeps the completion invariant |
| `CompletionSteps.ReclaimKeeps` | method_poller.go:116-117 | giving back a send's cell and then its slot keeps the completion invariant |
| `CompletionSteps.ReachableInv` | method_poller.go:44-129 | the completion invariant holds in every reachable state |
| `EndToEnd.DispatchNeverBlocks` | method_submit.go:70-83 | whatever step the submission protocol may take, the completion path can take with it: a published task waits for its dispatch and its index is unused |
| `EndToEnd.DispatchedOnce` | method_submit.go:28-83 | a submitted operation waits for its dispatch exactly until its entry is in the queue's history, and no task is there twice |
| `EndToEnd.OwnResultOfOwnCall` | method_recv.go:45-68 | a worker that returned had made one call of submit for the operation; its entry was published once and read by the kernel, and the worker returned the kernel's answer |
| `EndToEnd.EventKeeps` | method_submit.go:18-111 | every joint step is one of either side alone, and keeps calls and operations paired, indices spare and answers to entries read |
| `EndToEnd.PlacedOnce` | method_submit.go:28-83 | no task is handed over twice |
| `EndToEndWakeUp.NoLostWakeUp` | goruntime.go:39-42 | from every reachable joint state a sleeping worker can be brought back by the loop, the kernel and the poller alone, whatever the kernel answers |
| `EndToEndWakeUp.SleeperDispatched` | method_recv.go:49-61 | a sleeping worker has returned from submit, so with channel and queue empty its entry has been read |
| `CompletionSlots.OthersLeaveSlots` | method_poller.go:95-129 | no other step of the completion path touches the table |
| `BufferRing.Partition` | internal/iouring/pbuf.go:229-242 | every bid is in the window, borrowed or lost to an end of file: once in all |
| `BufferRing.WindowDistinct` | internal/iouring/pbuf.go:284-294 | the bids between head and tail are distinct |
| `BufferRing.WindowFits` | internal/iouring/pbuf.go:341 | window, borrowed and lost add up to the capacity, and the 16-bit count is the true one |
| `BufferRing.PickTakesNext` | internal/iouring/pbuf.go:284-294 | the kernel is given the bids in the order they were published |
| `BufferRing.OverwritesNothing` | internal/iouring/pbuf.go:284-294 | a release writes no descriptor the kernel has still to read |
| `BufferRing.BeforeHeadIntact` | internal/iouring/pbuf.go:379-382 | below capacity, the descriptor before the head still names the last buffer picked |
| `BufferRing.ReplenishConservesWhen` | internal/iouring/pbuf.go:355-384 | one ReplenishOne conserves the buffers if and only if it is a no-op or republishes a buffer lost to an end of file |
| `BufferRing.ConservedExactlyWhen` | internal/iouring/pbuf.go:284-384 | from registration on, a run conserves the buffers throughout if and only if each replenish in it comes when none is out or, but for releases, next after an end of file; then as many are lost as ends of file are unanswered |
| `BufferRing.EofRoundTrip` | method_read.go:92-98 | an end of file, any releases and then ReplenishOne put the lost buffer back |
| `BufferRing.EofLost` | method_read.go:92-98 | with one pick in between, the wrong buffer comes back |
| `BufferRing.TwoEofsAtOnce` | method_read.go:92-98 | two ends of file and then two replenishes: the first is right, the second duplicates a buffer |
| `ProvidedBuffers.OneBitMeansPowerOfTwo` | internal/iouring/pbuf.go:117 | the one-bit test admits the powers of two and nothing else |
| `ProvidedBuffers.RegisterBufferRing` | internal/iouring/pbuf.go:114-243 | refuses exactly the bad sizes, saying which; otherwise the ring has the sizes and addresses asked for, and every buffer is published, in order |
| `ProvidedBuffers.HalvesApart` | internal/iouring/pbuf.go:411-414 | replacing one half of the word leaves the other as it was |
| `ProvidedBuffers.CountIsExact` | internal/iouring/pbuf.go:372-374 | the 16-bit count is that of the true counters, whatever the head's upper bits |
| `ProvidedBuffers.SlotBeforeHead` | internal/iouring/pbuf.go:381 | the masked 32-bit head - 1 is the slot before the true head |
| `ProvidedBuffers.ProvidedBufferRing.Fill` | internal/iouring/pbuf.go:229-240 | every descriptor describes its own buffer, and the ring is the freshly registered one |
| `ProvidedBuffers.ProvidedBufferRing.StoreTailRelease` | internal/iouring/pbuf.go:395-419 | the CAS replaces the tail and keeps descriptor 0's BID, the stores to it that made earlier attempts fail included |
| `ProvidedBuffers.ProvidedBufferRing.ReleaseBuffer` | internal/iouring/pbuf.go:284-294 | publishes that bid at the tail slot and nothing else, across wrap-around |
| `ProvidedBuffers.ProvidedBufferRing.Buffer` | internal/iouring/pbuf.go:298-300 | the span of a bid is `bufSize` long and inside the block, bid 0 first |
| `ProvidedBuffers.ProvidedBufferRing.SpansApart` | internal/iouring/pbuf.go:232-234 | no byte belongs to two buffers and none lies outside the block of capacity times bufSize bytes |
| `ProvidedBuffers.ProvidedBufferRing.SpansAdjoin` | internal/iouring/pbuf.go:232-234 | each buffer starts where the last one ends, the first at the start of the block and the last up to its end |
| `ProvidedBuffers.ProvidedBufferRing.DescriptorSpan` | internal/iouring/pbuf.go:235-238 | the kernel writes into the very span that a reader of that bid is given |
| `ProvidedBuffers.ProvidedBufferRing.ReleaseView` | internal/iouring/pbuf.go:304-319 | accepts exactly the starts of buffers, and releases the buffer that starts there |
| `ProvidedBuffers.ProvidedBufferRing.Available` | internal/iouring/pbuf.go:324-342 | the count of published and unconsumed descriptors |
| `ProvidedBuffers.ProvidedBufferRing.ReplenishOne` | internal/iouring/pbuf.go:355-384 | does nothing when full, otherwise publishes the bid before the head again |
| `TimingWheel.FiresExactlyOnce` | internal/timingwheel/timingwheel.go:55-118 | in every history of Add and Tick from a new wheel an accepted timer fires once, in the (ttl mod 4096) + 1-th following Tick and in no other, with its own descriptor and callback |
| `TimingWheel.FiresWhenDue` | internal/timingwheel/timingwheel.go:55-77 | a pending timer fires in the Tick that reaches its bucket and in no other |
| `TimingWheel.IdsRepeatOnlyAfterWrap` | internal/timingwheel/timingwheel.go:79-85 | a later identifier equals an earlier one exactly if it names the same node, released a multiple of 2^32 times in between |
| `TimingWheel.IdNamesTheTimer` | internal/timingwheel/timingwheel.go:88-118 | in every history an accepted Add returns the node its timer sits in, with the number of timers fired from that node modulo 2^32; a refused one returns {0xFFFFFFFF, 0}, which names no node |
| `TimingWheel.AcceptsWhen` | internal/timingwheel/timingwheel.go:89-91 | in every history from a wheel of n nodes Add is accepted if and only if ttl > 0 and fewer than n timers are pending |
| `TimingWheel.FreshNodes` | internal/timingwheel/timingwheel.go:44-48 | until the first Tick the nodes are given out from the last one down |
| `TimingWheel.ReusesLastFreed` | internal/timingwheel/timingwheel.go:63-85 | after a Tick the node of the oldest timer it fired is the next one given out |
| `TimingWheel.AddWellFormed` | internal/timingwheel/timingwheel.go:88-118 | Add leaves every node in exactly one place |
| `TimingWheel.TickShape` | internal/timingwheel/timingwheel.go:55-77 | Tick empties one bucket, leaves the others alone and keeps every node in one place |
| `TimingWheel.DrainShape` | internal/timingwheel/timingwheel.go:63-76 | exactly the nodes of the drained bucket are freed, each released once |
| `TimingWheelNodes.CallsMatch` | internal/timingwheel/timingwheel.go:67-71 | each timer that fires makes its call, at the place that its distance from the head says, and there are no others |
| `TimingWheelNodes.CallsCounted` | internal/timingwheel/timingwheel.go:67-71 | a call is made as often as there are due timers with that callback and descriptor |
| `TimingWheelNodes.InsertHolds` | internal/timingwheel/timingwheel.go:104-115 | inserting at the head keeps all forward and back links right |
| `TimingWheelNodes.ReleaseHolds` | internal/timingwheel/timingwheel.go:79-85 | releasing the head keeps the rest of the lists and the free nodes right |
| `TimingWheelNodes.Nodes.constructor` | internal/timingwheel/timingwheel.go:32-52 | empty buckets, all nodes free |
| `TimingWheelNodes.Nodes.Tick` | internal/timingwheel/timingwheel.go:55-77 | walks the list to its end, makes the due callbacks head first, and leaves the nodes holding the wheel after a Tick |
| `TimingWheelNodes.Nodes.ReleaseNode` | internal/timingwheel/timingwheel.go:79-85 | the head's node is free again and its generation one up, modulo 2^32 |
| `TimingWheelNodes.Nodes.InsertHead` | internal/timingwheel/timingwheel.go:104-115 | the node becomes the head; only its links and the old head's back link change |
| `TimingWheelNodes.Nodes.Add` | internal/timingwheel/timingwheel.go:88-118 | the nodes hold the wheel with the timer added, and the identifier is the node's with its generation; it names a node if and only if the Add was accepted |
| `SendAccounting.OneInFlight` | method_send.go:79-90 | queued - finished is at most 1, and so is the number of SENDs between queueing and accounting |
| `SendAccounting.WritersApart` | method_poller.go:109-118 | while the sender compares, continues or starts a send, the poller is idle with nothing in flight; while the poller is at work, the sender is still spinning |
| `SendAccounting.NeverSentMoreThanLen` | method_send.go:101-109 | the continuation's unsigned subtractions never wrap |
| `SendAccounting.NilMeansAllAccepted` | method_send.go:66-94 | when FlushFDSends returns nil or a Send's own wait is over, the accepted counts sum to the length of the previous data and no SEND failed |
| `SendAccounting.NilMeansSent` | method_send.go:66-94 | over a run: when FlushFDSends returns nil the kernel's counts since the last Send add up to the length that Send was called with |
| `SendAccounting.QueuesWhatWasAsked` | method_send.go:24-58 | the data a Send queues is as long as it was called with, and a Send without data changes nothing |
| `SendAccounting.AsksForTheRest` | method_send.go:43 | every SEND, continuations included, asks for all bytes still to go modulo 2^32, from the place its predecessors determine, and is not empty while that fits 32 bits |
| `SendAccounting.FailureSticks` | method_send.go:79-83 | after a failed SEND no wait returns nil again, no new data is queued and the failure is kept |
| `SendAccounting.FailureIsTheKernels` | method_poller.go:111-113 | the error a wait returns is the negated negative answer of the kernel to a SEND of that run |
| `SendAccounting.FailureEndsWait` | method_send.go:79-83 | a wait that finds the error set ends at once with it |
| `SendWaits.WaitEndsWhen` | method_send.go:70-115 | a wait can end well if and only if no SEND has failed and the data is shorter than 2^32 bytes |
| `SendWaits.LongSendHangs` | method_send.go:43 | for every such length: a reachable wait in which nothing has failed and that cannot end well |
| `SendWaits.FailureComesOut` | method_send.go:70-83 | where a SEND has failed, a wait can be run to its end, and ends with the kernel's error |
| `SendWaits.NeverEndsWell` | method_send.go:43 | no wait ends well after a Send of 2^32 bytes or more |
| `SendAccounting.DataInOrderWhen` | method_send.go:96-115 | and then the kernel was given that data in order if and only if at most one SEND fell short |
| `SendAccounting.TwiceShortGoesAstray` | method_send.go:107-109 | three bytes accepted one at a time: nil, and the third came from past the data |
| `SendAccounting.StepBytes` | method_send.go:70-115 | every step keeps the sum of accepted bytes equal to what `len` and `sent` say |
| `SendAccounting.StepPlaces` | method_send.go:96-110 | every step keeps where each SEND of a chain starts and how much it asks for |
| `PriorityQueues.PriorityQueue.Push` | internal/pqueue/pqueue.go:31-55 | refuses exactly when full; otherwise the entries gain that one and stay in heap order |
| `PriorityQueues.PriorityQueue.Pop` | internal/pqueue/pqueue.go:57-104 | returns the payload of an entry of least weight, removes that one entry and keeps the heap order |
| `PriorityQueues.PriorityQueue.RaiseLast` | internal/pqueue/pqueue.go:43-52 | rising ends, restores the heap order and loses no entry |
| `PriorityQueues.PriorityQueue.SinkTop` | internal/pqueue/pqueue.go:70-101 | sinking ends, restores the heap order and loses no entry |
| `PriorityQueues.SiftUp` | internal/pqueue/pqueue.go:44-52 | one swap upwards moves the only violation to the parent |
| `PriorityQueues.Sink` | internal/pqueue/pqueue.go:81-100 | one swap with the lighter child moves the only violation down |
| `PriorityQueues.Family` | internal/pqueue/pqueue.go:106-112 | parent and children indices are inverse to each other |
| `PriorityQueues.PopsAreSorted` | internal/pqueue/pqueue_test.go:31-41 | successive pops come in order of weight, and all of them together are all entries |
| `PriorityQueues.Drain` | internal/pqueue/pqueue_test.go:31-41 | popping until empty yields every entry once, in non-decreasing order of weight |

## Left out

- Weak memory: every shared access is one sequentially consistent step.
- Syscalls, mmap, pointer arithmetic, huge pages, thread locking, logging and `Gosched`: the kernel is a step that reads SQEs in order, answers each once with any result, and picks buffers at its head.
- `Stop`, `drainFallback` and the `stop` exits of `submit` and the loop: the model's channel is never closed.
- The channel's capacity: a send into it never blocks in the model, which covers every capacity because a blocked sender only takes its step later.
- `abortIssuer` and a failing `Wakeup`: wake-ups succeed.
- The Timer and default arms of `dispatch`, and the poller's two reserved user-data ids: no public call reaches them.
- The idle path of `Poll`: only entries that `GetTask` reported ready are dispatched.
- The epoch's 2^63 wrap and a lap of 2^32 pushes between a load and its CAS are excluded from runs (`NoLap`); `LappedCasWins`, `TicketCasWinsWhen` and `BatchCountExactWithinLap` say what happens there.
- SubmissionExit.FallbackEndsWhen: assumes that no counter is about to wrap: the epoch can still grow by the number of goroutines seen so far and two, and no goroutine before its CAS is a lap behind.
- `submit`'s release-buffer branch: `ReleaseView` calls are taken one at a time.
- TaskSlots.Slots.Add: assumes fewer than fallbackMask + 1 overflow entries, as the source's own comment does, and a table that is not overdrawn; `AddFor` covers the overdrawn one.
- CompletionSlots.Dispatches: a dispatch is one step of the completion path, taken when the entry is published; the table counts the index as live from Add on, which nobody but the ticket holder can tell.
- EndToEndWakeUp.NoLostWakeUp: says that the wake-up stays possible without any worker's help; with workers that go on submitting, that a given task gets its turn is fairness, which is not modelled.
- Freeing the slots of operations other than sends: `Poll` never does, and the model follows it.
- `cell.err`, which no modelled path writes, and the worker's checks of res and flags after it has read them.
- TimingWheelNodes.Nodes.Add: callbacks are values that Tick reports as made; a callback that re-enters the wheel is not modelled, and at most 2^32 - 1 nodes are assumed.
- ProvidedBuffers.ProvidedBufferRing.ReplenishOne: the status call succeeds and reports a head whose low 16 bits are the true ones; `Unregister` is not modelled.
- SendAccounting.OneInFlight: one sender per descriptor; the counters `queued` and `finished` do not reach 2^64.
- The `Expect*` builders, options, sockets, `Accept`, `Connect`, `Close`, the echo programs and the test protocol: each would only add easy members.
