# Verification of the MRF device support

This project models the parts of the device support for MRF timing hardware in which
several activities meet: the scheduler that makes masked register writes atomic, the
UDP/IP client that turns an unreliable network into reliable register access, the
records that keep a device and a database in step, the JTAG driver, and the generator
of cache-preheating code. Each part consists of a value-level description, an
imperative counterpart in the form of the source (classes with fields that are updated
in place, loops over containers), and theorems about whole runs.

| files | what they model |
|---|---|
| `Common`, `Memory`, `Words` | options, powers of two, big-endian device memory, 32-bit words as bits |
| `Operations`, `ConsistentAccess`, `Linearizability` | the scheduler of `MrfConsistentAsynchronousMemoryAccess`: its relations, its class, and every interleaving of submissions, delegate effects and callbacks |
| `BitFields` | record masks, masked writes as updates, concurrent writes to bit fields of one register |
| `UdpArithmetic`, `UdpState`, `UdpContainers` | the UDP client: wrapping references, timeouts, the state and every critical section as a function on it, its ordered containers |
| `UdpInvariants`, `UdpSending`, `UdpReceiving`, `UdpRuns` | what every reachable state satisfies, and whole runs |
| `UdpDeadlines`, `UdpCallbacks`, `UdpCongestion` | head-only checking, conservation of callbacks, congestion control |
| `UdpRefusedSend`, `UdpOverlooked` | what EAGAIN on a retransmission costs in every run: replies that are ignored, deadlines that are overlooked |
| `UdpReordering`, `UdpDropped` | the reordering window and the dropping of settled requests, in every run |
| `UdpExamples`, `UdpTimingExamples` | runs in which a property fails |
| `UdpClient` | the client as an object; every method is proved equal to its function on the state |
| `UdpIpMemoryAccess`, `RegisterTransfer`, `SecondWrite` | 32-bit registers over 16-bit words, and end to end against a device |
| `TapController`, `JtagDriver`, `JtagScans` | the IEEE 1149.1 TAP controller and scan chain, the bit-banging driver, and what its scans do |
| `InterruptRecord`, `InterruptWakeup`, `InterruptJoining` | the bounded interrupt queue, and its wakeups under every interleaving |
| `WaveformOut`, `WaveformCycle` | the changed-elements-only write cache, and its cycles together with the device |
| `FineDelay`, `FineDelayTransfer` | the 51-step transfer into the fine-delay shift register |
| `PreheatCodegen` | the code generator, and the meaning of what it generates |

Run `dafny verify dfyconfig.toml` in this directory.

## How to read it

The UDP client, the interrupt record, the waveform record and the fine-delay record keep
their state in fields; `State()` (or `S()`) is the value that the fields stand for, and
each method ensures that the new value is a function of the old one. What the source
promises is then proved about these functions. A block of code that holds a mutex is one
step. The clock, the socket, the device and the order of callbacks are parameters of the
steps, so the theorems hold for all of them. Fields marked as history are never read by
the modelled code.

Where the code and its own comments disagree, the model follows the code:

* The comment on `reorderingWindowMultiplier` speaks of an upper limit, but the code takes
  the maximum with four (`MrfUdpIpClient.cpp:868-877`): it exceeds four from the second
  spurious retransmission on (`UdpReordering.ExceedsFourAfterTwo`,
  `UdpTimingExamples.MultiplierExceedsFour`).
* The comment in `checkSentRequests` says that a request that has timed out is kept until
  its retransmission timeout; the code drops it once everything in flight before it leaves
  (`UdpDropped.SettledIsDropped`, `UdpTimingExamples.DroppedBeforeTimeout`).
* `SDR` is documented to end in Exit1 or Run-Test/Idle; with neither data nor trailer it
  stays in Shift-DR (`JtagScans.DataScanShifts`).
* A request whose retransmission gets EAGAIN is not simply tried again later
  (`UdpRefusedSend.WriteCompletesUnlessRefused`, `UdpExamples.RefusedWriteIsSentAsNew`),
  and after it the set of watched requests need not be in the order of its deadlines
  (`UdpOverlooked.OverlookedBehindRestarted`, `UdpExamples.RestartedHidesDeadline`).
* The comment in `getInterruptInfo` relies on the scan that it requests; EPICS adds the
  record to the scan list only afterwards, so the scan can miss it
  (`InterruptJoining.LostExactlySinceMissedScan`, `InterruptJoining.WakeupCanBeLost`).
* The generated preheating code is meant to end; a loop up to the end of the address space
  does not (`PreheatCodegen.Generate`, `PreheatCodegen.LastRegistersNeverEnd`).
* `removeRequest` is documented to remove the request from its sets; with equal times and
  a search that returns a later equal element it does not
  (`UdpInvariants.RemoveFromEveryEqual`, `UdpExamples.SearchMayPassRequest`).

## Model

| member | source | states |
|---|---|---|
| `Memory.LoadAfterStore` | simulator/mrfsim/__init__.py:159-195 | a register reads back the bytes stored in it, in the big-endian layout of the simulator; the address space wraps |
| `Memory.StoreFrame` | simulator/mrfsim/__init__.py:252-288 | a store changes no byte outside its register |
| `Operations.AdmittedKeepsConsistent` | mrfApp/mrfCommonSrc/MrfConsistentAsynchronousMemoryAccess.cpp:45-76 | admitting an operation keeps running operations disjoint, ids unique, and every waiting operation blocked by a running one |
| `Operations.FinishedKeepsConsistent` | mrfApp/mrfCommonSrc/MrfConsistentAsynchronousMemoryAccess.cpp:370-399 | so does finishing one and restarting the operations that it blocked |
| `Operations.FinishedShrinksWork` | mrfApp/mrfCommonSrc/MrfConsistentAsynchronousMemoryAccess.cpp:370-399 | a finish takes exactly one operation off running plus waiting; none is lost or duplicated |
| `Operations.NothingWaitsWhenIdle` | mrfApp/mrfCommonSrc/MrfConsistentAsynchronousMemoryAccess.cpp:200-222 | nothing waits when nothing runs |
| `ConsistentAccess.Scheduler.InsertOperationInfo` | mrfApp/mrfCommonSrc/MrfConsistentAsynchronousMemoryAccess.cpp:173-181 | a pending operation is filed once under each of its bytes |
| `ConsistentAccess.Scheduler.RemoveOperationInfo` | mrfApp/mrfCommonSrc/MrfConsistentAsynchronousMemoryAccess.cpp:183-198 | the filing loop is undone: exactly the entries of the operation disappear from the multimap |
| `ConsistentAccess.Scheduler.CanRunOperation` | mrfApp/mrfCommonSrc/MrfConsistentAsynchronousMemoryAccess.cpp:338-350 | the byte loop decides exactly whether the operation overlaps a running one |
| `ConsistentAccess.Scheduler.MarkRunOperation` | mrfApp/mrfCommonSrc/MrfConsistentAsynchronousMemoryAccess.cpp:352-359 | the running set becomes exactly the union of the bytes of the running operations |
| `ConsistentAccess.Scheduler.UnmarkRunOperation` | mrfApp/mrfCommonSrc/MrfConsistentAsynchronousMemoryAccess.cpp:361-368 | and stays that when an operation leaves |
| `ConsistentAccess.Scheduler.PrepareNextOperations` | mrfApp/mrfCommonSrc/MrfConsistentAsynchronousMemoryAccess.cpp:200-222 | the byte loops restart exactly pending operations that overlap the finished one, each once, until every remaining one is blocked again |
| `ConsistentAccess.Scheduler.WriteUInt16` | mrfApp/mrfCommonSrc/MrfConsistentAsynchronousMemoryAccess.cpp:45-76 | submission: the callback map gets one entry, and the operation starts if and only if it overlaps no running one |
| `ConsistentAccess.Scheduler.WriteUInt32` | mrfApp/mrfCommonSrc/MrfConsistentAsynchronousMemoryAccess.cpp:78-109 | the same for 32 bits |
| `ConsistentAccess.Scheduler.UpdateUInt16` | mrfApp/mrfCommonSrc/MrfConsistentAsynchronousMemoryAccess.cpp:111-140 | the same for an update |
| `ConsistentAccess.Scheduler.UpdateUInt32` | mrfApp/mrfCommonSrc/MrfConsistentAsynchronousMemoryAccess.cpp:142-171 | the same for a 32-bit update |
| `ConsistentAccess.Scheduler.RunOperation` | mrfApp/mrfCommonSrc/MrfConsistentAsynchronousMemoryAccess.cpp:224-336 | the delegate call is the one for the request that was submitted; if the delegate throws, the operation has failed and the blocked ones are restarted |
| `ConsistentAccess.Scheduler.OperationFinished` | mrfApp/mrfCommonSrc/MrfConsistentAsynchronousMemoryAccess.cpp:370-399 | finishing erases the callback from the one map that holds it, frees the bytes and restarts blocked operations |
| `ConsistentAccess.Scheduler.UpdateSuccess16` | mrfApp/mrfCommonSrc/MrfConsistentAsynchronousMemoryAccess.h:431-463 | the first success of an update leads to the write of the updated value, or ends the operation if the update function or the write throws; the second one ends it |
| `ConsistentAccess.Scheduler.UpdateSuccess32` | mrfApp/mrfCommonSrc/MrfConsistentAsynchronousMemoryAccess.h:431-463 | the same for 32 bits |
| `Linearizability.Linearizable` | mrfApp/mrfCommonSrc/MrfConsistentAsynchronousMemoryAccess.cpp:45-171 | in every state of every run the device memory equals applying the operations that took effect atomically, one at a time, in the order of their writes |
| `Linearizability.EachAppliedToPreviousValue` | mrfApp/mrfCommonSrc/MrfConsistentAsynchronousMemoryAccess.h:431-463 | in every run, whatever steps lie between the reply to the read of an update and its write: the value that the update function was applied to is the one that the register holds just before that write, and the result is what the write leaves there |
| `Linearizability.UpdateReadsFirst` | mrfApp/mrfCommonSrc/MrfConsistentAsynchronousMemoryAccess.h:431-463 | no update is written without such a reply before |
| `Linearizability.HistoryGrows` | mrfApp/mrfCommonSrc/MrfConsistentAsynchronousMemoryAccess.cpp:45-171 | the order of effects is only ever extended |
| `Linearizability.RealTimeOrder` | mrfApp/mrfCommonSrc/MrfConsistentAsynchronousMemoryAccess.cpp:45-171 | an operation that succeeded before another was submitted takes effect before it |
| `Linearizability.NoStuckOperation` | mrfApp/mrfCommonSrc/MrfConsistentAsynchronousMemoryAccess.cpp:200-222 | every waiting operation overlaps a running one; when nothing runs, every operation was started exactly once and has ended |
| `Linearizability.WorkShrinks` | mrfApp/mrfCommonSrc/MrfConsistentAsynchronousMemoryAccess.cpp:370-399 | once submissions stop, each finish strictly shrinks running plus waiting |
| `RecordFields.BuildMask` | mrfApp/mrfEpicsSrc/MrfRecord.h:213-222 | whatever the mask holds at first, the loop yields exactly the bits from lowest to highest |
| `RecordFields.FieldReadsBack` | mrfApp/mrfEpicsSrc/MrfRecord.h:236-248 | a register reads back as the written value modulo the field width if and only if the field holds what was written |
| `MaskedBytes.MergeBit` | mrfApp/mrfCommonSrc/MrfConsistentMemoryAccess.cpp:67-69 | a masked write takes the masked bits from the value and the others from the register |
| `BitFields.FieldEffect` | mrfApp/mrfCommonSrc/MrfConsistentMemoryAccess.cpp:125-141 | the update that stands for a masked write does that to every bit of the big-endian register |
| `BitFields.LastWriterWins` | mrfApp/mrfCommonSrc/MrfConsistentMemoryAccess.cpp:67-69 | after any sequence of writes to one register, also with overlapping masks, each bit is that of the last write that covers it, or what it was before |
| `BitFields.FieldsAfterReplay` | mrfApp/mrfCommonSrc/MrfConsistentMemoryAccess.cpp:67-69 | a sequence of masked writes with disjoint masks leaves each field as its writer wanted it, in any order |
| `BitFields.DisjointFieldsKeepUpdates` | mrfApp/mrfCommonSrc/MrfConsistentMemoryAccess.cpp:67-69 | concurrent masked writes to disjoint fields never lose an update, in any interleaving, and change no other bit |
| `BitFields.RecordReadsBackUnlessOverwritten` | mrfApp/mrfEpicsSrc/MrfOutputRecord.h:174-206 | whatever else is written to its register concurrently, with overlapping fields and by records that zero the other bits: a record whose write has succeeded reads back its value if and only if the last write of each of its bits agrees with it |
| `BitFields.ConcurrentRecordsReadBack` | mrfApp/mrfEpicsSrc/MrfOutputRecord.h:174-206 | so every one of several records with disjoint fields of one register reads back its own value |
| `UdpArithmetic.NextRefCounts` | mrfApp/mrfUdpIpSrc/MrfUdpIpClient.cpp:682-683 | the next reference is the send counter plus one, wrapped |
| `UdpArithmetic.RefOrderIsSendOrder` | mrfApp/mrfUdpIpSrc/MrfUdpIpClient.cpp:60-71 | within 2^31-2 sends the comparison of wrapped references is "not older" on the send counter |
| `UdpArithmetic.RefOrderExactRange` | mrfApp/mrfUdpIpSrc/MrfUdpIpClient.cpp:60-71 | the exact range of distances in which it is |
| `UdpArithmetic.BackoffKeepsPowerOfTwo` | mrfApp/mrfUdpIpSrc/MrfUdpIpClient.cpp:443-446 | the backoff multiplier stays a power of two and sticks at 2^30, where doubling wraps |
| `UdpArithmetic.GuardedProductFits` | mrfApp/mrfUdpIpSrc/MrfUdpIpClient.cpp:649-659 | the product behind the guard never overflows |
| `UdpArithmetic.RtoWithinLimits` | mrfApp/mrfUdpIpSrc/MrfUdpIpClient.cpp:621-660 | the timeout lies between the lower limit and 60 s for all estimates if and only if a tenth of the request timeout is at most 60 s |
| `UdpArithmetic.RtoIsProductWithinLimits` | mrfApp/mrfUdpIpSrc/MrfUdpIpClient.cpp:649-659 | the overflow guard does not change the result: it is the product, limited |
| `UdpArithmetic.EstimateWithinSamples` | mrfApp/mrfUdpIpSrc/MrfUdpIpClient.cpp:1190-1221 | for non-negative samples SRTT stays between the smallest and the largest, and RTTVAR between zero and the largest |
| `UdpContainers.EraseIsWithout` | mrfApp/mrfUdpIpSrc/MrfUdpIpClient.cpp:588-618 | in an ordered set the removal loop finds every occurrence although it starts at the first equal key |
| `UdpContainers.EraseTakesOnly` | mrfApp/mrfUdpIpSrc/MrfUdpIpClient.cpp:588-618 | it takes out nothing else, in whatever order the set is |
| `UdpContainers.EraseFromFinds` | mrfApp/mrfUdpIpSrc/MrfUdpIpClient.cpp:588-618 | the search may return any of several equal elements; the removal finds every occurrence of the request exactly if none is before the one returned, and takes out nothing else |
| `UdpContainers.InsertKeepsSorted` | mrfApp/mrfUdpIpSrc/MrfUdpIpClient.cpp:382-385 | inserting keeps the order even if the hint is wrong |
| `UdpContainers.InsertAppends` | mrfApp/mrfUdpIpSrc/MrfUdpIpClient.cpp:692-693 | the hint is right if nothing in the set is later |
| `UdpInvariants.InitialInv` | mrfApp/mrfUdpIpSrc/MrfUdpIpClient.h:349-567 | the initial state satisfies the invariant: each live request in exactly one queue, containers in order, index and send times agreeing |
| `UdpInvariants.QueueKeepsInv` | mrfApp/mrfUdpIpSrc/MrfUdpIpClient.cpp:542-572 | queuing keeps it |
| `UdpInvariants.ExpireQueuedKeepsInv` | mrfApp/mrfUdpIpSrc/MrfUdpIpClient.cpp:233-264 | queue timeouts keep it |
| `UdpInvariants.ExpireSentKeepsInv` | mrfApp/mrfUdpIpSrc/MrfUdpIpClient.cpp:276-342 | request timeouts keep it, also when they reset the estimates |
| `UdpInvariants.RemoveLeavesNoTrace` | mrfApp/mrfUdpIpSrc/MrfUdpIpClient.cpp:574-619 | with searches that return the first of several equal elements, removeRequest leaves no trace of the request in any set of sent requests or in the index, and touches no other |
| `UdpInvariants.RemoveFromAnyEqual` | mrfApp/mrfUdpIpSrc/MrfUdpIpClient.cpp:574-619 | for searches that return any equal elements: the request is gone from all sets if and only if none of the returned elements comes after it |
| `UdpInvariants.RemoveFromEveryEqual` | mrfApp/mrfUdpIpSrc/MrfUdpIpClient.cpp:574-619 | removeRequest works for every choice of the searches if and only if the request is the last of the equal elements in each set |
| `UdpExamples.SearchMayPassRequest` | mrfApp/mrfUdpIpSrc/MrfUdpIpClient.cpp:588-618 | a run in which two writes are sent at the same time and a permitted search leaves the removed one in both sets |
| `UdpInvariants.LossKeepsInv` | mrfApp/mrfUdpIpSrc/MrfUdpIpClient.cpp:457-540 | the bookkeeping of a loss keeps it |
| `UdpInvariants.DetectKeepsInv` | mrfApp/mrfUdpIpSrc/MrfUdpIpClient.cpp:351-446 | the loss detection loop keeps it |
| `UdpInvariants.CheckKeepsInv` | mrfApp/mrfUdpIpSrc/MrfUdpIpClient.cpp:222-448 | checkSentRequests keeps it |
| `UdpSending.NextRefUnused` | mrfApp/mrfUdpIpSrc/MrfUdpIpClient.cpp:662-664 | the next reference is free while fewer than 2^31 packets are outstanding |
| `UdpSending.SendLaunches` | mrfApp/mrfUdpIpSrc/MrfUdpIpClient.cpp:682-710 | a successful send appends to each ordered set and adds one index entry |
| `UdpSending.RetransmitKeepsInv` | mrfApp/mrfUdpIpSrc/MrfUdpIpClient.cpp:1006-1041 | sending again keeps the invariant |
| `UdpSending.SendNewKeepsInv` | mrfApp/mrfUdpIpSrc/MrfUdpIpClient.cpp:1042-1107 | sending a new request keeps it, also offline and after EAGAIN |
| `UdpSending.FailNewKeepsInv` | mrfApp/mrfUdpIpSrc/MrfUdpIpClient.cpp:1108-1119 | failing a request offline keeps it |
| `UdpSending.IterationKeepsInv` | mrfApp/mrfUdpIpSrc/MrfUdpIpClient.cpp:979-1120 | a whole iteration of the send thread keeps it unless a retransmission gets EAGAIN |
| `UdpReceiving.RecordKeepsNewest` | mrfApp/mrfUdpIpSrc/MrfUdpIpClient.cpp:839-862 | lastReceivedRef stays the newest answered send since the last reset |
| `UdpReceiving.ReceiveKeepsInv` | mrfApp/mrfUdpIpSrc/MrfUdpIpClient.cpp:760-927 | a received packet keeps the invariant |
| `UdpDeadlines.LaterResponseMeansLaterSend` | mrfApp/mrfUdpIpSrc/MrfUdpIpClient.cpp:361-364 | on every packet in flight the comparison of references tells whether a later packet has been answered |
| `UdpDeadlines.CheckIsComplete` | mrfApp/mrfUdpIpSrc/MrfUdpIpClient.cpp:222-448 | although only heads are inspected, after a check no queue, request or loss deadline has passed for any request; the wake-up time is later than now, no later than any remaining deadline, a deadline itself, and zero only if none is left |
| `UdpCallbacks.CallbackInOnePlace` | mrfApp/mrfUdpIpSrc/MrfUdpIpClient.cpp:909-938 | each callback has been called once, or is about to be because of a timeout, or is with a request that is watched for a timeout; only one of these |
| `UdpCallbacks.CheckKeepsCallbacks` | mrfApp/mrfUdpIpSrc/MrfUdpIpClient.cpp:233-342 | timeouts and removals neither lose nor duplicate a callback |
| `UdpCallbacks.IterationKeepsCallbacks` | mrfApp/mrfUdpIpSrc/MrfUdpIpClient.cpp:979-1148 | nor does an iteration of the send thread, whatever the socket says and also offline |
| `UdpCallbacks.ReceiveKeepsCallbacks` | mrfApp/mrfUdpIpSrc/MrfUdpIpClient.cpp:909-938 | nor does a packet, also a duplicate or unknown one |
| `UdpCongestion.LossOfPacket` | mrfApp/mrfUdpIpSrc/MrfUdpIpClient.cpp:457-540 | the third adjacent loss resets the window to one and flags every packet in flight; any other loss takes one off; a flagged request changes nothing |
| `UdpCongestion.ResetFlagsAll` | mrfApp/mrfUdpIpSrc/MrfUdpIpClient.cpp:522-535 | the loss that resets the window in the middle of a check takes it to one and flags every packet in flight, the lost one included |
| `UdpCongestion.FlaggedLossIsIgnored` | mrfApp/mrfUdpIpSrc/MrfUdpIpClient.cpp:463-465 | the loss of a flagged packet changes nothing, at whatever point of a check it is detected |
| `UdpCongestion.SendsWithinWindow` | mrfApp/mrfUdpIpSrc/MrfUdpIpClient.cpp:1003-1107 | a packet is sent only while fewer are in flight than the window allows |
| `UdpCongestion.IterationKeepsCongestion` | mrfApp/mrfUdpIpSrc/MrfUdpIpClient.cpp:979-1120 | window at least 1, threshold at least 2, loss count below 3 after every iteration |
| `UdpCongestion.ReceiveKeepsCongestion` | mrfApp/mrfUdpIpSrc/MrfUdpIpClient.cpp:774-816 | the same after every packet; a reply to a flagged request leaves the window alone |
| `UdpCongestion.GrowKeepsCongestion` | mrfApp/mrfUdpIpSrc/MrfUdpIpClient.cpp:774-816 | a reply opens the window by at most one |
| `UdpCongestion.EarlyLossNeedsNewerAnswer` | mrfApp/mrfUdpIpSrc/MrfUdpIpClient.cpp:361-412 | an early loss is declared only if a packet sent strictly later has been answered |
| `UdpCongestion.WriteSucceedsOnLastPacket` | mrfApp/mrfUdpIpSrc/MrfUdpIpClient.cpp:909-922 | a write succeeds exactly on the reply to the packet sent last for it |
| `UdpRuns.EveryRunKeepsCallbacks` | mrfApp/mrfUdpIpSrc/MrfUdpIpClient.cpp:713-1188 | in every run, with EAGAIN at any time, callbacks are conserved and the window and backoff stay in range |
| `UdpRuns.SmoothRunKeepsInv` | mrfApp/mrfUdpIpSrc/MrfUdpIpClient.cpp:713-1188 | in every run without EAGAIN for a retransmission and with fewer than 2^31 packets outstanding, the invariant holds |
| `UdpRuns.NothingOverdueInRuns` | mrfApp/mrfUdpIpSrc/MrfUdpIpClient.cpp:222-448 | no deadline is overlooked at any point of such a run |
| `UdpRuns.OverdueIsDelivered` | mrfApp/mrfUdpIpSrc/MrfUdpIpClient.cpp:979-1148 | after an iteration at a time now every callback has been called, or is with a request whose queue timeout (if enabled) or request timeout is later than now |
| `UdpRuns.EstimateIsMeasured` | mrfApp/mrfUdpIpSrc/MrfUdpIpClient.cpp:1190-1221 | in every run the estimate is the one made by the round-trip times measured since the last reset, in order |
| `UdpRuns.EstimateWithinSamplesInRuns` | mrfApp/mrfUdpIpSrc/MrfUdpIpClient.cpp:1190-1221 | so in every run SRTT is between the smallest and the largest of them, and RTTVAR between zero and the largest, if none is negative |
| `UdpRuns.ResetOutlastsRuns` | mrfApp/mrfUdpIpSrc/MrfUdpIpClient.cpp:457-540 | after a third adjacent loss in any check of a run has reset the window to one: until a request with a packet then in flight is sent again, neither a reply to it nor its loss, at whatever point of a later check, changes the congestion control, however long the run |
| `UdpOverlooked.CheckOverlooksHidden` | mrfApp/mrfUdpIpSrc/MrfUdpIpClient.cpp:276-342 | a check overlooks the passed deadline of a request that is still to be reported if and only if a request watched before it has its deadline ahead |
| `UdpOverlooked.RunKeepsWatch` | mrfApp/mrfUdpIpSrc/MrfUdpIpClient.cpp:687-694 | in every run, with EAGAIN at any time, only requests whose timeout has started over are watched before older ones |
| `UdpOverlooked.OverlookedInRuns` | mrfApp/mrfUdpIpSrc/MrfUdpIpClient.cpp:276-342 | so at any point of every run a check at a given time overlooks exactly the requests that are hidden in this way |
| `UdpOverlooked.OverlookedBehindRestarted` | mrfApp/mrfUdpIpSrc/MrfUdpIpClient.cpp:276-342 | in every run there is a time at which the deadline of a request would be overlooked if and only if a restarted request is watched before it and it is the older one |
| `UdpExamples.RestartedHidesDeadline` | mrfApp/mrfUdpIpSrc/MrfUdpIpClient.cpp:662-694 | a run from the start with the watched requests 0, 1, 0, in which the deadline of request 1 passes without notice for 2.5 s |
| `UdpDropped.RunKeepsOnce` | mrfApp/mrfUdpIpSrc/MrfUdpIpClient.cpp:382-425 | in every run, with EAGAIN at any time, a sent request is in one of the two sets, once |
| `UdpDropped.SettledIsDropped` | mrfApp/mrfUdpIpSrc/MrfUdpIpClient.cpp:365-381 | in every run a check drops a request in flight that has timed out or succeeded unless a request before it has neither settled nor lost its packet; its own deadlines play no part |
| `UdpTimingExamples.DroppedBeforeTimeout` | mrfApp/mrfUdpIpSrc/MrfUdpIpClient.cpp:365-381 | a run in which a request is dropped after its request timeout of 50 ms and before its retransmission timeout of 100 ms |
| `UdpReordering.HistoryCounts` | mrfApp/mrfUdpIpSrc/MrfUdpIpClient.cpp:839-894 | in every run the multiplier of the reordering window and its reset counter follow from how many spurious retransmissions are remembered and how many retransmissions were answered since |
| `UdpReordering.ExceedsFourAfterTwo` | mrfApp/mrfUdpIpSrc/MrfUdpIpClient.cpp:868-877 | in every run the multiplier exceeds four if and only if at least two spurious retransmissions are remembered; it is three more than their number |
| `UdpTimingExamples.MultiplierExceedsFour` | mrfApp/mrfUdpIpSrc/MrfUdpIpClient.cpp:868-877 | a run in which a write is sent four times and three replies make the multiplier five |
| `UdpRefusedSend.SendKeepsInvUnlessRefused` | mrfApp/mrfUdpIpSrc/MrfUdpIpClient.cpp:662-676 | a send step keeps the internal invariant if and only if it is not a retransmission that gets EAGAIN; the next rows say what that means for the user |
| `UdpRefusedSend.WriteCompletesUnlessRefused` | mrfApp/mrfUdpIpSrc/MrfUdpIpClient.cpp:662-676 | in every run, with EAGAIN at any time: the reply to the packet sent last for a write completes it if and only if no packet for it was refused since |
| `UdpRefusedSend.StartsOverWithoutReplies` | mrfApp/mrfUdpIpSrc/MrfUdpIpClient.cpp:687-694 | a retransmission that goes out is watched once more and starts its timeout over if and only if its request waits for no reply |
| `UdpRefusedSend.StartsOverOnlyAfterRefusal` | mrfApp/mrfUdpIpSrc/MrfUdpIpClient.cpp:687-694 | in every run that happens only after a packet for the request was refused; if its callback is still there, it is then watched at least twice |
| `UdpExamples.RefusedWriteIsSentAsNew` | mrfApp/mrfUdpIpSrc/MrfUdpIpClient.cpp:662-694 | a run from the start in which it happens: the reply to a write is not taken as its success, and the write is watched twice with its timeout started over |
| `UdpClient.MrfUdpIpClient.constructor` | mrfApp/mrfUdpIpSrc/MrfUdpIpClient.h:349-567 | the object starts in the initial state |
| `UdpClient.CreateClient` | mrfApp/mrfUdpIpSrc/MrfUdpIpClient.cpp:99-114 | there is a client exactly if the queue timeout is not negative and the request timeout is positive |
| `UdpClient.MrfUdpIpClient.QueueReadRequest` | mrfApp/mrfUdpIpSrc/MrfUdpIpClient.cpp:542-556 | appends one idempotent request with its callback to the queue and changes nothing else |
| `UdpClient.MrfUdpIpClient.QueueWriteRequest` | mrfApp/mrfUdpIpSrc/MrfUdpIpClient.cpp:558-572 | appends one request that is not idempotent, with its callback, and changes nothing else |
| `UdpClient.MrfUdpIpClient.Erase` | mrfApp/mrfUdpIpSrc/MrfUdpIpClient.cpp:588-596 | with the first equal element found, the loop erases every occurrence of the request that the order lets it find |
| `UdpClient.MrfUdpIpClient.EraseFrom` | mrfApp/mrfUdpIpSrc/MrfUdpIpClient.cpp:588-596 | from whichever equal element on, the iterator loop erases exactly the occurrences of the request at or after it |
| `UdpClient.MrfUdpIpClient.RemoveRequest` | mrfApp/mrfUdpIpSrc/MrfUdpIpClient.cpp:574-619 | the loops over references and sets remove exactly what the function on the state removes |
| `UdpClient.MrfUdpIpClient.PacketLossDetected` | mrfApp/mrfUdpIpSrc/MrfUdpIpClient.cpp:457-540 | updates window, threshold and counters in place as the function on the state says, and flags the packets in flight |
| `UdpClient.MrfUdpIpClient.CheckSentRequests` | mrfApp/mrfUdpIpSrc/MrfUdpIpClient.cpp:222-448 | the three loops compute the function whose completeness is proved, state and wake-up time |
| `UdpClient.MrfUdpIpClient.TrySendRequest` | mrfApp/mrfUdpIpSrc/MrfUdpIpClient.cpp:662-711 | updates request, index and sets in place as the function on the state says |
| `UdpClient.MrfUdpIpClient.SendIteration` | mrfApp/mrfUdpIpSrc/MrfUdpIpClient.cpp:979-1148 | one iteration of the send thread, with the callbacks that it calls |
| `UdpClient.MrfUdpIpClient.UpdateRoundTripTime` | mrfApp/mrfUdpIpSrc/MrfUdpIpClient.cpp:1190-1221 | the estimate in place becomes the one that `UdpArithmetic.EstimateWithinSamples` bounds, also for the first sample |
| `UdpClient.MrfUdpIpClient.ReceivePacket` | mrfApp/mrfUdpIpSrc/MrfUdpIpClient.cpp:746-938 | one iteration of the receive thread for a packet |
| `UdpIpMemoryAccess.UInt32ReadShared.ReceivedLow` | mrfApp/mrfUdpIpSrc/MrfUdpIpMemoryAccess.cpp:132-164 | only the first low word counts, and none after a failure; a high word that came before it is discarded and requested again |
| `UdpIpMemoryAccess.UInt32ReadShared.ReceivedHigh` | mrfApp/mrfUdpIpSrc/MrfUdpIpMemoryAccess.cpp:166-190 | a high word completes the read if and only if a low word came before it |
| `UdpIpMemoryAccess.UInt32ReadShared.Failed` | mrfApp/mrfUdpIpSrc/MrfUdpIpMemoryAccess.cpp:192-212 | reports a failure once, and not after the read has completed |
| `UdpIpMemoryAccess.UInt32ReadShared.Callback` | mrfApp/mrfUdpIpSrc/MrfUdpIpMemoryAccess.cpp:218-253 | a reply with an exception or a status other than zero is a failure, any other a word for its half |
| `UdpIpMemoryAccess.ReaderActsAsExpected` | mrfApp/mrfUdpIpSrc/MrfUdpIpMemoryAccess.cpp:132-212 | for any list of replies the reader acts as a description in terms of the first failure, the first low word and the first high word after it says; the uninitialized data never shows |
| `UdpIpMemoryAccess.ReportsOnce` | mrfApp/mrfUdpIpSrc/MrfUdpIpMemoryAccess.cpp:132-212 | at most one result; the high word is requested again at most once |
| `UdpIpMemoryAccess.SuccessIsHighAfterLow` | mrfApp/mrfUdpIpSrc/MrfUdpIpMemoryAccess.cpp:132-190 | a value is reported if and only if the first high word after the first low word arrives before any failure, and it is those two words |
| `RegisterTransfer.CompletedWriteIsReadBack` | mrfApp/mrfUdpIpSrc/MrfUdpIpMemoryAccess.cpp:337-385 | a completed write followed by a read returns the value, and the device holds it big-endian, with requests carried out any number of times and replies in any order |
| `RegisterTransfer.LowFollowsHigh` | mrfApp/mrfUdpIpSrc/MrfUdpIpMemoryAccess.cpp:290-321 | the low word is on its way only after the device confirmed the high word |
| `RegisterTransfer.RunKeepsInv` | simulator/mrfsim/__init__.py:101-120 | replies with status zero tell the truth about the device in every run |
| `SecondWrite.FirstWriteCompletes` | mrfApp/mrfUdpIpSrc/MrfUdpIpMemoryAccess.cpp:337-385 | a second write begins in the state of the device in which a completed first one has left it |
| `SecondWrite.SecondWriteIsReadBack` | mrfApp/mrfUdpIpSrc/MrfUdpIpMemoryAccess.cpp:337-385 | with requests of the first write carried out late, at any time and any number of times: when a second write has completed, the register holds its value if and only if no late request was the last to store a word that differs; a read reports it if and only if neither half was so when the device answered |
| `SecondWrite.LateRequestUndoes` | mrfApp/mrfUdpIpSrc/MrfUdpIpMemoryAccess.cpp:290-321 | a run in which the second write completes and a late request of the first one undoes it |
| `TapController.ShiftingIsAQueue` | support/mrf-pci-dkms-0.1.20250218/mrf-pci-0.1.20250218/jtag.c:206-216 | clocking bits in the shift state pushes out the old bits in order; the last bit is shifted while the state is left |
| `JtagDriver.BitsOfSigned` | support/mrf-pci-dkms-0.1.20250218/mrf-pci-0.1.20250218/jtag.c:351-358 | the stored byte holds the bits that came out, lowest first |
| `JtagDriver.Gpio.PulseTck` | support/mrf-pci-dkms-0.1.20250218/mrf-pci-0.1.20250218/jtag.c:84-95 | exactly n rising edges of TCK, which ends low |
| `JtagDriver.Gpio.Tlr` | support/mrf-pci-dkms-0.1.20250218/mrf-pci-0.1.20250218/jtag.c:97-108 | reaches Test-Logic-Reset from every state of the TAP controller |
| `JtagDriver.Gpio.TlrToRti` | support/mrf-pci-dkms-0.1.20250218/mrf-pci-0.1.20250218/jtag.c:110-121 | one clock with TMS low |
| `JtagDriver.Gpio.TlrToSir` | support/mrf-pci-dkms-0.1.20250218/mrf-pci-0.1.20250218/jtag.c:123-137 | clocks the TMS sequence to Shift-IR; with TCK high at the call, the longer one that writing back TCK makes of it |
| `JtagDriver.Gpio.TlrToSdr` | support/mrf-pci-dkms-0.1.20250218/mrf-pci-0.1.20250218/jtag.c:139-153 | clocks the TMS sequence to Shift-DR; with TCK high at the call, the longer one that writing back TCK makes of it |
| `JtagDriver.Gpio.Ex1ToRti` | support/mrf-pci-dkms-0.1.20250218/mrf-pci-0.1.20250218/jtag.c:168-179 | clocks the TMS sequence from Exit1 to Run-Test/Idle |
| `JtagDriver.Gpio.Sdi` | support/mrf-pci-dkms-0.1.20250218/mrf-pci-0.1.20250218/jtag.c:181-224 | from low TCK and TMS, clocks exactly the low n bits of the number and collects the n bits that come out in the high bits of a signed 32-bit integer; refuses lengths outside 1 to 32 and then touches nothing |
| `JtagDriver.Gpio.Sir` | support/mrf-pci-dkms-0.1.20250218/mrf-pci-0.1.20250218/jtag.c:300-326 | the whole instruction scan, or the range error with nothing touched |
| `JtagDriver.Gpio.Sdr` | support/mrf-pci-dkms-0.1.20250218/mrf-pci-0.1.20250218/jtag.c:328-368 | the whole data scan, also with input and output in one buffer and without an output, or the range error with nothing touched |
| `JtagDriver.FiveOnesReset` | support/mrf-pci-dkms-0.1.20250218/mrf-pci-0.1.20250218/jtag.c:97-108 | five clocks with TMS high reset the TAP controller (IEEE 1149.1, section 6.1) |
| `JtagScans.TckMustBeLow` | support/mrf-pci-dkms-0.1.20250218/mrf-pci-0.1.20250218/jtag.c:123-153 | a scan from Test-Logic-Reset or Run-Test/Idle reaches its shift state if and only if TCK is low at the call |
| `JtagScans.InstructionScanShifts` | support/mrf-pci-dkms-0.1.20250218/mrf-pci-0.1.20250218/jtag.c:300-326 | an instruction scan from Test-Logic-Reset or Run-Test/Idle clocks exactly header, instruction and trailer in Shift-IR and ends in Exit1-IR |
| `JtagScans.InstructionScanLoads` | support/mrf-pci-dkms-0.1.20250218/mrf-pci-0.1.20250218/jtag.c:300-326 | over a chain of matching length it leaves the target holding the instruction and all other bits one (BYPASS), latched if it returns to Run-Test/Idle |
| `JtagScans.DataScanShifts` | support/mrf-pci-dkms-0.1.20250218/mrf-pci-0.1.20250218/jtag.c:328-368 | a data scan clocks exactly header, data and trailer in Shift-DR, reports the bits that came out with the data, and ends in Exit1-DR or Run-Test/Idle if and only if there is data or a trailer |
| `JtagScans.DataScanExchanges` | support/mrf-pci-dkms-0.1.20250218/mrf-pci-0.1.20250218/jtag.c:328-368 | without header and trailer it exchanges a register of its own length with the input and returns the old contents in the layout of the input |
| `InterruptRecord.MrfInterruptRecord.OnInterrupt` | mrfApp/mrfEpicsSrc/MrfInterruptRecord.h:148-201 | masks, makes room with the popping loops, queues, and decides whether to request a scan |
| `InterruptRecord.MrfInterruptRecord.GetInterruptInfo` | mrfApp/mrfEpicsSrc/MrfInterruptRecord.h:268-300 | switches the mode and asks for a scan if interrupts are queued |
| `InterruptRecord.MrfInterruptRecord.ProcessRecord` | mrfApp/mrfEpicsSrc/MrfInterruptRecord.h:302-336 | takes the oldest interrupt, or zero, and asks for another scan if more are queued |
| `InterruptRecord.ListenConserves` | mrfApp/mrfEpicsSrc/MrfInterruptRecord.h:153-186 | what was accepted has left in the order of arrival or is still queued; at most 1024 are |
| `InterruptRecord.TakeConserves` | mrfApp/mrfEpicsSrc/MrfInterruptRecord.h:306-322 | the same for processing |
| `InterruptRecord.OverflowDropsOldestWhenFull` | mrfApp/mrfEpicsSrc/MrfInterruptRecord.h:173-184 | in the I/O Intr mode only the oldest interrupt is dropped, and only when 1024 are queued |
| `InterruptRecord.CountsAddUp` | mrfApp/mrfEpicsSrc/MrfInterruptRecord.h:153-186 | accepted = delivered + dropped + queued |
| `InterruptWakeup.RunKeepsInv` | mrfApp/mrfEpicsSrc/MrfInterruptRecord.h:148-201 | in every interleaving of interrupts, processing and mode changes: in the I/O Intr mode queued interrupts always have a scan requested, about to be requested, or being processed |
| `InterruptWakeup.NotStuck` | mrfApp/mrfEpicsSrc/MrfInterruptRecord.h:333-335 | then something can always happen on its own |
| `InterruptWakeup.InternalStepsDrain` | mrfApp/mrfEpicsSrc/MrfInterruptRecord.h:333-335 | and whatever does comes nearer to an empty queue |
| `InterruptWakeup.OnlyOverflowsInModePeriod` | mrfApp/mrfEpicsSrc/MrfInterruptRecord.h:173-184 | within one period of the I/O Intr mode nothing is dropped but by an overflow |
| `InterruptJoining.MoveLosesWakeup` | mrfApp/mrfEpicsSrc/MrfInterruptRecord.h:268-300 | a wakeup is lost in a step if and only if a scan passes over the list before the record has joined it and no other request is on its way |
| `InterruptJoining.LostExactlySinceMissedScan` | mrfApp/mrfEpicsSrc/MrfInterruptRecord.h:268-300 | in every run, with the record joining the scan list only after the mode switch: queued interrupts wait without a wakeup if and only if that has happened and the record has not been processed for another reason, or its mode switched, since |
| `InterruptJoining.LostIsStuck` | mrfApp/mrfEpicsSrc/MrfInterruptRecord.h:153-159 | a lost wakeup does not come back: nothing is shown, and further interrupts request no scan |
| `InterruptJoining.WakeupCanBeLost` | mrfApp/mrfEpicsSrc/MrfInterruptRecord.h:268-300 | a run in which the wakeup of the mode switch is lost |
| `WaveformOut.IndexIsRecovered` | mrfApp/mrfEpicsSrc/MrfWaveformOutRecord.cpp:65-67 | every element is found again by its address if and only if the array does not reach around the address space |
| `WaveformOut.ElementsDisjoint` | mrfApp/mrfEpicsSrc/MrfWaveformOutRecord.cpp:314-317 | no two elements share a byte when (4 + distance) * nelm is at most 2^32 |
| `WaveformOut.MrfWaveformOutRecord.ProcessRecord` | mrfApp/mrfEpicsSrc/MrfWaveformOutRecord.cpp:250-337 | the requests are exactly the elements that need a write, in order, with their values; these elements become unconfirmed and all last values those of the array; it waits for as many callbacks as there are requests, and is done at once exactly if there are none |
| `WaveformOut.MrfWaveformOutRecord.Success` | mrfApp/mrfEpicsSrc/MrfWaveformOutRecord.cpp:61-92 | confirms the element that the address stands for, or records the mismatch, and counts down |
| `WaveformOut.MrfWaveformOutRecord.Failure` | mrfApp/mrfEpicsSrc/MrfWaveformOutRecord.cpp:94-114 | records the failure and counts down |
| `WaveformCycle.RunKeepsInv` | mrfApp/mrfEpicsSrc/MrfWaveformOutRecord.cpp:61-114 | in every run, with callbacks at any time: a value marked as valid is what the device holds, and every cycle completes exactly once |
| `WaveformCycle.SuccessfulCycleWritesAll` | mrfApp/mrfEpicsSrc/MrfWaveformOutRecord.cpp:250-337 | a cycle that ends successfully leaves the device array equal to the record array, with or without writing changed elements only |
| `WaveformCycle.UnconfirmedIsSentAgain` | mrfApp/mrfEpicsSrc/MrfWaveformOutRecord.cpp:305-318 | in every run: an element whose write failed or read back as something else is requested again in the next cycle, before that cycle leaves its loop |
| `WaveformCycle.SkippedIsInDevice` | mrfApp/mrfEpicsSrc/MrfWaveformOutRecord.cpp:305-318 | the loop requests every element that is not confirmed and skips only what the device already holds |
| `WaveformCycle.LoopIsProcessRecord` | mrfApp/mrfEpicsSrc/MrfWaveformOutRecord.cpp:265-336 | a cycle without callbacks in its loop ends with the record and the outstanding elements that processing the record is proved to produce |
| `WaveformCycle.WaitingEnds` | mrfApp/mrfEpicsSrc/MrfWaveformOutRecord.cpp:87-91 | processing is requested exactly when the last callback has come |
| `FineDelay.MrfLongoutFineDelayShiftRegisterRecord.BitValue` | mrfApp/mrfEpicsSrc/MrfLongoutFineDelayShiftRegisterRecord.cpp:268-345 | the 24 cases are the documented order of the bits |
| `FineDelay.MrfLongoutFineDelayShiftRegisterRecord.StartNextTransferStep` | mrfApp/mrfEpicsSrc/MrfLongoutFineDelayShiftRegisterRecord.cpp:233-388 | each of the 51 steps issues its masked write; the one after the last reports success |
| `FineDelay.MrfLongoutFineDelayShiftRegisterRecord.Success` | mrfApp/mrfEpicsSrc/MrfLongoutFineDelayShiftRegisterRecord.cpp:397-414 | goes on exactly if the masked value reads back as written |
| `FineDelay.MrfLongoutFineDelayShiftRegisterRecord.ProcessRecord` | mrfApp/mrfEpicsSrc/MrfLongoutFineDelayShiftRegisterRecord.cpp:204-223 | starts a transfer, or ends it and reports its success |
| `FineDelay.WriteSetsPins` | mrfApp/mrfEpicsSrc/MrfLongoutFineDelayShiftRegisterRecord.cpp:346-359 | an output write sets the four pins and no other bit of the register |
| `FineDelay.MatchMeansPins` | mrfApp/mrfEpicsSrc/MrfLongoutFineDelayShiftRegisterRecord.cpp:399-400 | a register reads back as written if and only if the pins are the ones asked for |
| `FineDelay.BitsAreReceived` | mrfApp/mrfEpicsSrc/MrfLongoutFineDelayShiftRegisterRecord.cpp:254-359 | a shift register on SCLK receives one bit with every second write, with the data unchanged since the write before, and nothing is latched meanwhile |
| `FineDelay.TransferLatchesOnce` | mrfApp/mrfEpicsSrc/MrfLongoutFineDelayShiftRegisterRecord.cpp:360-381 | LCLK rises once, after bit 24 |
| `FineDelay.TransferUndoesEncoding` | mrfApp/mrfEpicsSrc/MrfLongoutFineDelayShiftRegisterRecord.cpp:254-371 | decoding the 24 bits and the DIS line gives the value masked with 0x87ff07ff, for every 32-bit value |
| `FineDelayTransfer.RunKeepsInv` | mrfApp/mrfEpicsSrc/MrfLongoutFineDelayShiftRegisterRecord.cpp:233-424 | in every run, with failures and mismatches at any step, the shift register has seen exactly the writes so far |
| `FineDelayTransfer.LatchesCompleteOnly` | mrfApp/mrfEpicsSrc/MrfLongoutFineDelayShiftRegisterRecord.cpp:397-424 | a transfer latches nothing or all 24 bits once; given up before the latch step it latches nothing |
| `FineDelayTransfer.SuccessMeansTransferred` | mrfApp/mrfEpicsSrc/MrfLongoutFineDelayShiftRegisterRecord.cpp:382-387 | a transfer that reports success has set the delays to the value of the record |
| `PreheatCodegen.RegisterFits` | utils/preheat-cache-codegen.py:46-49 | a line of the dump that is accepted holds a 32-bit address |
| `PreheatCodegen.GenerateCode` | utils/preheat-cache-codegen.py:52-84 | a block of more than two registers becomes a loop, a smaller one calls |
| `PreheatCodegen.BlockCodeRuns` | utils/preheat-cache-codegen.py:52-84 | running the code of a block makes exactly the accesses of the block, unless its loop has a limit that the 32-bit variable cannot reach |
| `PreheatCodegen.LoopNeverEnds` | utils/preheat-cache-codegen.py:56-65 | such a loop never ends |
| `PreheatCodegen.Generate` | utils/preheat-cache-codegen.py:87-132 | for every dump: invalid lines are reported with their number; otherwise the generated code makes the dumped accesses in order and with the right width, if and only if no three registers in a row reach the end of the address space |
| `PreheatCodegen.LastRegistersNeverEnd` | utils/preheat-cache-codegen.py:87-132 | a valid dump of the last three 32-bit registers, whose generated code never ends |

## Left out

- Sockets, `select`, threads, mutex internals, name resolution, exceptions from allocation, and the shutdown of the threads: every block that holds a mutex is one atomic step.
- Send errors other than EAGAIN: for a retransmission the source copies the callback instead of taking it, so at-most-once would need them excluded.
- The bytes of a UDP packet: packets are records of their fields, because the 16-bit data goes through a 32-bit byte-order conversion whose round trip depends on the host.
- References into containers that are erased later in the same function: they are copies of the value.
- UdpInvariants.RemoveLeavesNoTrace: `multiset::find` is taken to return the first of several equal elements, as common implementations do, here and in every result that rests on it; C++ permits any of them, and `UdpInvariants.RemoveFromEveryEqual` says exactly when that makes no difference.
- Memory.LoadAfterStore: the simulator refuses addresses beyond its memory; as in the scheduler, addresses here have 32 bits and wrap.
- UdpClient.MrfUdpIpClient.constructor: the congestion window increment counter, which has no initializer in the source, starts at zero as after a reset; so do the other fields without one. The exceptions for invalid timeouts are in `UdpClient.CreateClient`.
- UdpClient.MrfUdpIpClient.UpdateRoundTripTime: the weights are exact fractions truncated to clock ticks, not floating-point numbers.
- UdpClient.MrfUdpIpClient.CheckSentRequests: the fields for congestion control and for timing are two records instead of fifteen fields, and requests are values in a map instead of shared objects.
- The upper end of `consecutiveRequestTimeoutsCount`, `nextId` and of the reordering counters: they are unbounded integers.
- UdpOverlooked.OverlookedInRuns: inserting into a set whose order was broken goes by the first later element from the front, where the standard leaves the result open; in runs every insertion is at the end.
- UdpRuns.SmoothRunKeepsInv: assumes fewer than 2^31 packets between the oldest awaited packet, or the newest answer, and the current one; beyond that the comparison of references is not an order (`UdpArithmetic.RefOrderExactRange`).
- Callbacks that throw, and a delegate that both throws and calls back: a delegate throws or calls back once per request, and its write takes effect at most once, before its callback.
- Fairness of the scheduler: a new operation that overlaps only waiting ones starts at once, and the order among equal keys of the multimap is not fixed.
- UdpIpMemoryAccess.ReaderActsAsExpected: exceptions while queuing a request are left out, so the second request of a read is always queued.
- RegisterTransfer.CompletedWriteIsReadBack: no other writer of the two words (late requests of an earlier write are in `SecondWrite`); the offset of the network addresses is left out.
- SecondWrite.SecondWriteIsReadBack: two writes by one client; late replies to the first one do not reach the second, because each request has its own reference.
- JtagDriver.Gpio.Sdi: what it shifts is stated for calls with TCK and TMS low, which every scan makes; with TCK high each bit but the first would be clocked twice.
- JtagDriver.Gpio.Sdr: other bits of the GPIO register, `EX1toSDR`, `SCFD`, chip identification and the flash and FPGA drivers are left out.
- InterruptWakeup.RunKeepsInv: the EPICS scan list is one pending request, and the record is in the list at once; that it joins the list only after `getInterruptInfo` has returned is in `InterruptJoining`.
- WaveformOut.MrfWaveformOutRecord.ProcessRecord: no callback comes while the loop runs; the cycles of `WaveformCycle` allow them between any two elements.
- WaveformCycle.RunKeepsInv: verification is switched on and nobody else writes to the registers; the conversion of smaller element types is a mapping to 32-bit numbers before the model starts, and the initial values are those of the device or none.
- FineDelayTransfer.RunKeepsInv: the output pins follow the output register throughout; that they float until the direction is set is left out. Bit indices are at most 28, as the address parser enforces.
- PreheatCodegen.Generate: the text of the generated statements, and line ends; the code that is printed before an invalid line; `strip` knows the ASCII white space only.
- The memory-mapped I/O thread, the cache, EPICS database calls and shell commands, EEPROM and flash drivers, address strings and their parsers, and `jtag_9056.c`, which repeats `jtag.c` over another register.
