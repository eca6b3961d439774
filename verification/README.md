# Async_MPMC: the action pipeline and its image codec

This project models two things and proves them correct in Dafny: the lock-free pipeline that
carries actions from any number of producers through one scheduler thread to the executors, and
the zlib and PNG-filter code that the image jobs rest on. `dafny verify dfyconfig.toml` checks
everything.

## The pipeline

An action is stored in a slot of `ActionStorage`, whose free slots form a linked list under a
tagged head; a handle of slot index and slot generation stands for it. The handle goes through the
sequence-numbered ring of `PreSchedulerQueue`, is kept pending by the scheduler thread until an
executor in the round robin takes it into its `PostSchedulerQueue`, and is redeemed by that
executor, which runs the action and pushes what follows from it.

Each component is there twice.

* As a state machine (`StorageMachine`, `PreQueueMachine`, `PostQueueMachine`) with one step per
  access to shared memory and a program counter per thread. A weak compare-exchange may fail for
  no reason. The invariants hold in every interleaving of any number of threads; the modules named
  `...Results` draw the conclusions: ownership, order, exact verdicts, bounds on retries.
* As a class (`ActionStorage`, `PreSchedulerQueue`, `PostSchedulerQueue`, `RoundRobinEngine`,
  `SchedulerThread`, `ExecutorThread`) with the fields of the original. One method per access to
  shared memory is proved to be one step of the machine; the calls are the original's loops over
  these methods. Before each access the other threads take whatever steps a list named `schedule`
  says, and a list named `failures` says which weak exchanges fail by themselves. Both lists are
  arbitrary, so the contracts of the calls hold under every interference; they are finite, so each
  call is a finite one, and every turn of a retry loop uses some of them up. Where a contract says
  what happens alone, the lists are empty.

`PipelineMachine` puts all of it together: producers, the scheduler thread and the executors over
one storage, one pre-scheduler ring and one ring per executor. `Ledger` is the simple form of the
same thing, with handles moving from place to place as whole events; `PipelineInv` proves that
every step of the pipeline is one such event or none. `PipelineResults` draws the conclusions about
places, order and losses, `Placement` about the round robin. `Work`, `Advance` and `Drain` measure
what is left to do; from this follow no deadlock and a run that empties the pipeline
(`DrainResults`), a bound on the useful steps of any schedule (`Schedules`), and that every fair
schedule empties the pipeline (`Fairness`). `Conservation` and `ConservationResults` balance the books of
every action: it is executed, due, or given up at a load that said why, so that a push executes the
whole chain of its action unless something is refused. `Shutdown` says that the flags are obeyed.

Fields named `free`, `place`, `issued`, `claimed`, `claimant`, `popped`, `pushed`, `answers`,
`dispatched`, `executed` and `deeds` are history: no step reads them, and the final theorems are told, as
far as possible, from memory and program counters.

What the proofs assume:

* Execution is sequentially consistent: the accesses of all threads interleave one by one.
* The tag of the head, generations and ring positions do not wrap around; they are natural numbers.
* `remove_action` is called only with handles that `register_action` returned. The pipeline does so
  in every run; `HandleMisuse` says exactly what goes wrong otherwise.
* The storage has between 1 and 2^32 - 1 slots, and ring sizes have a power of two above them.
* The pre-scheduler ring has at least two slots. The code also accepts one, and then loses actions:
  `CapacityBoundIsTight` gives the exact condition.
* The flags that keep the threads running may flip at any step; a call reads them from a list of
  answers.

## The codec

`Deflate` gives bit sequences the meaning that RFC 1951 gives them, `Canonical` is the code of its
section 3.2.2, and `PngFilter` is section 9 of the PNG specification. Against these three the code
is proved: the table builder and both decoding paths (`ZHuffman`), the bit buffer, the block
parsers and the output buffer (`ZBuf`), the match search with its hash buckets (`Lz77`), the bit
writer (`BitWriter`), the compressor with its stored fallback (`ZCompress`), and the row loops of
the PNG writer and reader (`PngWriter`, `PngReader`). `ZlibRoundTrip` and `PngRoundTrip` are the
round trips.

A reading in `Deflate` continues with zeros behind the end of the input and keeps a list of what it
took, so that the contracts of the decoder hold for every input, truncated ones included. `Supply`
follows how many bits `stbi__fill_bits` and the sixteen bits granted at the end have made available.

Three promises of the original hold only under a condition, which the members named here state:

* The zlib round trip fails for empty data, because the fallback then writes no block at all:
  `RoundTrip` succeeds if and only if there is data.
* Comments in `stb_image.h` (4251-4258, 4326-4331) say that a stream which uses padding bits is
  refused. Zeros that `stbi__fill_bits` supplied are not seen as padding: the byte 3, without
  header, is accepted although two bits of its end-of-block code are missing (`CutOffEndIsAccepted`,
  `DecodeByteThree`). `RefusedExactly` says which truncated streams are refused, and
  `AcceptedLacksLittle` that an accepted one lacks at most nineteen bits; some lack as many
  (`NineteenAreLacking`). Streams that have all their bits are never refused (`WholeIsAccepted`).
* The compressor takes any size, but counts in `int`. `IntsInRange` says of data and quality that
  none of its expressions leaves that range, the doubling of its growing arrays included
  (`StretchyBuffer`, `Hlist`), and `IntsExactly` gives the sizes for which that is so. `IntsFit` is a
  bound on the size alone that is sufficient for all data.

The header test is that of the code, which ignores the window size; RFC 1950 limits it to 7.

## Model

| member | source | states |
|---|---|---|
| ActionStorage.Allocator.constructor | include/ActionStorage.hpp:34-43 | head 0, every slot linked to the next, the last to the invalid index, all generations 0 |
| ActionStorage.Allocator.Create | include/ActionStorage.hpp:34-37 | a size of zero is refused, every other size gives the fresh allocator |
| ActionStorage.Allocator.RegLoadHead | include/ActionStorage.hpp:45-50 | one step of the machine; an empty list ends the call |
| ActionStorage.Allocator.RegLoadNext | include/ActionStorage.hpp:51-52 | one step of the machine: the successor of the head that was seen, as memory has it now |
| ActionStorage.Allocator.RegSwapHead | include/ActionStorage.hpp:53-55 | succeeds exactly when index and tag are still those seen and the weak exchange does not fail by itself; else the head is reloaded |
| ActionStorage.Allocator.RegStoreAction | include/ActionStorage.hpp:57-58 | one step of the machine: the action is in the slot |
| ActionStorage.Allocator.RegLoadGeneration | include/ActionStorage.hpp:60-61 | the handle made from index and generation was never issued before, and is live |
| ActionStorage.Allocator.RemSwapGeneration | include/ActionStorage.hpp:64-73 | succeeds exactly on a live handle, and leaves the handle spent either way |
| ActionStorage.Allocator.RemMoveAction | include/ActionStorage.hpp:75 | the action moved out is the one registered for the handle |
| ActionStorage.Allocator.RemLoadHead | include/ActionStorage.hpp:76 | one step of the machine |
| ActionStorage.Allocator.RemStoreNext | include/ActionStorage.hpp:79 | one step of the machine |
| ActionStorage.Allocator.RemSwapHead | include/ActionStorage.hpp:81-84 | succeeds exactly when the head is still the one seen and the weak exchange does not fail by itself; the slot then heads the free list |
| ActionStorage.Allocator.TryTake | include/ActionStorage.hpp:51-53 | a turn of the loop that fails used up interference of another thread or a spurious failure |
| ActionStorage.Allocator.RegisterAction | include/ActionStorage.hpp:44-62 | under any interference: a handle that is new, live and stands for the action, or a moment during the call at which the free list was empty; what the thread itself did is that issue and nothing else; alone, it fails exactly on an empty list, takes its first slot and adds exactly its handle to the live ones; the loop ends |
| ActionStorage.Allocator.GiveSlotBack | include/ActionStorage.hpp:77-84 | the loop ends, with the slot at the head of the free list |
| ActionStorage.Allocator.RemoveAction | include/ActionStorage.hpp:63-86 | under any interference: the handle is spent afterwards; whoever wins gets exactly the action registered, and only if the handle was live; what the thread itself did is that redemption or nothing; alone, it wins exactly on a live handle, gives the slot back and takes exactly that handle from the live ones |
| ActionStorage.StepKeeps | include/ActionStorage.hpp:44-86 | no step un-issues a handle, changes its action or revives a spent one, or moves another thread |
| StorageMachine.ApplyInv | include/ActionStorage.hpp:44-86 | every step of any thread keeps the invariant: the next links from the head run through exactly the free slots, each once; every slot has the owner recorded; live slots hold the registered action |
| StorageMachine.RunInv | include/ActionStorage.hpp:44-86 | the same over every run |
| StorageMachine.StepEffect | include/ActionStorage.hpp:44-86 | what one step does to the set of live handles |
| StorageResults.FreeListInMemory | include/ActionStorage.hpp:44-84 | in every reachable state the links from the head form an acyclic list of exactly the free slots, ended by the invalid index |
| StorageResults.OneOwner | include/ActionStorage.hpp:44-86 | every slot is in exactly one of: the free list, one registering thread, one removing thread, one issued and unspent handle; told from memory and program counters |
| StorageResults.NoAba | include/ActionStorage.hpp:51-53 | when the exchange in register_action can succeed, the next read earlier is the true successor of the head, and the list loses exactly its first slot |
| StorageResults.RefusedOnlyWhenEmpty | include/ActionStorage.hpp:48-50 | nullopt comes only from a load of the head at which no slot was free |
| StorageResults.IssuedOnceRedeemedOnce | include/ActionStorage.hpp:57-75 | over any run a handle is issued at most once, redeemed at most once and only after it was issued, and stays issued with its action |
| StorageResults.WinnerGetsTheAction | include/ActionStorage.hpp:70-85 | the generation exchange is refused exactly when the handle was redeemed before; the winner returns the action registered |
| StorageResults.RetryBound | include/ActionStorage.hpp:47-84 | over any run a thread loses the head at most once per success of another thread, plus one if it started stale |
| HandlePacking.PackedIsRead | include/ActionStorage.hpp:13-21 | index and generation come back from the 64-bit id that register_action makes |
| HandlePacking.ReadIsPacked | include/ActionStorage.hpp:60-61 | every 64-bit id is the id of exactly the handle read from it |
| HandlePacking.IdLayout | include/ActionStorage.hpp:60-61 | the index is the lower half of the id, the generation the upper one |
| HandleMisuse.OnlyIssuedHandlesAreSafe | include/ActionStorage.hpp:63-75 | remove_action takes over a slot that someone else holds if and only if its handle has the current generation and was never issued |
| HandleMisuse.UnusedStorageIsOpen | include/ActionStorage.hpp:69-73 | an instance: on a fresh storage the handle (0, 0), never issued, is accepted |
| RingSlots.BitCeil | PreSchedulerQueue.cpp:6 | the least power of two that is no less than its argument |
| RingSlots.MaskPicksSlot | PreSchedulerQueue.cpp:27 | the mask picks the position modulo the capacity |
| RingSlots.SlotUnique | PreSchedulerQueue.cpp:27 | two positions less than a capacity apart never share a slot |
| PreQueueMachine.ApplyInv | PreSchedulerQueue.cpp:16-62 | every step keeps the invariant: at most capacity positions are claimed and not taken out, claimed positions carry p or p + 1, positions still to come carry p |
| PreQueueMachine.RunInv | PreSchedulerQueue.cpp:16-62 | the same over every run |
| PreQueueMachine.MarkTells | PreSchedulerQueue.cpp:28-31 | what a load of the sequence number tells, for a current or stale position |
| PreQueueResults.SlotsAreExclusive | PreSchedulerQueue.cpp:32-34 | no two producers write one slot, and none writes the slot the consumer reads |
| PreQueueResults.FullnessIsExact | PreSchedulerQueue.cpp:28-39 | push gives up if and only if, at that load, its position is the enqueue counter and capacity many positions are claimed and not taken out |
| PreQueueResults.EmptinessIsExact | PreSchedulerQueue.cpp:51-54 | pop finds nothing if and only if the head position is unclaimed or not announced yet |
| PreQueueResults.Fifo | PreSchedulerQueue.cpp:16-62 | over every run the handles popped are a prefix of the handles in claim order, and lag by at most the capacity plus one |
| PreQueueResults.RetryBound | PreSchedulerQueue.cpp:26-43 | over any run a producer goes round its loop at most once per claim of another producer, plus one if it started stale |
| PreQueueResults.OneSlotOverfills | PreSchedulerQueue.cpp:29-34 | a run: with one slot two pushes are accepted and the first handle is lost |
| PreQueueResults.CapacityBoundIsTight | PreSchedulerQueue.cpp:6 | the ring keeps its capacity in every run if and only if it has at least two slots |
| PreSchedulerQueue.Queue.constructor | PreSchedulerQueue.cpp:5-14 | every queue size is accepted; its ring is the initial one, its size the power of two that reaches the one asked for, and valid from two slots on |
| PreSchedulerQueue.Queue.Index | PreSchedulerQueue.cpp:27 | the masked position is the slot of the position |
| PreSchedulerQueue.Queue.LoadEnqueue | PreSchedulerQueue.cpp:24 | one step of the machine |
| PreSchedulerQueue.Queue.LoadSequence | PreSchedulerQueue.cpp:28-41 | diff is negative if and only if the position is the enqueue counter and the ring is full; a positive one means the position is out of date |
| PreSchedulerQueue.Queue.SwapEnqueue | PreSchedulerQueue.cpp:32 | succeeds exactly on the current position when not failing by itself; the position then belongs to this thread and this handle |
| PreSchedulerQueue.Queue.StoreHandle | PreSchedulerQueue.cpp:33 | one step of the machine |
| PreSchedulerQueue.Queue.StoreSequence | PreSchedulerQueue.cpp:34 | one step of the machine |
| PreSchedulerQueue.Queue.TestSequence | PreSchedulerQueue.cpp:48-54 | nothing is there exactly when the head position is unclaimed or not announced |
| PreSchedulerQueue.Queue.LoadHandle | PreSchedulerQueue.cpp:58 | the handle read is the one claimed at the position |
| PreSchedulerQueue.Queue.FreeSequence | PreSchedulerQueue.cpp:59 | one step of the machine; the handle joins those taken out |
| PreSchedulerQueue.Queue.StoreDequeue | PreSchedulerQueue.cpp:60 | one step of the machine |
| PreSchedulerQueue.Queue.Attempt | PreSchedulerQueue.cpp:26-43 | one turn of the loop: claimed, full at a moment during the turn, or once more because another thread or a spurious failure was in the way |
| PreSchedulerQueue.Queue.Push | PreSchedulerQueue.cpp:16-44 | under any interference: the action is registered under a new handle claimed at a position of its own by this thread, which claims no other and redeems nothing; or no slot was free at some moment; or the ring was full at some moment and the registration is spent; alone, it is accepted exactly if there is room and a free slot, adds exactly its handle to the ring and to the live ones and takes the first free slot, and a rejected push restores the free list and the live ones |
| PreSchedulerQueue.Queue.Pop | PreSchedulerQueue.cpp:47-62 | the oldest claimed handle not taken out yet, which leaves the ring; or nothing, and at some moment during the call the head position was unclaimed or not announced; alone, nothing exactly in that case |
| PostQueueMachine.ApplyInv | PostSchedulerQueue.cpp:14-44 | every step keeps the invariant: a flag is set exactly at the positions between the two ends, and the slot holds the handle |
| PostQueueMachine.RunInv | PostSchedulerQueue.cpp:14-44 | the same over every run |
| PostQueueResults.VerdictsAreExact | PostSchedulerQueue.cpp:17-32 | push fails exactly when the ring is full and pop finds nothing exactly when it is empty, at the load of the flag |
| PostQueueResults.Fifo | PostSchedulerQueue.cpp:14-44 | over every run the handles taken are a prefix of the handles pushed, within the capacity |
| PostSchedulerQueue.Queue.constructor | PostSchedulerQueue.cpp:5-11 | the empty ring, its size the power of two above the one asked for |
| PostSchedulerQueue.Queue.TestFlagFree | PostSchedulerQueue.cpp:17-19 | the flag is set exactly when the ring is full |
| PostSchedulerQueue.Queue.StoreHandle | PostSchedulerQueue.cpp:20 | one step of the machine |
| PostSchedulerQueue.Queue.RaiseFlag | PostSchedulerQueue.cpp:21 | one step of the machine; the handle becomes the newest in the ring |
| PostSchedulerQueue.Queue.CountEnqueue | PostSchedulerQueue.cpp:22 | one step of the machine |
| PostSchedulerQueue.Queue.TestFlagActive | PostSchedulerQueue.cpp:30-32 | the flag is set exactly when the ring is not empty |
| PostSchedulerQueue.Queue.LoadHandle | PostSchedulerQueue.cpp:34 | the handle read is the oldest in the ring |
| PostSchedulerQueue.Queue.LowerFlag | PostSchedulerQueue.cpp:40 | one step of the machine |
| PostSchedulerQueue.Queue.CountDequeue | PostSchedulerQueue.cpp:41 | one step of the machine |
| PostSchedulerQueue.Queue.Push | PostSchedulerQueue.cpp:14-24 | the handle becomes the newest in the ring, unless at some moment every slot was occupied; alone, it fails exactly on a full ring and leaves the other end alone |
| PostSchedulerQueue.Queue.Pop | PostSchedulerQueue.cpp:27-44 | the oldest handle is taken and its registration spent, by this thread if it answers with an action, which is the one registered; or the ring was empty at some moment; alone, exactly if it was empty |
| RoundRobinEngine.EachOnceARound | include/RoundRobinEngine.hpp:30-33 | the choices of a round are the successors of the index counted from the last choice, and executor e comes up exactly at its known turn |
| RoundRobinEngine.Engine.SetExecutors | include/RoundRobinEngine.hpp:25-28 | for every count the counters are resized, old ones kept and new ones zero; the index stays, which may then be too large until the next choice |
| RoundRobinEngine.Engine.ChooseExecutor | include/RoundRobinEngine.hpp:30-33 | an index of an executor whatever it was before, and the next in turn if it was one |
| RoundRobinEngine.Engine.ReportPushResult | include/RoundRobinEngine.hpp:35-39 | a failure is counted, in 32 bits, for the executor last chosen, and for no other |
| SchedulerThread.Scheduler.Push | include/Scheduler.hpp:73-78 | when the flag is down nothing changes; otherwise the verdict of the ring, explained by what happened since, with the handle live and claimed once; alone, accepted exactly if the flag is up and there is a slot and room |
| SchedulerThread.Scheduler.Pull | include/Scheduler.hpp:88-95 | the next handle in claim order becomes pending, or the ring was looked at during the turn and had nothing to give; alone, exactly in that case |
| SchedulerThread.Scheduler.Offer | include/Scheduler.hpp:97-105 | the pending handle goes to the executor whose turn it is, or stays pending because the ring of that executor was full during the offer; alone, exactly if it was; the outcome is counted |
| SchedulerThread.Scheduler.Run | include/Scheduler.hpp:82-107 | handles are placed in the order taken out, each at the executor whose turn it was, the refusals are counted per executor, and at most the last handle is left over; every refusal met a full ring and every turn without an offer a ring with nothing to take, each during its own turn and one after the other; the loop ends at the first load that finds the flag down |
| ExecutorThread.Executor.Take | Executor.cpp:52-56 | pop, what it leaves alone, and when the ring was empty |
| ExecutorThread.Executor.Feed | Executor.cpp:61-64 | the continuation is pushed if and only if the flag is still up, with a verdict explained by what happened since; an accepted one is live; alone, accepted exactly if there is a slot and room |
| ExecutorThread.Executor.Run | Executor.cpp:49-68 | the actions run are exactly those pop answered, in order, each the one registered for its handle, which is spent; every continuation was claimed by this thread in the order of the actions, met a full ring or an empty free list since its push began, or was dropped, once for each load before the last that found the flag down; the thread issued and redeemed exactly these handles; every turn that took nothing looked into its ring and found it empty during that turn; if the scheduler is quiet, as many handles are taken as there are turns or handles |
| Ledger.DoInv | include/Scheduler.hpp:82-107 | the books: every way a handle can move on keeps it in exactly one place and in claim order |
| PipelineInv.StepRefines | include/Scheduler.hpp:82-107 | every step of every thread keeps the invariant of the whole and is one entry in the books or none |
| PipelineInv.RunInv | Executor.cpp:49-68 | the same over every run |
| PipelineResults.OnePlace | include/Scheduler.hpp:82-107 | in every reachable state a live handle is in exactly one place: with a producer or executor that pushes it, at a position of the pre-scheduler ring, with the scheduler, at a position of one executor's ring; a spent one is in none |
| PipelineResults.OneOwner | include/ActionStorage.hpp:44-86 | in every reachable state every slot is free, being installed, being returned or live, and a live one has its handle in a place |
| PipelineResults.QueuedInMemory | PreSchedulerQueue.cpp:32-34 | a claimed position is announced and its slot holds the handle, or the producer that claimed it still has it |
| PipelineResults.PostedInMemory | PostSchedulerQueue.cpp:20-21 | a position of an executor's ring is flagged and its slot holds the handle |
| PipelineResults.RunsInClaimOrder | Executor.cpp:52-63 | what an executor ran is what was registered for an increasing sequence of claim positions, all dispatched to it |
| PipelineResults.AtMostOnce | Executor.cpp:52-60 | two executions come from two claims of two different handles |
| PipelineResults.OneExecutorRunsThePrefix | include/Scheduler.hpp:85-106 | with one executor the actions run are those of the first claims, in claim order |
| PipelineResults.NothingLost | include/Scheduler.hpp:85-106 | every accepted action is in the pre-scheduler ring, with the scheduler, or with its executor, where it waits, is about to be run or was run |
| PipelineResults.ErrorBranchesAreDead | PostSchedulerQueue.cpp:36-38 | the branch that reports a failed redemption is never taken, no empty action is run, and undoing a rejected push never fails |
| ConservationResults.StepBalances | Executor.cpp:49-68 | for every action, how often it was executed plus how often it is due changes only by a push from outside and by the steps that give an action up: a load of a flag that finds it down, of the head that finds no slot, of a sequence number that finds the ring full |
| ConservationResults.RunBalances | Executor.cpp:49-68 | the same over every run |
| ConservationResults.EveryActionIsAccountedFor | include/Scheduler.hpp:73-107 | since the beginning every action and every continuation in its chain was executed, is due or was given up, exactly as often as it was begun |
| ConservationResults.ChainIsExecuted | Executor.cpp:49-68 | end to end: an action pushed into a drained pipeline is executed with its whole chain, each once and nothing else, by every fair schedule that is long enough and gives nothing up |
| Shutdown.AtMostOneMoreRun | Executor.cpp:49-50 | after its flag went down an executor runs at most one more action, in every run |
| Shutdown.AtMostOneMorePlaced | include/Scheduler.hpp:85-87 | after its flag went down the scheduler places at most one more handle, in every run |
| Drain.AgentAdvances | Executor.cpp:49-68 | every step of a producer or executor keeps or lowers the work left, and a productive step lowers the measure |
| Drain.NoDeadlock | Executor.cpp:57-63 | while the threads are active and not everything is drained, some thread has a step that lowers the measure |
| DrainResults.Drains | include/Scheduler.hpp:87-106 | from every reachable state with active threads a run of the threads alone ends with every slot free and every accepted action executed |
| DrainResults.WorkNeverGrows | Executor.cpp:57-63 | no step but a new push from outside adds work, and every successful exchange or handing on takes some away |
| DrainResults.CountedStepsAreBounded | include/Scheduler.hpp:87-106 | once no one pushes from outside, such steps are bounded in every schedule, fair or not |
| Schedules.UsefulStepsAreBounded | Executor.cpp:49-68 | in every schedule, however unfair and with the flags flipping at will, the steps that do not just look into an empty ring or fail by themselves, and the handles moved on by the scheduler, are bounded by the state at the start and the number of exchanges that fail by themselves, once no one pushes from outside |
| Fairness.FairRoundCloser | include/Scheduler.hpp:87-106 | whatever a fair round contains, it brings a pipeline that is not empty strictly closer to its end, spurious failures accounted for |
| Fairness.FairRoundExists | include/Scheduler.hpp:87-106 | no thread has to wait for another: from every state with active threads there is a round in which all take a step |
| Fairness.FairSchedulesDrain | include/Scheduler.hpp:87-106 | liveness: every fair schedule of the threads, if it is longer than a number known at its start, with an allowance for every spurious failure, ends with every slot free and every accepted action executed |
| Placement.BoundedPlacement | include/Scheduler.hpp:97-105 | if some executor has room when an offer is due, fewer offers than there are executors fail before the handle is placed, whatever the others do |
| BitReverse.SwappingReverses | _3rd/stb/stb_image.h:4107-4114 | four rounds of swapping reverse sixteen bits |
| BitReverse.BitReverseNReverses | _3rd/stb/stb_image.h:4116-4122 | reversing sixteen bits and shifting reverses the low ones |
| BitReverse.BitRev | _3rd/stb/stb_image_write.h:849-857 | the writer's loop computes the same reversal |
| Canonical.MatchIsUnique | _3rd/stb/stb_image.h:4129-4149 | of all symbols at most one matches what is read |
| Canonical.PrefixFree | _3rd/stb/stb_image.h:4129-4149 | for accepted lengths no code begins another |
| Canonical.CodesAreConsecutive | _3rd/stb/stb_image.h:4129-4149 | the first rule of section 3.2.2 of RFC 1951: codes of one length follow each other in the order of their symbols |
| Canonical.ShorterComesFirst | _3rd/stb/stb_image.h:4129-4149 | the second rule: shorter codes precede longer ones |
| Canonical.SentIsRead | _3rd/stb/stb_image.h:4129-4149 | for accepted lengths the code sent for a symbol is read as that symbol |
| Canonical.FitsIsKraft | _3rd/stb/stb_image.h:4135-4145 | the lengths that fit are those that satisfy Kraft's inequality |
| ZHuffman.Table.Build | _3rd/stb/stb_image.h:4124-4169 | accepts exactly the lengths that fit, and builds tables that say what the canonical code of RFC 1951 says |
| ZHuffman.Table.FillFast | _3rd/stb/stb_image.h:4158-4164 | exactly the entries that end in the reversed code are set |
| ZHuffman.Table.FastTells | _3rd/stb/stb_image.h:4263-4269 | the fast entry is the matching symbol and its length, or no short code matches |
| ZHuffman.Table.SlowTells | _3rd/stb/stb_image.h:4229-4240 | the first limit above the reversed window leads to the matching symbol |
| FixedCode.HuffIsCanonical | _3rd/stb/stb_image_write.h:883-889 | the writer's macros give the canonical codes for the reader's fixed lengths |
| FixedCode.DistanceIsCanonical | _3rd/stb/stb_image_write.h:964 | distance codes are the five-bit numbers |
| FixedCode.FixedFits | _3rd/stb/stb_image.h:4452-4463 | the fixed lengths are accepted |
| ZBuf.RoomOf | _3rd/stb/stb_image.h:4282-4285 | how far doubling can take the output buffer: the one doubling of its size that no further doubling fits behind |
| ZBuf.DoublingEnds | _3rd/stb/stb_image.h:4283-4286 | the doubling loop ends if and only if the buffer has some size to double, or nothing is needed |
| ZBuf.Decoder.constructor | _3rd/stb/stb_image.h:4510-4518 | nothing read, nothing written; every size but 0 for a growing buffer, for which `DoublingEnds` says when the original ends |
| ZBuf.Decoder.ZGet8 | _3rd/stb/stb_image.h:4197-4200 | the next byte, or zero at the end |
| Deflate.BitAt | _3rd/stb/stb_image.h:4202-4222 | the bits of a stream are those of its bytes in order, each from the least significant on |
| ZBuf.Decoder.FillBits | _3rd/stb/stb_image.h:4202-4212 | more than 24 bits buffered, the same bits still to come; the overfull buffer never happens |
| ZBuf.Decoder.ZReceive | _3rd/stb/stb_image.h:4214-4222 | the value of the next n bits, with zeros past the end |
| ZBuf.Decoder.DecodeSlowPath | _3rd/stb/stb_image.h:4224-4241 | for every window, bits behind the end of the input included: the matching symbol, its code used up, or -1 and nothing used when none matches; the range and size checks never fail |
| ZBuf.Decoder.HuffmanDecode | _3rd/stb/stb_image.h:4243-4271 | -1 when more has been used than was supplied; otherwise, in every state, fast table and slow path together read exactly the symbol whose code comes next, with zeros behind the end, and exactly its bits; -1 if there is none |
| ZBuf.Decoder.ZExpand | _3rd/stb/stb_image.h:4273-4293 | succeeds exactly when doubling can make room |
| ZBuf.Decoder.CopyBack | _3rd/stb/stb_image.h:4348-4354 | both copy loops are the overlapping byte-by-byte copy |
| Deflate.CopyAt | _3rd/stb/stb_image.h:4348-4354 | what was there stays, and every byte behind it equals the one a distance before it |
| ZBuf.Decoder.ParseMatch | _3rd/stb/stb_image.h:4335-4354 | length, distance and copy as the format says, or the error, in every state |
| ZBuf.Decoder.ParseHuffmanBlock | _3rd/stb/stb_image.h:4309-4357 | output, rest of the input and errors are those of the format, read as if zeros followed; refused if and only if a symbol or the end comes behind what was supplied |
| ZBuf.Decoder.ParseUncompressedBlock | _3rd/stb/stb_image.h:4409-4436 | the same for a stored block, whatever is left in the bit buffer |
| ZBuf.Decoder.ParseZlibHeader | _3rd/stb/stb_image.h:4438-4450 | accepts exactly what passes the three tests of the code and has something behind it; RFC 1950 forbids window sizes above 7 as well, which the code does not look at |
| Deflate.UsualHeaders | _3rd/stb/stb_image.h:4438-4450 | for the first byte 0x78 exactly four second bytes are accepted |
| ZBuf.Decoder.ParseZlib | _3rd/stb/stb_image.h:4481-4508 | for every input: the answer is the meaning of the stream, its bytes, an error for a corrupt one or a full buffer; with an error as well if and only if it uses more than was supplied behind its end |
| Supply.EndOfBlock | _3rd/stb/stb_image.h:4243-4262 | wherever the input ends, an end-of-block code is accepted if and only if it fits into the real bits and the zeros that fill_bits had supplied before it was read |
| Supply.RefusedIffOverdrawn | _3rd/stb/stb_image.h:4243-4260 | a reading is refused if and only if a symbol begins, or a block ends, behind what fill_bits had supplied by then |
| Supply.WholePasses | _3rd/stb/stb_image.h:4243-4260 | a stream that has all the bits it needs is never refused, wherever its end falls in the bit buffer |
| Truncation.RefusedExactly | _3rd/stb/stb_image.h:4326-4331 | the promise that use of padding bits is refused: streams with all their bits are accepted, others are if and only if they do not run short of what fill_bits supplied, and the promise holds for exactly the streams that are whole or run short |
| Truncation.AcceptedWithinSupply | _3rd/stb/stb_image.h:4326-4331 | an accepted stream ends within the zeros that fill_bits supplied; where it supplied none, every bit was there |
| Truncation.CutOffEndIsAccepted | _3rd/stb/stb_image.h:4202-4212 | the promise fails: the single byte 3 lacks two bits of its end-of-block code and is accepted |
| Truncation.DecodeByteThree | _3rd/stb/stb_image.h:4481-4518 | the decoder itself on that byte: success and no output |
| Lacking.AcceptedLacksLittle | _3rd/stb/stb_image.h:4326-4331 | an accepted stream of bytes lacks at most nineteen bits, whatever it is and wherever it is cut off |
| Lacking.NineteenAreLacking | _3rd/stb/stb_image.h:4202-4212 | the bound is reached: seven bytes that lack nineteen bits are accepted, with 116 bytes of output |
| Lacking.DecodeSevenBytes | _3rd/stb/stb_image.h:4481-4518 | the decoder itself on those bytes |
| Tokens.LengthTablesAgree | _3rd/stb/stb_image_write.h:901-902 | the writer's length tables are the reader's, and the extra bits span each range |
| Tokens.DistanceTablesAgree | _3rd/stb/stb_image_write.h:903-904 | the same for distances |
| Deflate.LengthLaw | _3rd/stb/stb_image.h:4295-4298 | from 3 on every range of lengths follows on the one before, as long as its extra bits can count; 258 has a symbol of its own |
| Deflate.LengthExtraLaw | _3rd/stb/stb_image.h:4300-4301 | four ranges to each number of extra bits, from one on |
| Deflate.DistanceLaw | _3rd/stb/stb_image.h:4303-4304 | the same for distances, from 1 on |
| Deflate.DistanceExtraLaw | _3rd/stb/stb_image.h:4306-4307 | two ranges to each number of extra bits |
| Tokens.LengthSymbol | _3rd/stb/stb_image_write.h:960 | the search stops at the range the length is in |
| Tokens.DistSymbol | _3rd/stb/stb_image_write.h:963 | the search stops at the range the distance is in |
| Tokens.TokenReadBack | _3rd/stb/stb_image.h:4313-4355 | the decoder's step on a written token is that token |
| Tokens.BlockReadBack | _3rd/stb/stb_image.h:4309-4357 | a block written from tokens decodes to what the tokens expand to |
| BitWriter.Writer.Flush | _3rd/stb/stb_image_write.h:839-847 | whole bytes move out, no bit is lost |
| BitWriter.Writer.Add | _3rd/stb/stb_image_write.h:880-881 | the bits of the code are appended to those written, low bit first, and the buffer never holds more than its 32 bits |
| BitWriter.Writer.HuffA | _3rd/stb/stb_image_write.h:882 | a Huffman code is appended, high bit first |
| BitWriter.Writer.Huff | _3rd/stb/stb_image_write.h:888 | the code of a symbol is appended |
| BitWriter.Writer.HuffB | _3rd/stb/stb_image_write.h:889 | the code of a literal is appended |
| BitWriter.Writer.WriteLength | _3rd/stb/stb_image_write.h:960-962 | the length's symbol and extra bits are appended |
| BitWriter.Writer.WriteDistance | _3rd/stb/stb_image_write.h:963-965 | the distance's symbol and extra bits are appended |
| BitWriter.Writer.Pad | _3rd/stb/stb_image_write.h:976-978 | fewer than eight zero bits, up to a whole byte |
| StretchyBuffer.CapacityForm | _3rd/stb/stb_image_write.h:818-831 | every capacity is one less than three times a power of two, and the least such beyond the size |
| StretchyBuffer.BytesFit | _3rd/stb/stb_image_write.h:826-831 | the capacity of a byte buffer is an int if and only if its size is at most 1610612734 |
| Tokens.TokensCost | _3rd/stb/stb_image_write.h:957-970 | tokens take at most nine bits for every byte they expand to |
| Lz77.CountM | _3rd/stb/stb_image_write.h:859-865 | how far two positions agree, at most 258 bytes |
| Lz77.CopyReproduces | _3rd/stb/stb_image.h:4348-4354 | copying from where the same bytes came before reproduces them, overlap or not |
| Lz77.BestMatch | _3rd/stb/stb_image_write.h:928-933 | the last of the longest matches in the bucket and the window, of length 3 to 258 and distance up to 32767, or none exists |
| Lz77.BetterNext | _3rd/stb/stb_image_write.h:941-955 | whether the next position has a longer match |
| Lz77.Enter | _3rd/stb/stb_image_write.h:934-939 | a full bucket loses its older half, then the position is pushed; the table is what the positions entered so far make of it, capacities included |
| Lz77.FilledCapacity | _3rd/stb/stb_image_write.h:934-939 | the capacity of a bucket is that of the largest size it has had: halving leaves it alone |
| Lz77.FilledIsRecent | _3rd/stb/stb_image_write.h:934-939 | a bucket holds the most recent positions of its hash, in order, and has forgotten some only if it is more than half full |
| Lz77.LimitsAreFormat | _3rd/stb/stb_image_write.h:929-946 | the longest match is the longest length of the format, and the window means distances up to 32767, one less than the format allows, here and for the next byte |
| Lz77.Choose | _3rd/stb/stb_image_write.h:923-955 | the longest match unless the next position has a longer one, with the table of that moment |
| ZCompress.WriteNext | _3rd/stb/stb_image_write.h:957-970 | the lazy choice is written, the match or the literal, and table and tokens go on together |
| ZCompress.WriteTokens | _3rd/stb/stb_image_write.h:921-974 | what is written is a list of allowed tokens that expands to the data, every one of them the lazy choice with the hash table of its moment |
| ZCompress.TokensAreDetermined | _3rd/stb/stb_image_write.h:921-974 | data and quality determine the tokens |
| ZCompress.CompressFixed | _3rd/stb/stb_image_write.h:905-978 | header, lazily chosen tokens that expand to the data, end of block, padding: whole bytes, and the capacity of the buffer |
| ZCompress.FixedSize | _3rd/stb/stb_image_write.h:905-978 | the fixed form takes at most nine bits a byte and 33 bits more |
| ZCompress.StoreBlocks | _3rd/stb/stb_image_write.h:984-999 | stored blocks of at most 32767 bytes, the last one marked final, pushed and copied into the buffer as it is without growing it |
| ZCompress.StoredReadBack | _3rd/stb/stb_image.h:4409-4436 | stored blocks decode to the data |
| Adler32.Adler | _3rd/stb/stb_image_write.h:1001-1011 | block-wise sums are the sums of RFC 1950, and 32 bits never overflow in between |
| Adler32.SumsInOne | _3rd/stb/stb_image_write.h:1001-1011 | the second sum counts the first byte as often as there are bytes, the next one once less, and so on |
| Adler32.ModIsPrime | _3rd/stb/stb_image_write.h:1009 | the modulus is a prime |
| Adler32.ModIsLargest | _3rd/stb/stb_image_write.h:1009 | and no number from there to 65535 is one |
| ZlibRoundTrip.TrailerIsAdler | _3rd/stb/stb_image_write.h:1012-1015 | the last four bytes are the two reduced sums, the second one first, most significant byte first |
| ZlibRoundTrip.IntsExactly | _3rd/stb/stb_image_write.h:818-831 | every int of the compressor is in range if and only if the data have at most 2147156000 bytes, the output never more than 1610612734, no bucket more than 201326590 positions, and twice the quality is an int when a bucket is entered again |
| ZlibRoundTrip.SmallIsInRange | _3rd/stb/stb_image_write.h:895-999 | so they are for all data of at most 1431655757 bytes with a moderate quality |
| ZlibRoundTrip.StoredBlocksHaveRoom | _3rd/stb/stb_image_write.h:983-999 | the stored blocks fit into the capacity that the longer form had |
| ZlibRoundTrip.WholeIsAccepted | _3rd/stb/stb_image.h:4326-4331 | a stream that has all its bits is never refused for the lack of some |
| ZlibRoundTrip.Compress | _3rd/stb/stb_image_write.h:895-1022 | the stream is that of the lazily chosen tokens, or stored blocks when it is longer than they can be, then the checksum; it decodes to the data if there is any, to an error if there is none, is never longer than stored blocks, and leaves the buffer with the capacity of its largest size |
| ZlibRoundTrip.EmptyStreamFails | _3rd/stb/stb_image_write.h:984-999 | for no data the fallback writes no block, and the reader takes the checksum for a corrupt one |
| ZlibRoundTrip.Decode | _3rd/stb/stb_image.h:4481-4518 | a fresh decoder obeys the format on every input, truncated ones included |
| ZlibRoundTrip.RoundTrip | _3rd/stb/stb_image.h:4481-4518 | compressing and decoding gives the data back if and only if there is any, for all data and qualities with which the compressor computes within the range of int |
| PngFilter.ImageRoundTrip | _3rd/stb/stb_image_write.h:1146-1174 | filtering and reconstructing as in the PNG specification restores the rows, whatever filter each row has |
| PngFilter.PredictLaw | _3rd/stb/stb_image_write.h:1092-1126 | the predictions as section 9 of the PNG specification words them: half the sum rounded down, and the nearest of three neighbours with ties in their order |
| PngFilter.EncodedAt | _3rd/stb/stb_image_write.h:1172-1174 | the layout of the filtered data: the filter type of row j at j * (w + 1), its bytes behind it |
| PngFilter.PixelAt | _3rd/stb/stb_image.h:4737-4787 | every byte of the image is the one in the data plus the prediction from its left, upper and upper-left neighbours |
| PngWriter.EncodeLine | _3rd/stb/stb_image_write.h:1092-1126 | the line is the filtered row of the specification, the remapped first row included |
| PngWriter.LineCost | _3rd/stb/stb_image_write.h:1157-1160 | the sum of the distances from zero |
| PngWriter.SignedIsDistance | _3rd/stb/stb_image_write.h:1157-1160 | a byte counts by the smaller of b and 256 - b |
| PngWriter.ChooseFilter | _3rd/stb/stb_image_write.h:1151-1169 | the first filter with the smallest sum is chosen, and the line is filtered with it, whenever the sums are ints |
| PngWriter.NarrowRowsFit | _3rd/stb/stb_image_write.h:1157-1160 | the sums are ints for every row of at most 16777215 bytes |
| PngWriter.FilterRows | _3rd/stb/stb_image_write.h:1137-1174 | every row behind its filter type, the forced one or the first of the cheapest; estimates have to be ints only where they are made |
| PngReader.PaethsAgree | _3rd/stb/stb_image.h:4657-4668 | the reader's predictor, the writer's and the specification's are one function on bytes |
| PngReader.ReconstructRow | _3rd/stb/stb_image.h:4737-4785 | the current half of the buffer becomes the row of the specification, the special first row included |
| PngReader.FlattenAt | _3rd/stb/stb_image.h:4822-4826 | rows stand one after the other, each from left to right |
| PngReader.CreateImageRaw | _3rd/stb/stb_image.h:4696-4859 | the image holds exactly the rows that the specification reconstructs, byte i of row j at j * w + i; too little data and filter types above 4 are refused |
| PngReader.PixelsRoundTrip | _3rd/stb/stb_image.h:4737-4787 | pixels written with any filters are the pixels read |
| PngRoundTrip.SaveAndLoad | _3rd/stb/stb_image_write.h:1128-1178 | filtered, compressed, inflated and unfiltered, byte i of row j of the image is byte i of row j of the pixels, whatever lies between the rows, for every filter choice and compression level with which the ints of the row loop and of the compressor are in range |

## Left out

- Weak memory orders, cache alignment, waiting (`MultiLayerWait`), timing and printing.
- Starting and joining threads, and the constructors and `shutdown` of the scheduler and the executors: a thread's `run` is one call that ends when a load of its flag finds it down.
- Wrap-around of the 32-bit tag and generation and of the 64-bit positions; `bit_ceil` beyond 2^31.
- The move and placement-new machinery of `Action`: an action is an opaque value with an optional continuation, and chains of continuations are finite. Actions that throw.
- In the classes other threads act through lists of steps, not through objects of their own; the scheduler's and the executor's `run` are joined into one system in `PipelineMachine`, not through the heap.
- `FileLoad.hpp` jobs and `main.cpp`: file access and a pixel loop with no deep property.
- ZBuf.Decoder.ParseZlib: blocks with their own Huffman codes (`stbi__compute_huffman_codes`) are answered as unsupported. The compressor writes none.
- ZlibRoundTrip.Decode: the same.
- ZBuf.Decoder.constructor: a growing output buffer of initial size 0, on which the original's doubling loop does not end once it must grow (`DoublingEnds`).
- ZlibRoundTrip.RoundTrip: promises nothing for data and qualities outside `IntsInRange`, for which the original computes out of the range of `int`.
- ZBuf.Decoder.FillBits: pointers into the buffers are positions in sequences, and reallocation never fails for lack of memory.
- ZlibRoundTrip.Compress: allocation failure is not modelled. Outside `IntsInRange` the contract speaks of the stream as unbounded integers give it.
- PngWriter.ChooseFilter: rows whose estimates are not all ints, for which the original overflows.
- PngWriter.FilterRows: vertical flipping and negative strides are not modelled.
- PngReader.CreateImageRaw: 8-bit samples without an added alpha channel; other depths, palettes, interlacing and the limits on image size are not modelled.
- PNG chunks and their CRC, and a reader's check of the Adler checksum, which the original does not do either.
- All other formats of the two stb files.
