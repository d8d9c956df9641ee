# exios: the asynchronous completion engine, verified

exios runs asynchronous operations. An operation is built with a callback and a
`Work`; a callback is posted to its context's completion queue, an I/O operation is
scheduled on a descriptor with the context's scheduler, which posts it when epoll
reports the descriptor and the system call did not block, or when it is cancelled. Any
number of threads call `run()` on the context: each takes the whole queue, dispatches
it, polls the scheduler, and leaves when no `Work` is active.

The project models that engine from the list nodes up to the threads.

| files | part |
|---|---|
| IntrusiveList, SpliceLoop | the ring of `prev`/`next` links through an embedded sentinel, rewired in place; the loop of `splice` on one list |
| Operations, SchedulerSpec, SchedulerLaws, NotificationOrder, PollLaws, SchedulerRuns | the scheduler's calls as functions on values, what each of them does told without those functions, and their laws over every run |
| IoScheduler | the scheduler over the linked ring: binary search, insertion, cancellation, polling, each proved equal to its function |
| Engine, EngineInvariant, EnginePlace, EngineScheduler, EngineRuns | the whole engine as a transition system of critical sections, any number of runners and of other threads; an inductive invariant; the theorems about all runs |
| EngineCalls, EngineProgram | what each call of any thread does to the engine; that every runner, in every run, follows the program of run, run_once and poll_once |
| EngineNotification | a notification pass taken step by step among other threads is the scheduler's batch function |
| SoleRunner | what one runner guarantees: order across exceptions, no blocking with work; what a cancel that never returns does |
| ContextThread | `post`, `run_once` and `run` over two linked rings and the linked scheduler, with handlers that post, schedule, cancel, latch, release and throw |
| Work | the `Work` object, and one operation from construction to dispatch or discard |
| Timer | `wait_for_expiry_after` |
| Ipv4 | `parse_integer`, `parse_ipv4`, `reverse_byte_order` |

## Environment

- A descriptor with a waiting operation stays open, and distinct I/O objects have
  distinct descriptors.
- Every operation is built through `wrap_work`, and is scheduled with the scheduler
  of its own context.
- epoll is a map from descriptors to sets of directions, without the wake event. What
  a poll returns (events, or an error), and what each attempt at a system call answers
  (it would block, or it is done with a result), are arbitrary inputs.
- A handler may post, schedule, cancel, latch, move and release any number of times,
  and may throw.

## Results worth knowing

- **`cancel` does not always return.** It moves the cancelled block with `splice` to
  `begin_cancelled_`. When the block already ends there, holds two or more operations
  and is not the whole list, the loop of `splice` erases the item at its cursor and
  reinserts it behind the rest of the block for ever, with the scheduler's mutex held.
  `SpliceLoop.EndsIff` gives the exact condition for the loop,
  `SchedulerLaws.CancelHangsIff` for `cancel` (`CancelHangs` is something a caller can
  evaluate before the call), `SchedulerLaws.ThreeSchedules` a history of three calls that
  reaches it, and `SoleRunner.HungCancelIsFatal` its consequence. Everything else is
  proved for all runs, those with such a cancel included, except where a theorem names
  the condition. A timer never meets it, whatever other threads do between the two
  halves of a wait (`Timers.TimerNeverHangs`).
- **`schedule` can drop a registered direction.** Its shortcut for a descriptor at the
  end of the active prefix skips the loop that collects what the descriptor's other
  operations wait for, so the registration is replaced by the new direction alone.
  `SchedulerLaws.ScheduleMaskExact` says exactly when, and `ThreeSchedules` shows one
  case. This is why epoll agreement bounds the registered set by the directions waited
  for instead of equating the two; `SchedulerLaws.EndEventAgrees` restores equality
  after a notification pass has handled the descriptor.
- **`parse_ipv4` reduces octets.** Four digit runs always parse, and get their usual
  value if and only if none exceeds 255 (`Ipv4.UsualValueIff`); `256.0.0.1` parses, to 1
  (`Ipv4.LargeOctetWraps`).

## Model

| member | source | states |
|---|---|---|
| IntrusiveLists.IntrusiveList.constructor | include/exios/intrusive_list.hpp:25 | an empty list is a ring of its sentinel alone |
| IntrusiveLists.IntrusiveList.Empty | include/exios/intrusive_list.hpp:163-166 | true exactly when the represented sequence is empty |
| IntrusiveLists.IntrusiveList.Begin | include/exios/intrusive_list.hpp:294-301 | designates position 0, the sentinel when the list is empty |
| IntrusiveLists.IntrusiveList.Next | include/exios/intrusive_list.hpp:127-131 | moves an iterator from position k to k + 1, the end being the sentinel |
| IntrusiveLists.IntrusiveList.Prev | include/exios/intrusive_list.hpp:140-144 | moves an iterator from position k to k - 1 |
| IntrusiveLists.IntrusiveList.Insert | include/exios/intrusive_list.hpp:247-257 | on the links in place: the sequence gains the item ahead of `before`, stays duplicate-free, no node outside the list is written, `before` is returned |
| IntrusiveLists.IntrusiveList.Erase | include/exios/intrusive_list.hpp:168-182 | on the links in place: the sequence loses exactly that item and its successor is returned |
| IntrusiveLists.IntrusiveList.Front | include/exios/intrusive_list.hpp:184-195 | the first item of a non-empty list |
| IntrusiveLists.IntrusiveList.Back | include/exios/intrusive_list.hpp:197-208 | the last item of a non-empty list |
| IntrusiveLists.IntrusiveList.PushFront | include/exios/intrusive_list.hpp:210-217 | the new sequence is the item, then the old sequence |
| IntrusiveLists.IntrusiveList.PushBack | include/exios/intrusive_list.hpp:219-226 | the new sequence is the old sequence, then the item |
| IntrusiveLists.IntrusiveList.PopFront | include/exios/intrusive_list.hpp:238-245 | the sequence loses its first item |
| IntrusiveLists.IntrusiveList.PopBack | include/exios/intrusive_list.hpp:228-236 | the sequence loses its last item |
| IntrusiveLists.IntrusiveList.SpliceOnce | include/exios/intrusive_list.hpp:273-277 | one erase and insert on the same list is one step on the positions of the three iterators, `last` keeping its node |
| IntrusiveLists.IntrusiveList.SpliceWithin | include/exios/intrusive_list.hpp:259-286 | same list, every call whose loop ends: the range arrives as a block, in order, ahead of `before`, nothing else moves, `first` is returned, the whole-list call does nothing |
| IntrusiveLists.IntrusiveList.Transfer | include/exios/intrusive_list.hpp:273-277 | one iteration between two lists keeps both rings, keeps them disjoint, and keeps what the loop is still to produce |
| IntrusiveLists.IntrusiveList.SpliceFrom | include/exios/intrusive_list.hpp:259-280 | two lists, any range: one loses exactly the range, the other receives it in order ahead of `before`; the lists stay disjoint and no third node is touched |
| IntrusiveLists.IntrusiveList.SpliceAll | include/exios/intrusive_list.hpp:288-292 | the whole other list arrives in order ahead of `before`, the other list is left empty, and what was its begin() is returned |
| SpliceLoop.MovedStep | include/exios/intrusive_list.hpp:273-277 | an iteration keeps the list that moving the rest of the range will give |
| SpliceLoop.EndsMoved | include/exios/intrusive_list.hpp:272-279 | a loop that ends has moved the block in order after as many iterations as it has items |
| SpliceLoop.CursorStays | include/exios/intrusive_list.hpp:273-277 | with `before == last` and two or more items the positions are the same after any number of iterations |
| SpliceLoop.FullTurn | include/exios/intrusive_list.hpp:273-277 | then n iterations over n items bring the list and the iterators back to where they began |
| SpliceLoop.EndsIff | include/exios/intrusive_list.hpp:264-279 | for a non-empty range, not the whole list and not containing `before`: the loop ends if and only if it is not (`before == last` and two or more items) |
| SpliceLoop.RelinkTracks | include/exios/intrusive_list.hpp:168-182 | after an erase and insert, each iterator's new position designates the node it had, the cursor the successor |
| SpliceLoop.RotationExample | include/exios/intrusive_list.hpp:259-280 | two items at the back of a list of three, spliced to the end, never end |
| SchedulerSpec.LowerFrom | src/io_scheduler.cpp:222-225 | everything skipped is below the descriptor, what is found is not |
| SchedulerSpec.UpperFrom | src/io_scheduler.cpp:228-231 | everything skipped is at most the descriptor, what is found is above |
| SchedulerSpec.BoundsOrdered | src/io_scheduler.cpp:251-257 | over a sorted prefix the operations of a descriptor are exactly the positions between the two bounds |
| SchedulerLaws.ScheduleKeepsPartition | src/io_scheduler.cpp:191-240 | scheduling a new operation keeps the sorted uncancelled prefix and the cancelled suffix |
| SchedulerLaws.ScheduleKeepsEpoll | src/io_scheduler.cpp:204-235 | scheduling keeps epoll agreement, at every descriptor |
| SchedulerLaws.ScheduleRegisters | src/io_scheduler.cpp:208-231 | with nothing waiting, or a descriptor not above the first or below the last waiting, everything waited for on the descriptor is registered; otherwise the new direction alone |
| SchedulerLaws.ScheduleExact | src/io_scheduler.cpp:237-238 | the operation goes behind all of its descriptor and below and ahead of all above; no other slot, flag, cancelled operation or registration changes |
| SchedulerLaws.ScheduleMaskExact | src/io_scheduler.cpp:208-231 | in terms of the branch: the registered directions are all those waited for if and only if the tail branch was not taken over an operation of the same descriptor and another direction |
| SchedulerLaws.ThreeSchedules | src/io_scheduler.cpp:214-216 | three schedules from empty after which reading is not registered although waited for, and a cancel hangs |
| SchedulerLaws.CancelRangeExact | src/io_scheduler.cpp:249-257 | the range found is exactly the active operations of the descriptor |
| SchedulerLaws.CancelKeepsPartition | src/io_scheduler.cpp:242-282 | cancel keeps the partition: what it moves holds `operation_canceled`, what stays holds nothing |
| SchedulerLaws.CancelKeepsEpoll | src/io_scheduler.cpp:277-279 | removing the registration agrees with the prefix having lost the descriptor, and disturbs no other |
| SchedulerLaws.CancelMoves | src/io_scheduler.cpp:264-275 | the prefix loses exactly the descriptor's operations, the suffix gains them, in order, in front, and the length is unchanged |
| SchedulerLaws.CancelExact | src/io_scheduler.cpp:249-279 | cancel cuts the prefix in three: the middle, exactly the descriptor's operations, moves in front of the suffix, flagged and holding `operation_canceled`; every other operation, slot, flag and registration is as it was; with an empty middle nothing changes |
| SchedulerLaws.CancelIsMoved | src/io_scheduler.cpp:274-275 | over the whole list that is the block move of `splice` to the boundary |
| SchedulerLaws.CancelHangsIff | src/io_scheduler.cpp:274-275 | the checkable condition holds if and only if the splice inside cancel is not the whole-list case and its loop never ends |
| SchedulerLaws.BeginMidPass | src/io_scheduler.cpp:54-63 | the invariant of the loop over one event holds where the search leaves the cursor |
| SchedulerLaws.TryItemKeepsPartition | src/io_scheduler.cpp:65-110 | one turn of that loop keeps the partition |
| SchedulerLaws.TryItemKeepsMidPass | src/io_scheduler.cpp:65-110 | one turn keeps the counts, the collected directions and the agreement of every other descriptor |
| SchedulerLaws.PassUnion | src/io_scheduler.cpp:70-74 | when the loop ends the collected directions are all those still waited for on the descriptor |
| SchedulerLaws.PassEmpty | src/io_scheduler.cpp:115-119 | the counts agree exactly when nothing is still waited for |
| SchedulerLaws.EndEventAgrees | src/io_scheduler.cpp:112-128 | the re-registration restores agreement everywhere, with equality at the descriptor, and the modification never targets an unregistered descriptor |
| NotificationOrder.RunItemsFilters | src/io_scheduler.cpp:65-110 | the inner loop, which erases while walking, leaves the filter of the tail and posts its complement |
| NotificationOrder.RunItemsResults | src/io_scheduler.cpp:65-110 | exactly the posted operations gain a result, the one their attempt returned; nothing else changes |
| NotificationOrder.EventFilters | src/io_scheduler.cpp:46-131 | one event: the list afterwards is the old one less the operations that completed, order unchanged; they are posted in list order; all are of the descriptor and chosen direction |
| NotificationOrder.EventExact | src/io_scheduler.cpp:94-128 | exactly the completed operations gain a result, their attempt's; the descriptor is registered for exactly what still waits on it; cancelled operations, flags and every other registration are as they were |
| NotificationOrder.OnlyMatchingTried | src/io_scheduler.cpp:76-96 | only operations of the descriptor and chosen direction are tried: whatever the system would answer for any other, the event does the same |
| NotificationOrder.EventKeeps | src/io_scheduler.cpp:46-131 | one event keeps partition and epoll agreement |
| NotificationOrder.PassFilters | src/io_scheduler.cpp:36-134 | the same over every batch of events and every outcome, completions in event order and then list order |
| NotificationOrder.PassConserves | src/io_scheduler.cpp:106-133 | remaining and completed together are the old list as multisets and by count; each completed operation matches some event of the batch |
| PollLaws.EnoughIff | src/io_scheduler.cpp:320-352 | a list of rounds is long enough if and only if one of them ends the loop: a failure, a buffer not full, or any round of a call that may block |
| PollLaws.PollOfNone | src/io_scheduler.cpp:292-303 | with nothing waiting a poll posts the cancelled operations and does no more |
| PollLaws.PollExact | src/io_scheduler.cpp:289-355 | otherwise it posts the cancelled operations first, then what each round used completes, round after round; the prefix keeps the others; the rounds used are those up to the first that fails, is not full, or may block; it throws if and only if the last one failed; only the completed gain results |
| PollLaws.EntryExact | src/io_scheduler.cpp:300-324 | the system is not asked with nothing waiting, and asked without a timeout exactly when the call may block, nothing was cancelled and something waits |
| PollLaws.PollConserves | src/io_scheduler.cpp:320-352 | what the rounds complete and what they leave are together what there was |
| NotificationOrder.ScheduleAppends | src/io_scheduler.cpp:201-238 | scheduling appends to the operations of its own descriptor and direction and to no other such queue |
| NotificationOrder.CompletesFromFront | src/io_scheduler.cpp:86-110 | when a would-block lasts, an event completes a prefix of the waiting operations of its descriptor and direction |
| SchedulerRuns.DoKeeps | src/io_scheduler.cpp:191-355 | schedule, cancel, the processing of cancellations and an event keep partition and epoll agreement |
| SchedulerRuns.RunKeeps | src/io_scheduler.cpp:191-355 | so does every sequence of them, in any order, up to a cancel that hangs |
| SchedulerRuns.DoInOrder | src/io_scheduler.cpp:191-355 | one call: what waited, then what arrives, equals what completes, then what waits |
| SchedulerRuns.CompletionOrder | src/io_scheduler.cpp:54-110 | over a whole run that does not cancel the descriptor, its operations of one direction complete in the order scheduled |
| IoSchedulers.IoScheduler.constructor | src/io_scheduler.cpp:158-161 | an empty list, no cancelled suffix, nothing registered |
| IoSchedulers.IoScheduler.Empty | src/io_scheduler.cpp:284-287 | the counter is zero exactly when both regions are empty |
| IoSchedulers.IoScheduler.FindLower | src/io_scheduler.cpp:54-57 | the halving search over the links finds the first position not below the descriptor |
| IoSchedulers.IoScheduler.StartingPosition | src/io_scheduler.cpp:201-226 | a descriptor above the first and not below the last starts at the end of the prefix, every other at its lower bound |
| IoSchedulers.IoScheduler.FindInsertPos | src/io_scheduler.cpp:201-231 | all branches with the skip loop arrive at the upper bound, having collected everything waited for on the descriptor, or in that one case the new direction alone |
| IoSchedulers.IoScheduler.Schedule | src/io_scheduler.cpp:191-240 | the linked scheduler refines the insertion at the upper bound, counter and registration included |
| IoSchedulers.IoScheduler.FindOther | src/io_scheduler.cpp:256-257 | finds the end of the descriptor's run |
| IoSchedulers.IoScheduler.MarkCancelled | src/io_scheduler.cpp:266 | marks exactly the operations of the range, slots and flags |
| IoSchedulers.IoScheduler.SpliceRange | src/io_scheduler.cpp:274-275 | the boundary afterwards designates the first node of the moved block |
| IoSchedulers.IoScheduler.Cancel | src/io_scheduler.cpp:242-282 | on every call that returns, the linked scheduler refines the specification's cancel, and no node enters or leaves the list |
| IoSchedulers.IoScheduler.ProcessCancellations | src/io_scheduler.cpp:136-152 | the suffix is erased and posted front first, the boundary ends at the end of the list |
| IoSchedulers.IoScheduler.TryOne | src/io_scheduler.cpp:67-109 | one turn on the links refines the specification's turn; the cursor survives the erase |
| IoSchedulers.IoScheduler.RunPass | src/io_scheduler.cpp:54-110 | the search and the loop refine the specification's loop, both counts and the collected directions included |
| IoSchedulers.IoScheduler.ProcessEvent | src/io_scheduler.cpp:46-130 | one event refines its specification; the expected modification of epoll cannot fail for want of a registration |
| IoSchedulers.IoScheduler.ProcessNotifications | src/io_scheduler.cpp:36-134 | the batch refines its specification; the total returned is the number removed and the number posted; the erased nodes are distinct and out of the list |
| IoSchedulers.IoScheduler.NotifyAndCount | src/io_scheduler.cpp:338-350 | the counter stays the length of the list and does not underflow |
| IoSchedulers.IoScheduler.PollRounds | src/io_scheduler.cpp:320-354 | the do-while loop over any finite number of rounds, a failing poll included |
| IoSchedulers.IoScheduler.PollOnce | src/io_scheduler.cpp:289-355 | on the links: the cancelled suffix is posted, then the completions of the rounds used, in order; the first wait is without a timeout exactly when the call may block, nothing was cancelled and something waits; the scheduler's invariant and both of the source's checks hold |
| IoSchedulers.IoScheduler.Destroy | src/io_scheduler.cpp:180-184 | discards each remaining operation once, front first |
| EngineInvariant.InitialInv | src/context_thread.cpp:29-32 | the invariant holds when the context has just been built |
| EngineInvariant.WorkGained | include/exios/work.hpp:44-54 | building an operation latches one Work |
| EngineInvariant.WorkToHandler | include/exios/async_operation.hpp:42-48 | at dispatch the operation's Work becomes the running handler's, the count unchanged |
| EngineInvariant.WorkOfHandlerEnds | include/exios/work.hpp:63-71 | when a handler returns or unwinds the count is positive and drops by one |
| EngineInvariant.WorkLost | include/exios/async_io_operation.hpp:60-68 | discarding an unfinished operation releases its Work, from a positive count |
| EngineInvariant.CallWork | src/context_thread.cpp:46-58 | every call from any thread keeps the count equal to the number of active Work objects |
| EngineInvariant.RunWork | src/context_thread.cpp:74-141 | so does every step of a runner in run and run_once |
| EngineInvariant.PollWork | src/io_scheduler.cpp:289-355 | so does every step inside poll_once |
| EngineInvariant.CloseWork | src/context_thread.cpp:34-44 | so does the destructor, whose releases come from a positive count |
| EngineInvariant.RunLock | src/context_thread.cpp:74-141 | no step of run or run_once changes who has the scheduler's mutex, and each keeps every runner where the mutex says |
| EngineInvariant.RunWake | src/context_thread.cpp:84-95 | through take, throw, requeue and the guard's notify_all: an un-notified sleeper means an empty queue or a runner on its way to notify |
| EngineInvariant.PollWake | src/context_thread.cpp:60-67 | the same through the posts made from inside a poll |
| EnginePlace.SchedulePlace | src/io_scheduler.cpp:237-238 | scheduling moves an operation from built to the prefix, and no other |
| EnginePlace.CancelPlace | src/io_scheduler.cpp:264-275 | cancel moves the range, and only it, to the suffix, whether or not the call returns |
| EnginePlace.ErasePlace | src/io_scheduler.cpp:145-146 | an erased cancelled operation is in the poller's hand and in no list |
| EnginePlace.AttemptPlace | src/io_scheduler.cpp:94-107 | so is a completed one |
| EnginePlace.PostHandPlace | src/io_scheduler.cpp:107 | posting it moves it to the queue, and the scheduler keeps nothing of it |
| EnginePlace.TakePlace | src/context_thread.cpp:78-82 | taking a batch moves the whole queue to one runner |
| EnginePlace.DispatchPlace | src/context_thread.cpp:99-102 | a dispatch finishes exactly the front operation of the batch |
| EnginePlace.RequeuePlace | src/context_thread.cpp:86-95 | the guard moves all that the runner still holds back to the queue |
| EnginePlace.ClosePlace | src/context_thread.cpp:34-44 | teardown discards one operation at a time, each once |
| EngineScheduler.CallSched | src/io_scheduler.cpp:191-282 | whatever thread schedules or cancels, partition, counter and epoll stay in agreement |
| EngineScheduler.PollSched | src/io_scheduler.cpp:289-355 | each single step of a poll keeps the partition, the counter less what was erased and not yet subtracted, and epoll agreement outside the event being handled |
| EngineScheduler.AttemptSched | src/io_scheduler.cpp:65-110 | one attempt inside a pass keeps partition, counter and the pass invariant |
| EngineScheduler.CancelResults | src/async_io_operation.cpp:15-24 | a cancel, whether or not it returns, keeps every flagged operation at `operation_canceled` and every completion at its result |
| EngineScheduler.AttemptResults | src/io.cpp:61-86 | an attempt keeps that: the operation it takes in hand has a result |
| EngineScheduler.DispatchResults | include/exios/io.hpp:94-99 | what is dispatched keeps its result |
| EngineScheduler.CallSafe | src/context_thread.cpp:52-58 | a call never makes release_work underflow |
| EngineScheduler.RunSafe | include/exios/io.hpp:94-99 | an I/O operation that is dispatched has its result, and no release underflows |
| EngineScheduler.PollSafe | src/io_scheduler.cpp:24-28 | no subtraction from the counter underflows, the empty-list check holds, no result is written twice, and the modification of epoll finds its descriptor |
| EngineRuns.StepKeepsInv | src/context_thread.cpp:34-141 | every step of every thread keeps the whole invariant |
| EngineRuns.RunKeepsInv | src/context_thread.cpp:34-141 | hence every run |
| EngineRuns.ReachableExactlyOnce | src/context_thread.cpp:60-102 | in every reachable state of every interleaving each operation ever built is in exactly one place, once: built, active, cancelled, in a poller's hand, queued, in one runner's batch, dispatched or discarded |
| EngineRuns.ReachableSafe | src/io_scheduler.cpp:24-28 | in no run does any of the modelled checks fail |
| EngineRuns.ZeroIsQuiet | include/exios/work.hpp:32-78 | the count is zero if and only if nothing is built, scheduled, in hand, queued or held, no handler runs and the application holds no Work |
| EngineRuns.LeavesOnlyWhenQuiet | src/context_thread.cpp:119-141 | a runner whose test reads the count leaves run() if and only if the engine is quiet at that moment |
| EngineRuns.LeavingIsQuiet | src/context_thread.cpp:119-141 | by whatever step a runner leaves run(), unless an exception has unwound run_once, it is its test of the count, and the engine is quiet at that moment |
| EngineRuns.CancelExtends | src/io_scheduler.cpp:264-266 | cancel writes exactly the slots of its range, all of them empty before, and overwrites no result |
| EngineRuns.AttemptExtends | src/io.cpp:67-86 | an attempt writes exactly the slot of the operation it completes, empty before, with the result the system gave |
| EngineRuns.RunExtends | src/io.cpp:61-86 | over any continuation a result never changes, a cancelled operation holds `operation_canceled`, and the sequences posted, dispatched and discarded only grow |
| EngineCalls.BuildDoes | include/exios/work.hpp:39-54 | building latches one Work, for a new operation, and nothing else |
| EngineCalls.PostDoes | src/context_thread.cpp:60-67 | the operation is the last of the queue and no runner sleeps un-notified |
| EngineCalls.ScheduleDoes | src/io_scheduler.cpp:191-240 | the operation waits at its place, its direction is registered, the counter has grown by one, and nothing else has changed |
| EngineCalls.CancelDoes | src/io_scheduler.cpp:242-282 | the descriptor's operations are marked, and moved in front of the suffix if the call returns; it does not return exactly when `CancelHangs` says so; nothing else changes |
| EngineCalls.WorkDoes | include/exios/work.hpp:56-71 | latching, moving and releasing change the count by one, nothing, and one if there was one to release |
| EngineProgram.OthersKeepPlace | src/context_thread.cpp:119-141 | no step of another thread moves a runner in its program, but for notifying a sleeper, or touches what it holds the mutex for |
| EngineProgram.FollowsProgram | src/context_thread.cpp:74-141 | from any point of any run among any other threads, what a runner does is what the program says from its place on: the whole batch front first, a throw's rest put back, the poll exactly when the length read was not zero, and so on |
| EngineProgram.EveryRunnerFollows | src/io_scheduler.cpp:289-355 | from the start of every run: blocking only if the queue was seen empty, every cancelled operation posted in order, no timeout exactly when nothing was cancelled, every event delivered handled in order, another poll exactly after a full buffer of a call that may not block, and back to the test of the count |
| EngineProgram.CanGoOn | src/context_thread.cpp:74-141 | in every reachable state a runner's next step is possible, unless it is to take the scheduler's mutex while it is held |
| EngineNotification.RunEachIsRunEvents | src/io_scheduler.cpp:46-133 | a batch with one oracle for each event is the batch function |
| EngineNotification.OthersKeepPass | src/io_scheduler.cpp:338-345 | while a runner has the mutex for a pass no step of another thread touches the scheduler |
| EngineNotification.PassExplained | src/io_scheduler.cpp:36-134 | from any point of a pass, in any run to its end, what is left and what is posted are what the batch function has still to do |
| EngineNotification.PassIsRunEvents | src/io_scheduler.cpp:338-350 | from taking the mutex to giving it up, among any steps of other threads, what a runner leaves of the scheduler and what it posts, in order, are those of the batch function on the answers its attempts got |
| EngineNotification.PassIsStableFilter | src/io_scheduler.cpp:36-134 | so the stable filter and the order of completions hold of the engine |
| SoleRunner.RunInOrder | src/context_thread.cpp:74-102 | with one runner, dispatched, then held, then queued is what was posted, through every take, dispatch, throw and requeue |
| SoleRunner.DispatchedInPostingOrder | src/context_thread.cpp:74-141 | with one runner, over any number of re-entered run() calls, throwing handlers and other threads that post, the operations dispatched are a prefix of those posted, in order |
| SoleRunner.NeverBlocksWithWork | src/context_thread.cpp:104-135 | with one runner and all calls on its thread, the poll is entered without a timeout only when queue and suffix are empty and an operation waits, and the condition variable is waited on only when queue and scheduler are empty and work remains |
| SoleRunner.NoLostWakeUp | src/context_thread.cpp:123-132 | any number of runners: if one sleeps un-notified the queue is empty or some runner is about to notify |
| SoleRunner.StuckForGood | src/io_scheduler.cpp:242-282 | once a cancel hangs, no continuation frees the mutex or changes the prefix |
| SoleRunner.HungCancelIsFatal | src/io_scheduler.cpp:274-275 | then the operations of the prefix are never queued or dispatched, and the count never reaches zero |
| ContextThreads.DrainSplits | include/exios/intrusive_list.hpp:316-325 | a batch is dispatched up to and including its first throwing handler, the rest is left in order, and the world is what exactly those handlers made of it |
| ContextThreads.DrainInOrder | src/context_thread.cpp:86-95 | requeued in front, the rest of a batch keeps the posting order |
| ContextThreads.ContextThread.constructor | src/context_thread.cpp:29-32 | an empty queue, an empty scheduler, a zero count |
| ContextThreads.ContextThread.LatchWork | src/context_thread.cpp:46-50 | adds one to the count |
| ContextThreads.ContextThread.ReleaseWork | src/context_thread.cpp:52-58 | takes one from a count that is not zero |
| ContextThreads.ContextThread.PostNode | src/context_thread.cpp:60-67 | the node goes to the back of the queue |
| ContextThreads.ContextThread.Post | src/context_thread.cpp:60-67 | a callback is built with its Work and queued; the scheduler is untouched |
| ContextThreads.ContextThread.ScheduleIo | src/io_scheduler.cpp:191-240 | an operation is built with its Work and scheduled; the queue is untouched and the rings stay apart |
| ContextThreads.ContextThread.CancelIo | src/io_scheduler.cpp:242-282 | a cancel from a handler leaves the queue, the number pending and the nodes as they were |
| ContextThreads.ActAllExact | include/exios/work.hpp:39-71 | a handler's deeds, counted: the queue gains its posts in order, the scheduler takes its calls in order, the application holds as many more Work as it latched less those it released |
| ContextThreads.DrainExact | src/context_thread.cpp:97-102 | so do the deeds of all handlers of a batch that ran |
| ContextThreads.ContextThread.Handle | include/exios/async_operation.hpp:42-48 | on the linked context: the same, and the count grows by posts, schedules and latches less releases; posted stays what has left the queue followed by the queue |
| ContextThreads.ContextThread.TakeBatch | src/context_thread.cpp:76-82 | the queue moves whole into a list apart from both rings |
| ContextThreads.ContextThread.DispatchOne | include/exios/intrusive_list.hpp:320-324 | the front leaves the batch before its handler runs; the handler's deeds are done and counted; its Work ends with it, thrown or not |
| ContextThreads.ContextThread.Requeue | src/context_thread.cpp:86-95 | what is left goes in front of what was queued meanwhile |
| ContextThreads.ContextThread.DispatchBatch | src/context_thread.cpp:76-102 | after a throw at item k the queue is items k+1..n followed by everything posted meanwhile, and the number returned counts completed dispatches |
| ContextThreads.PollSpecHappened | src/context_thread.cpp:104-112 | the end of run_once: the system is asked without a timeout exactly when no completion is queued, nothing is cancelled and something waits; either way the cancelled operations and the completions are queued behind what was there |
| ContextThreads.ContextThread.PollAndPost | src/context_thread.cpp:104-112 | what a poll takes off the scheduler's list arrives on the queue in order, the two rings staying apart |
| ContextThreads.ContextThread.RunOnce | src/context_thread.cpp:74-115 | for every handler, in terms of what the batch did: after a throw no poll, the rest of the batch in front; otherwise the poll, blocking if and only if nothing is queued or cancelled and something waits, with its posts behind the queue; posted = dispatched + queued and count = pending operations and application Work |
| ContextThreads.CancelsKeepSize | src/io_scheduler.cpp:242-282 | any sequence of cancels keeps partition, epoll agreement and the number scheduled |
| ContextThreads.DrainCreatesNothing | src/context_thread.cpp:97-102 | a batch of handlers that create no work, whatever they cancel, is dispatched whole and leaves as much scheduled |
| ContextThreads.OnePass | src/context_thread.cpp:119-141 | such a pass dispatches the whole queue and then polls |
| ContextThreads.PassProgress | src/io_scheduler.cpp:289-323 | a pass that finds nothing queued leaves something queued |
| ContextThreads.ContextThread.RunPass | src/context_thread.cpp:119-141 | such a pass does not reach the wait, lowers the pending total by what it dispatched, and leaves the queue non-empty if it was empty |
| ContextThreads.ContextThread.Run | src/context_thread.cpp:119-141 | with no application Work, any handlers that neither throw nor create work but may cancel, and polls that deliver, run() ends, dispatches everything in order and returns exactly the number of operations pending at the start |
| Works.Counter.constructor | include/exios/work.hpp:32-78 | a zero count, no holder |
| Works.Work.constructor | include/exios/work.hpp:39-54 | latches: one more active holder |
| Works.Work.MovedFrom | include/exios/work.hpp:56-60 | the latch passes to the new object, the source lets go, the count is unchanged |
| Works.Work.Reset | include/exios/work.hpp:66-71 | releases if active, from a positive count, and only the first time |
| Works.Operation.constructor | include/exios/async_io_operation.hpp:36-44 | no result, not cancelled, one Work held |
| Works.Operation.PerformIo | src/io.cpp:67-86 | writes the slot exactly when the attempt is done |
| Works.Operation.Cancel | src/async_io_operation.cpp:20-24 | the slot holds `operation_canceled` and the flag is set |
| Works.Operation.Discard | include/exios/async_io_operation.hpp:60-68 | frees the operation and releases its Work |
| Works.Operation.Dispatch | include/exios/async_io_operation.hpp:70-76 | frees the operation, then invokes the callback with the result it held, the Work still counted meanwhile and released once afterwards, by returning and by throwing alike |
| Timers.WaitReplaces | include/exios/timer.hpp:34-58 | a wait cancels exactly what waited on the timer and leaves its own operation as the only one |
| Timers.WaitsReplaceEachOther | include/exios/timer.hpp:34-58 | of n waits before any poll the first n - 1 are cancelled, the last one first, and the n-th remains |
| Timers.StepKeepsTimerInv | include/exios/timer.hpp:34-58 | each half of a wait, and every call of any other thread, keeps at most one operation of the timer, and none between the halves |
| Timers.TimerNeverHangs | src/io_scheduler.cpp:242-282 | over every run of wait halves, cancels, events, cancellation processing and schedules of other descriptors, the timer has at most one active operation in every state and no cancel of it hangs |
| Timers.TimerFromEmpty | src/io_scheduler.cpp:242-282 | in particular from the empty scheduler on |
| Timers.Timer.WaitForExpiryAfter | include/exios/timer.hpp:34-58 | cancel, then post the completion, throw or schedule, over the linked context, whose rings, queue, history and count are those of the specification |
| Ipv4.ParseOctet | include/exios/utils.hpp:28-46 | succeeds exactly on a non-empty digit run, with its decimal value modulo 256, through per-step truncation |
| Ipv4.FindDot | src/utils.cpp:16 | the first dot from a position on, or the end |
| Ipv4.Verdict | src/utils.cpp:18-44 | an address exactly for four digit runs, packed highest octet first |
| Ipv4.Parse | src/utils.cpp:6-45 | the loop over the string decides as the split fields do, errors in the source's order included |
| Ipv4.JoinOfFields | src/utils.cpp:16-28 | joining the fields gives the string back |
| Ipv4.FieldsOfJoin | src/utils.cpp:16-28 | splitting a join of dot-free fields gives them back |
| Ipv4.SucceedsIff | src/utils.cpp:6-45 | a parse succeeds if and only if the string is four non-empty digit runs joined by dots |
| Ipv4.WrittenReadsBack | include/exios/utils.hpp:36-45 | a number written in decimal is a digit run with that value |
| Ipv4.PrintParse | src/utils.cpp:6-45 | printing then parsing any 32-bit address returns it |
| Ipv4.Rfc3986Address | src/utils.cpp:6-45 | every IPv4address of section 3.2.2 of RFC 3986 gets its usual value |
| Ipv4.UsualValueIff | src/utils.cpp:6-45 | four digit runs joined by dots get their usual value if and only if each is at most 255 |
| Ipv4.LargeOctetWraps | src/utils.cpp:6-45 | `256.0.0.1` is accepted and is 1 |
| Ipv4.ReverseByteOrder | include/exios/utils.hpp:14-26 | the copy from the far end yields the value of the reversed bytes |
| Ipv4.ValueOfBytes | include/exios/utils.hpp:14-26 | the bytes of a value that fits read back as it |
| Ipv4.BytesOfValue | include/exios/utils.hpp:14-26 | the value of some bytes has those bytes |
| Ipv4.ReverseTwice | include/exios/utils.hpp:14-26 | reversing twice is the identity at every width |

## Left out

- IntrusiveLists.IntrusiveList.SpliceWithin: `before` strictly inside the range is a precondition. The source only checks `before != first`; with `before` inside, the loop erases the node that `before` designates and links it to itself, so no list results.
- IntrusiveLists.IntrusiveList.Insert: positions are passed as ghost arguments beside the iterators, and an item that is already in the list is a precondition the source leaves to its callers.
- Move construction and move assignment of the list: the engine never uses them.
- IoSchedulers.IoScheduler.Cancel: states nothing of a call that does not return; that it does not is SchedulerLaws.CancelHangsIff, and what follows is in the engine model, where such a cancel holds the mutex for ever.
- Operation objects in the scheduler: a list node carries an immutable value (its identity, descriptor and direction); result slots and cancelled flags are tables of the scheduler. The slots as fields of an object are in Work.dfy.
- Posting from inside a poll: the linked scheduler returns what it has posted, in order, and the context queues it after the poll. The interleaving of single posts with other threads is in the engine model.
- IoSchedulers.IoScheduler.PollOnce: the rounds of the do-while loop are a list as long as the loop asks for; that the system stops filling its event buffer is assumed.
- ContextThreads.ContextThread.LatchWork: the check against the maximal count is not modelled, counters being unbounded.
- EngineRuns.ReachableSafe: of the source's checks, those of latch_work against the maximal count and of epoll_ctl failing for reasons other than a missing or present registration are not modelled.
- The engine's idle check and its wake-ups read the scheduler's counter and the work count without their mutexes. Any outcome of those reads that the queue allows is a step; theorems that need exact reads (SoleRunner.NeverBlocksWithWork) say that all calls are made on the runner's thread.
- SoleRunner.NoLostWakeUp: covers posted completions only. `release_work` and `schedule` notify without the queue's mutex, so no such claim follows from the code for them.
- ContextThreads.ContextThread.Run: the handlers are those that create no work, which is when the source guarantees an end, and their cancels are those that return (SchedulerLaws.CancelHangsIff); after one that does not, nothing ends (SoleRunner.HungCancelIsFatal).
- ContextThreads.ContextThread.DispatchOne: what a handler does is a function of its operation, and cancels that do not return are excluded as above; in the engine model a handler interleaves with every other thread.
- The wake event, the count of waiting threads and the delivery of cross-thread wake-ups: the count is read before a poller may have raised it, so nothing follows about delivery.
- Several contexts: one context with its scheduler; operations are scheduled with their own.
- Works.Operation.Cancel: overwrites whatever the slot holds, as the source does; that the slots the scheduler cancels are empty is EngineRuns.CancelExtends.
- Destruction: teardown discards each remaining operation once; member destruction order, and handlers' use of the context while it is being destroyed, are not modelled.
- Timers.Timer.WaitForExpiryAfter: the conversion of the duration and the timer system call are an input that says whether the timer was armed. The free function that waits on a fresh descriptor and `expire` are not modelled.
- Ipv4.Parse: the strings with four dots whose first four fields are digit runs and whose fifth is not empty are a precondition, because there the source writes a fifth octet before it counts.
- Ipv4.ReverseByteOrder: unsigned values on a little-endian machine; on a big-endian one both directions of the byte view are reversed and the result is the same.
- Operation kinds other than the one abstract read or write, the socket, event and signal wrappers, `Result`, allocators and concepts: thin layers over what is modelled.
