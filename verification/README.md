# Verification of the agent's event loop and object lifecycle

This project models the two stateful cores of the GPU agent in Dafny and proves what they keep.

* **The vendored libev event loop** (`sw/nic/third-party/libev-4.33`): the cross-thread wake-up,
  the pending queues and their re-entrant dispatch, the 4-heap with timers and periodics, the
  blocking time, the descriptor table with its change list, the poll, select and epoll backends,
  the dense watcher arrays, and `ev_once`.
* **The agent's own API engine** (`sw/nic/gpuagent`): GPUs, GPU watches, their reference counts
  and the two GPU indices.

## How it is organised

Code that updates structures in place is modelled by classes and methods with loops over arrays,
sequences and linked watchers. Each such method is proved against a function or relation on
values, and what the source promises is proved of those values, for all inputs, all runs or all
interleavings:

| layer | modules |
|---|---|
| wake-up as interleaved steps | `Wakeup`, `WakeupSteps`, `WakeupRuns` |
| watchers, queues, dispatch | `Events`, `Watchers`, `Queues`, `Histories`, `ReverseFeed`, `Callbacks`, `Dispatch` |
| heap and time | `FourHeap`, `Growth`, `WatcherHeaps`, `Expiry`, `Recalc`, `TimeSets`, `Timers`, `Periodics`, `Blocking` |
| descriptors and backends | `Interest`, `Delivery`, `FdTables`, `Epolls`, `PollSets`, `SelectSets`, `Backends` |
| other watchers | `DenseArrays`, `Onces`, `OnceRuns` |
| API engine | `GpuRefs` (values and runs), `GpuLogs` (the answered messages), `GpuEngine` (objects) |

The queues carry a history of what was fed, cleared and invoked; what a watcher is owed is a
function of that history alone, so "the OR of everything fed since the last clear or invocation"
does not mention slots. Nor does the order of calls: a call is fair if it delivers exactly what is
owed and no other debt goes before it, of higher priority or newer within the priority. What
arbitrary callbacks do is a script, and a dispatch accounts for every operation it adds to the
history. The epoll backend and the API engine likewise carry the sequence of steps
that brought them where they are, and their invariants say that the concrete state is what those
steps make of the initial one. What such a state means is then said without the functions that
compute it: which bits a watcher is owed, from the feeds in the history; what a backend reports,
from the watchers' masks; how a message is answered, from the messages and answers before it; that
a mark was sent, and is served, from the run. Assumptions: the default configuration (`EV_USE_4HEAP`,
`EV_HEAP_CACHE_AT`, five priorities, 64-bit `fd_mask`), exact time (`real`), sequential
consistency between threads.

## What turned out differently from what is promised

* **Order of timers** (`ev.pod` lines 1904-1907 promise order of expiry within a priority). A
  repeating timer that is still pending when it expires again keeps its old slot. Of two fired
  timers of a priority, the one that expired earlier is called first if and only if
  `Expiry.CalledFirst` holds: it has not kept a slot, or the other one has kept a lower one
  (`Expiry.OrderExactly`, `Expiry.CalledByExpiryExactly`, `Expiry.DrainedByExpiryExactly`).
  In each iteration `ev_run` itself empties the queues before the reification (`ev.c:4031`, `4063`,
  `4190`), and the promise holds for every timer that nobody feeds in between
  (`Expiry.EmptyQueuesKeepOrder`). It fails when the invocation is put off by an
  `ev_set_invoke_pending_cb`, or when a release or acquire callback feeds a timer:
  `Expiry.DeferredTimerIsOvertaken` is such a run from empty queues.
* **False time jumps.** Without a monotonic clock `ev_run` passes `waittime + sleeptime` to
  `time_update` even when `sleeptime` is negative and nothing was slept
  (`ev.c:4140-4170`). An undisturbed clock is then taken for a jump exactly when the loop may block,
  `io_blocktime` is set, and the callbacks have overrun it by more than `MIN_TIMEJUMP`
  (`Blocking.FalseJumpExactlyWhen`, `Blocking.Iterate`); `Blocking.FalseJump` is an example.
* **Epoll after a failure.** When changing an existing registration fails for a reason other than
  ENOENT or EEXIST, `epoll_modify` keeps the new mask in `emask` although the kernel keeps the old
  one. `Epolls.StepAgrees` and `Epolls.RunAgrees` say exactly when libev's view goes wrong;
  `Epolls.FailureIsRemembered` is a run after which a registration is taken for kept that the
  kernel never made.
* **Watch counters.** A watch creation that fails on a missing GPU does not undo earlier
  increments, so the GPUs it had counted can never be deleted again (`GpuRefs.LeakIsForever`). The
  counter has 32 bits: `GpuRefs.RunSound` says exactly which step can delete a watched GPU, and
  `GpuRefs.WrappedGpuIsDeleted` is such a run.

The periodic grid is no such case. `ev.pod` asks for intervals above 1/8192, for which the result
lies on the grid `offset + k * interval`; for shorter ones `Recalc.StartsOnGrid` is the condition,
and `Recalc.ShortIntervalLeavesGrid` an interval that does not meet it.

The fourth comparison on the slow path of `downheap` (`ev.c:2615`) can never be reached with its
condition true; the model omits it.

## Model

| member | source | states |
|---|---|---|
| Wakeup.StepKeeps | sw/nic/third-party/libev-4.33/ev.c:2777-2890 | every step of every thread keeps the inductive invariant: whoever clears a flag or `pipe_write_skipped` is, or leaves, somebody committed to waking the loop and looking at every mark |
| Wakeup.RunKeeps | sw/nic/third-party/libev-4.33/ev.c:4088-4167 | the invariant holds in every state of every interleaved run of any number of senders |
| Wakeup.NoLostWakeup | sw/nic/third-party/libev-4.33/ev.c:2777-2823 | if the loop is blocked, the pipe is empty and no sender is in a call, no summary flag and no mark is set, for asyncs and signals |
| Wakeup.QuietMeansDelivered | sw/nic/third-party/libev-4.33/ev.c:2827-2890 | the same from the invariant alone |
| WakeupRuns.SleepingLoopIsWoken | sw/nic/third-party/libev-4.33/ev.c:5437-5442 | a mark set while the loop is blocked is still set as long as it stays blocked, and by the time all senders have returned there is something in the pipe |
| WakeupSteps.StepTowards | sw/nic/third-party/libev-4.33/ev.c:2827-2890 | once the pipe is readable, queued or being served, no step of another thread takes the loop off its way to a set mark, and each of its own steps serves the mark or brings it closer |
| WakeupSteps.MarkIsServed | sw/nic/third-party/libev-4.33/ev.c:4137-4190 | however the threads are scheduled and whatever is sent meanwhile, the mark is served once the loop has taken as many steps of its own as the distance says |
| WakeupSteps.WokenLoopServes | sw/nic/third-party/libev-4.33/ev.c:2777-2890 | once the senders are done, a loop that was blocked over mark `w` of `n` serves it within `8 + 2 * (n - w)` steps of its own, or `2 * k + 3` more for an async beside `k` signals, whatever is sent from then on |
| WakeupSteps.LoopCanGoOn | sw/nic/third-party/libev-4.33/ev.c:4137-4190 | the loop thread is never stuck: one of its steps is always possible, with the readable pipe being reported |
| WakeupRuns.MarkStays | sw/nic/third-party/libev-4.33/ev.c:2827-2890 | in any run a mark stays until the step that serves it; nothing else in `pipecb`, `ev_run` or a sender takes it away |
| WakeupRuns.ServedWasSent | sw/nic/third-party/libev-4.33/ev.c:5437-5442 | in any run a watcher or signal is served only if it was sent since it was last served |
| WakeupRuns.SentIsServed | sw/nic/third-party/libev-4.33/ev.c:2777-2890 | in any run from the start, whatever else is sent: after `ev_async_send` or `ev_feed_signal` the mark stays until it is served, and that is before the loop has taken `Bound` further steps of its own, if no sender is in the middle of its call whenever the loop polls |
| WakeupRuns.IdleIsSettled | sw/nic/third-party/libev-4.33/ev.c:2777-2823 | which is so once the senders have returned |
| WakeupRuns.QuietLoopSleeps | sw/nic/third-party/libev-4.33/ev.c:4088-4158 | a loop with nothing pending and no skipped write is blocked two steps later |
| WakeupRuns.ReadDrains | sw/nic/third-party/libev-4.33/ev.c:2832-2866 | a read that was reported takes something out of the pipe, and all of an eventfd |
| Queues.FeedKeeps | sw/nic/third-party/libev-4.33/ev.c:2311-2329 | feeding keeps the queue invariant: slots and `pending` point at each other, every other live slot holds the dummy, slots hold exactly what the history owes, and newer debts lie nearer the top |
| Queues.ClearKeeps | sw/nic/third-party/libev-4.33/ev.c:4276-4302 | clearing keeps it, and nothing is owed afterwards |
| Queues.PopKeeps | sw/nic/third-party/libev-4.33/ev.c:3764-3771 | taking the top of the highest non-empty queue keeps it |
| Queues.PopIsFair | sw/nic/third-party/libev-4.33/ev.c:3764-3771 | the invocation delivers exactly what was owed, and no debt of higher priority, and no newer one of the same priority, is left waiting |
| Queues.EmptyMeansPaid | sw/nic/third-party/libev-4.33/ev.c:3754-3775 | with empty queues nobody is owed anything or marked pending |
| Queues.NewKeeps | sw/nic/third-party/libev-4.33/ev.c:3569-3577 | a new watcher that is not pending disturbs nothing |
| Queues.DrainPop | sw/nic/third-party/libev-4.33/ev.c:3764-3771 | taking the top removes exactly the first invocation from what a drain will do |
| Queues.NewerIsHigher | sw/nic/third-party/libev-4.33/ev.c:2311-2329 | of two pending watchers of a priority the one with the newer debt lies nearer the top, whatever was fed, cleared and invoked before |
| Queues.OwedExactly | sw/nic/third-party/libev-4.33/ev.c:2311-2329 | a watcher is owed something exactly if it was fed since it was last called or cleared, and then exactly the bits of all those feeds |
| Histories.NotCalledAgain | sw/nic/third-party/libev-4.33/ev.c:3754-3775 | in every fair history a watcher that is owed nothing and not fed any more is not called any more |
| Histories.DebtsAreCalled | sw/nic/third-party/libev-4.33/ev.c:3754-3775 | in every fair history a watcher that is owed something, is paid in the end and is neither fed nor cleared between is called exactly once, with exactly what it was owed |
| Histories.CalledInOrder | sw/nic/third-party/libev-4.33/ev.c:3754-3775 | of two such watchers the one whose debt goes before the other is called first |
| Histories.DrainedOnce | sw/nic/third-party/libev-4.33/ev.c:3754-3775 | draining the queues calls each watcher that is owed something exactly once |
| Histories.InvokedExactly | sw/nic/third-party/libev-4.33/ev.c:3764-3771 | every call in a fair history delivers exactly the bits fed since the watcher was last called or cleared |
| Callbacks.SparedIsUntouched | sw/nic/third-party/libev-4.33/ev.c:3764-3771 | of what a dispatch adds to the history, only calls concern a watcher that no callback feeds or clears |
| ReverseFeed.FeedBackOrder | sw/nic/third-party/libev-4.33/ev.c:2331-2344 | of two newly fed watchers of a priority the earlier lies nearer the top |
| ReverseFeed.FeedBackOwed | sw/nic/third-party/libev-4.33/ev.c:2338-2344 | a watcher of the batch is owed the fed events on top of what it was owed, and any other what it was owed before |
| ReverseFeed.ReverseFeedThenDrain | sw/nic/third-party/libev-4.33/ev.c:2331-2344 | reverse feeding and last-in-first-out invocation cancel: the batch is invoked in its own order |
| ReverseFeed.PendingIsInvokedLater | sw/nic/third-party/libev-4.33/ev.c:2331-2344 | a watcher that was pending already is invoked after every newly queued one of its priority |
| Dispatch.Loop.Adopt | sw/nic/third-party/libev-4.33/ev.c:3569-3577 | an initialised watcher becomes known without disturbing queues or counts |
| Dispatch.Loop.FeedEvent | sw/nic/third-party/libev-4.33/ev.c:2311-2329 | the queues become exactly what the specification of feeding says, and `pendingpri` the top |
| Dispatch.Loop.ClearPending | sw/nic/third-party/libev-4.33/ev.c:4276-4302 | the watcher is owed nothing, and what it was owed is returned |
| Dispatch.Loop.FeedReverseDone | sw/nic/third-party/libev-4.33/ev.c:2338-2344 | the whole batch is fed, last first, and is empty afterwards |
| Dispatch.Loop.TakeTop | sw/nic/third-party/libev-4.33/ev.c:3767-3769 | the entry is taken off and its watcher is no longer pending, with no higher queue occupied |
| Dispatch.Loop.RunActions | sw/nic/third-party/libev-4.33/ev.c:3766-3771 | what a callback adds to the history is exactly the feeds and clears it asks for, each as often, and those of the callbacks it has invoked itself, besides fair calls; every priority above `pendingpri` is empty afterwards |
| Dispatch.Loop.InvokePending | sw/nic/third-party/libev-4.33/ev.c:3754-3775 | for every script of callbacks: terminates with all queues empty, and has added to the history nothing but fair calls and exactly the feeds and clears the callbacks ask for; without any it invokes by falling priority, last in, first out |
| Dispatch.Loop.PendingAreCalled | sw/nic/third-party/libev-4.33/ev.c:3754-3775 | whatever the other callbacks do, a watcher that was owed something and that none of them feeds or clears is called exactly once, with exactly what it was owed |
| Dispatch.Loop.PendingAreCalledInOrder | sw/nic/third-party/libev-4.33/ev.c:3754-3775 | of two such watchers the one whose debt goes before the other is called first |
| Dispatch.Loop.HigherPriorityIsAhead | sw/nic/third-party/libev-4.33/ev.c:3754-3775 | and that is the pending watcher with the higher `priority` |
| Dispatch.Loop.PriAdjust | sw/nic/third-party/libev-4.33/ev.c:4304-4311 | the priority is clamped; a pending watcher's does not change |
| Dispatch.Loop.EvStart | sw/nic/third-party/libev-4.33/ev.c:4313-4319 | one more active watcher, one more in `activecnt`; its priority becomes the nearest valid one |
| Dispatch.Loop.EvStop | sw/nic/third-party/libev-4.33/ev.c:4321-4326 | one less of both |
| Dispatch.Loop.Ref | sw/nic/third-party/libev-4.33/ev.c:4214-4218 | `activecnt` stays active watchers plus references |
| Dispatch.Loop.Unref | sw/nic/third-party/libev-4.33/ev.c:4220-4224 | likewise |
| Growth.ArrayNextsize | sw/nic/third-party/libev-4.33/ev.c:2246-2265 | terminates with at least `cnt` and at least `2 * (cur + 1)` elements, also after rounding for the allocator |
| FourHeap.ParentIndex | sw/nic/third-party/libev-4.33/ev.c:2584-2587 | `HPARENT` with C's division: the root is its own parent, every other index has its parent in the tree |
| FourHeap.UpHeap | sw/nic/third-party/libev-4.33/ev.c:2669-2689 | moving one entry up repairs a heap that is wrong only there |
| FourHeap.DownHeap | sw/nic/third-party/libev-4.33/ev.c:2589-2632 | moving one entry down repairs a heap that is wrong only there |
| FourHeap.AdjustHeap | sw/nic/third-party/libev-4.33/ev.c:2691-2699 | replacing any entry and adjusting it gives a heap of the same entries |
| FourHeap.RootIsMin | sw/nic/third-party/libev-4.33/ev.c:3579-3593 | the root is the minimum of all entries, not only of its children |
| FourHeap.ReheapHeap | sw/nic/third-party/libev-4.33/ev.c:2701-2711 | pushing up one entry after the other makes a heap of any entries, with the same entries |
| FourHeap.ShiftKeepsHeap | sw/nic/third-party/libev-4.33/ev.c:3934-3947 | the same shift of all times keeps heap order |
| FourHeap.MinChildPos | sw/nic/third-party/libev-4.33/ev.c:2601-2615 | the fast and the slow path both find the first smallest child |
| FourHeap.Upheap | sw/nic/third-party/libev-4.33/ev.c:2669-2689 | the array becomes the specified tree, and every watcher's `active` is its index |
| FourHeap.Downheap | sw/nic/third-party/libev-4.33/ev.c:2589-2632 | likewise, and nothing outside the heap changes |
| FourHeap.Adjustheap | sw/nic/third-party/libev-4.33/ev.c:2691-2699 | likewise |
| FourHeap.Reheap | sw/nic/third-party/libev-4.33/ev.c:2701-2711 | likewise, from any contents |
| WatcherHeaps.InsertKeeps | sw/nic/third-party/libev-4.33/ev.c:4396-4401 | the heap holds its old watchers and the new one, with their times |
| WatcherHeaps.DeleteKeeps | sw/nic/third-party/libev-4.33/ev.c:4418-4430 | the heap holds all watchers but the one removed |
| WatcherHeaps.ReplaceKeeps | sw/nic/third-party/libev-4.33/ev.c:4451-4453 | a new time for one watcher changes that time and nothing else |
| WatcherHeaps.WatcherHeap.Insert | sw/nic/third-party/libev-4.33/ev.c:4396-4401 | heap order, back-indices and cached times hold, with exactly the watcher added |
| WatcherHeaps.WatcherHeap.Remove | sw/nic/third-party/libev-4.33/ev.c:4418-4430 | the same with exactly the watcher removed |
| WatcherHeaps.WatcherHeap.Reposition | sw/nic/third-party/libev-4.33/ev.c:4451-4453 | a changed time is cached and moved to its place |
| WatcherHeaps.WatcherHeap.SinkRoot | sw/nic/third-party/libev-4.33/ev.c:3825-3826 | the same for the root, by `downheap` alone |
| WatcherHeaps.WatcherHeap.Earliest | sw/nic/third-party/libev-4.33/ev.c:3579-3593 | the root's watcher is the earliest of all |
| WatcherHeaps.WatcherHeap.Rebuild | sw/nic/third-party/libev-4.33/ev.c:2701-2711 | `reheap` turns any updated times into a valid heap of the same watchers |
| WatcherHeaps.WatcherHeap.Shift | sw/nic/third-party/libev-4.33/ev.c:3934-3947 | every watcher's time moves by the same amount and the heap stays valid with no rebuild |
| Expiry.FiredAll | sw/nic/third-party/libev-4.33/ev.c:3803-3838 | when none is due any more, exactly the watchers that were due have been fired |
| Expiry.FireShrinks | sw/nic/third-party/libev-4.33/ev.c:3810-3834 | each round takes one watcher out of the finite set of due ones: the loop ends |
| Expiry.InvokedByExpiry | sw/nic/third-party/libev-4.33/ev.c:3803-3838 | two fired watchers of one priority are drained by original expiry if the earlier one has not kept a slot or the other has kept a lower one |
| Expiry.PendingTimerIsLate | sw/nic/third-party/libev-4.33/ev.c:3817-3836 | and in the opposite order otherwise |
| Expiry.OrderExactly | sw/nic/third-party/libev-4.33/ev.c:3817-3836 | the debt of the timer that expired earlier goes before the other if and only if that condition holds, for any two fired timers of one priority |
| Expiry.CalledByExpiryExactly | sw/nic/third-party/libev-4.33/ev.c:3803-3838 | so in every fair run that goes on from there and calls both once, the order of the calls is the order of expiry if and only if it holds |
| Expiry.DrainedByExpiryExactly | sw/nic/third-party/libev-4.33/ev.c:3754-3775 | the drain calls each of the two exactly once, in the order of expiry if and only if it holds |
| Expiry.EmptyQueuesKeepOrder | sw/nic/third-party/libev-4.33/ev.c:4173-4190 | it holds for every timer that nobody has fed since the queues were last empty |
| Expiry.DeferredTimerIsOvertaken | sw/nic/third-party/libev-4.33/ev.c:2331-2344 | a run from empty queues in which a put-off repeating timer is called after one that expired later |
| TimeSets.TimeSet.FireDue | sw/nic/third-party/libev-4.33/ev.c:3810-3834 | fires every due watcher once in order of expiry, and leaves none due |
| TimeSets.NoDrift | sw/nic/third-party/libev-4.33/ev.c:3813-3826 | a repeating timer that the loop comes to before it is due again is due at exact multiples of its interval, however late it was in between |
| TimeSets.LateIsOnce | sw/nic/third-party/libev-4.33/ev.c:3813-3826 | one that the loop comes to later is due at once, and once |
| TimeSets.GridIsFollowed | sw/nic/third-party/libev-4.33/ev.c:3880-3893 | a periodic reified before the next grid point is due at exactly that one |
| Timers.TimerStart | sw/nic/third-party/libev-4.33/ev.c:4383-4406 | the timer is added with its absolute time, nothing else changes |
| Timers.TimerStop | sw/nic/third-party/libev-4.33/ev.c:4408-4437 | the timer is removed, cleared, and keeps its remaining time |
| Timers.TimerAgain | sw/nic/third-party/libev-4.33/ev.c:4439-4465 | a repeating timer is active from now on, any other is stopped; what was owed is cleared, and nothing else changes in the queues, the heap and the set of active watchers |
| Timers.TimersReify | sw/nic/third-party/libev-4.33/ev.c:3803-3838 | every due timer fires exactly once, none is due afterwards, repeating ones get the right next time, and the queues hold the reverse feed |
| Timers.ExpireAndInvoke | sw/nic/third-party/libev-4.33/ev.c:4173-4190 | end to end, for every script of callbacks: after `timers_reify` and `ev_invoke_pending` none is due or queued; each fired timer that no callback touches has been called exactly once, with exactly what it was owed, and of two of one priority the earlier one first if and only if the condition above holds |
| Timers.TimersReschedule | sw/nic/third-party/libev-4.33/ev.c:3934-3947 | all timers move, the heap stays valid |
| Recalc.EvFloor | sw/nic/third-party/libev-4.33/ev.c:1900-1934 | terminates with the true floor of negative, small and large numbers |
| Recalc.PeriodicRecalc | sw/nic/third-party/libev-4.33/ev.c:3842-3865 | terminates with a time in `(now, now + interval]`; for long intervals the grid point; on the grid if and only if `StartsOnGrid`, which a caller can compute |
| Recalc.StartsOnGridIs | sw/nic/third-party/libev-4.33/ev.c:3846-3847 | that condition is that the first candidate lies on the grid: the interval is at least `MIN_INTERVAL`, or divides the multiple of `MIN_INTERVAL` from which the search starts |
| Recalc.LongIntervalStartsOnGrid | sw/nic/third-party/libev-4.33/ev.c:3846-3847 | for intervals of at least `MIN_INTERVAL` it does |
| Recalc.ShortIntervalLeavesGrid | sw/nic/third-party/libev-4.33/ev.c:3846-3847 | a shorter interval for which it does not |
| Recalc.GridPointUnique | sw/nic/third-party/libev-4.33/ev.c:3842-3865 | there is only one grid point in `(now, now + interval]` |
| Periodics.PeriodicStart | sw/nic/third-party/libev-4.33/ev.c:4474-4508 | the periodic is added at the time its mode prescribes |
| Periodics.PeriodicStop | sw/nic/third-party/libev-4.33/ev.c:4510-4537 | the periodic is removed and owed nothing |
| Periodics.PeriodicAgain | sw/nic/third-party/libev-4.33/ev.c:4539-4547 | it is active at a freshly computed time |
| Periodics.PeriodicsReify | sw/nic/third-party/libev-4.33/ev.c:3867-3907 | every due periodic fires exactly once and none is due afterwards; the outer loop needs one turn |
| Periodics.PeriodicsReschedule | sw/nic/third-party/libev-4.33/ev.c:3909-3931 | every periodic gets its recalculated time, also one in the past from `reschedule_cb`, and the heap is valid again |
| Blocking.BlockingTime | sw/nic/third-party/libev-4.33/ev.c:4077-4151 | sleep plus wait is at most the time to every active timer and periodic or the configured minimums, and at least these minimums; it does not end before something is due or the longest wait of the configuration (with or without timerfd) is over; splitting off the sleep conserves it |
| Blocking.FalseJumpExactlyWhen | sw/nic/third-party/libev-4.33/ev.c:4004-4016 | an undisturbed clock is taken for a jump if and only if the loop may block, `io_blocktime` is set and the callbacks took more than that and `MIN_TIMEJUMP` |
| Blocking.Iterate | sw/nic/third-party/libev-4.33/ev.c:4077-4170 | the same of what one iteration computes and then passes on |
| Blocking.FalseJump | sw/nic/third-party/libev-4.33/ev.c:4137-4170 | an instance |
| Blocking.JumpExactlyWhen | sw/nic/third-party/libev-4.33/ev.c:4004-4016 | a clock that was set is found out exactly if it went back behind the start of the wait, or forward by more than `MIN_TIMEJUMP` and what was left of the wait |
| DenseArrays.AppendKeeps | sw/nic/third-party/libev-4.33/ev.c:5125-5139 | appending keeps `ws[i].active == i + 1` for exactly the members |
| DenseArrays.RemoveKeeps | sw/nic/third-party/libev-4.33/ev.c:5141-5160 | so does moving the last element to the gap, also when the last is removed |
| DenseArrays.DenseArray.Start | sw/nic/third-party/libev-4.33/ev.c:5356-5371 | the watcher is appended; `activecnt` grows, except for cleanup watchers |
| DenseArrays.DenseArray.Stop | sw/nic/third-party/libev-4.33/ev.c:5373-5393 | the watcher is cleared and removed; `activecnt` is compensated for cleanup watchers |
| Interest.AddToList | sw/nic/third-party/libev-4.33/ev.c:4254-4259 | adding at the head keeps every descriptor's list acyclic, without repetition and complete |
| Interest.DroppedLists | sw/nic/third-party/libev-4.33/ev.c:4261-4274 | so does removing anywhere |
| Interest.FlagKeepsChanges | sw/nic/third-party/libev-4.33/ev.c:2470-2484 | the change list holds exactly the flagged descriptors, each once |
| Interest.TakeChange | sw/nic/third-party/libev-4.33/ev.c:2434-2444 | also while `fd_reify` walks along it |
| Interest.MoveToFront | sw/nic/third-party/libev-4.33/ev.c:2461-2467 | and after what was appended meanwhile is moved to the front |
| Interest.OrBits | sw/nic/third-party/libev-4.33/ev.c:2446-2452 | a bit is in the OR exactly if some watcher asks for it |
| Interest.AddedKeeps | sw/nic/third-party/libev-4.33/ev.c:4347-4356 | starting keeps lists, change list and the cached interest of unflagged descriptors |
| Interest.DroppedKeeps | sw/nic/third-party/libev-4.33/ev.c:4375-4378 | so does stopping |
| Interest.TakenKeeps | sw/nic/third-party/libev-4.33/ev.c:2436-2452 | taking a change makes its descriptor's cached events the OR of its watchers |
| Interest.ReifiedInterest | sw/nic/third-party/libev-4.33/ev.c:2392-2468 | a descriptor without a change caches exactly the OR |
| Delivery.FeedEachOwed | sw/nic/third-party/libev-4.33/ev.c:2357-2370 | walking a list adds to each watcher exactly the events it wants, and to nobody else anything |
| Delivery.FeedEachBits | sw/nic/third-party/libev-4.33/ev.c:2357-2370 | bit by bit: what was delivered and is in the watcher's mask is added to what it is owed, and nothing else to anybody |
| Delivery.KilledOwed | sw/nic/third-party/libev-4.33/ev.c:2487-2497 | every watcher of a killed list is owed exactly the error events |
| Delivery.FailedHas | sw/nic/third-party/libev-4.33/ev.c:2487-2497 | the error comes with both directions and no other bit |
| FdTables.FdTable.FdChange | sw/nic/third-party/libev-4.33/ev.c:2470-2484 | the table becomes what the specification says and stays in order |
| FdTables.FdTable.WlistDel | sw/nic/third-party/libev-4.33/ev.c:4261-4274 | terminates having taken exactly the watcher out of its list |
| FdTables.FdTable.IoStart | sw/nic/third-party/libev-4.33/ev.c:4330-4359 | the table becomes what the specification says, with the watcher first on its list and the descriptor flagged; the watcher keeps exactly the directions it was set to and loses `EV__IOFDSET`, which the descriptor gets |
| FdTables.FdTable.IoStop | sw/nic/third-party/libev-4.33/ev.c:4361-4381 | the watcher is cleared and off its list, the descriptor flagged |
| FdTables.FdTable.FdKill | sw/nic/third-party/libev-4.33/ev.c:2487-2497 | terminates with the list empty and every former member stopped and owed the error; the other lists are untouched |
| FdTables.FdTable.KilledArePending | sw/nic/third-party/libev-4.33/ev.c:2487-2497 | every former member of a killed list is pending and owed exactly the error |
| FdTables.FdTable.FlaggedIsListed | sw/nic/third-party/libev-4.33/ev.c:2470-2484 | what is flagged is on the change list |
| FdTables.FdTable.FdEventNocheck | sw/nic/third-party/libev-4.33/ev.c:2357-2370 | feeds exactly the watchers of the list that want some of the events |
| FdTables.FdTable.FdEvent | sw/nic/third-party/libev-4.33/ev.c:2372-2381 | feeds nothing to a flagged descriptor |
| FdTables.FdTable.ListIsExact | sw/nic/third-party/libev-4.33/ev.c:3621-3639 | a list holds exactly the active io watchers of its descriptor, each once, and ends |
| FdTables.FdTable.TakeChange | sw/nic/third-party/libev-4.33/ev.c:2434-2456 | clears the flags, computes the OR, and decides as the source does whether the backend must know |
| FdTables.FdTable.ForgetChanges | sw/nic/third-party/libev-4.33/ev.c:2461-2467 | exactly what was appended during the pass remains |
| FdTables.FdTable.OrForBits | sw/nic/third-party/libev-4.33/ev.c:2446-2452 | the interest of a descriptor has a bit exactly if some active watcher on it asks for it |
| PollSets.PollSet.Modify | sw/nic/third-party/libev-4.33/ev_poll.c:54-89 | the descriptor is polled for exactly the new mask, all others as before, with no useless entry; POLLIN is asked for exactly if the mask has reading, POLLOUT exactly if it has writing |
| PollSets.DropKeeps | sw/nic/third-party/libev-4.33/ev_poll.c:77-88 | swap removal keeps array and reverse index inverse to each other |
| PollSets.EachOnce | sw/nic/third-party/libev-4.33/ev_poll.c:54-89 | the array lists each descriptor with a mask exactly once |
| PollSets.PollRoundTrip | sw/nic/third-party/libev-4.33/ev_poll.c:75-78 | the mask survives the translation |
| SelectSets.SelectSet.Modify | sw/nic/third-party/libev-4.33/ev_select.c:106-135 | the bit in the read vector is set exactly if the new mask has reading, that in the write vector exactly if it has writing; growth and other descriptors keep theirs |
| SelectSets.PutBitSets | sw/nic/third-party/libev-4.33/ev_select.c:128-134 | setting or clearing one bit of one word changes the membership of one descriptor |
| SelectSets.Scan | sw/nic/third-party/libev-4.33/ev_select.c:246-269 | reports each ready descriptor exactly once with exactly its bits |
| Epolls.StepAgrees | sw/nic/third-party/libev-4.33/ev_epoll.c:70-141 | a registration that is there stays the one libev remembers, exactly unless a change of an existing registration fails hard |
| Epolls.RunAgrees | sw/nic/third-party/libev-4.33/ev_epoll.c:70-216 | for whole runs of changes, events and closings: always agreed if and only if no step is of that kind |
| Epolls.RegisteringRepairs | sw/nic/third-party/libev-4.33/ev_epoll.c:87-97 | a successful call registers exactly the new mask and generation, whatever was believed |
| Epolls.ChangeServes | sw/nic/third-party/libev-4.33/ev_epoll.c:83-117 | a change that does not fail leaves the kernel with what is wanted, also when an old registration is kept |
| Epolls.RunServes | sw/nic/third-party/libev-4.33/ev_epoll.c:70-141 | without failures and closings the kernel has exactly the wanted mask in every run, despite ignored deletions |
| Epolls.StaleIsDropped | sw/nic/third-party/libev-4.33/ev_epoll.c:166-213 | an event of another generation is never delivered; agreement is lost only with a request to recreate the kernel state |
| Epolls.DeliveredExactly | sw/nic/third-party/libev-4.33/ev_epoll.c:166-213 | an event is delivered exactly if it is of the current generation, and all of it is wanted or the call that corrects the registration succeeds; then the kernel holds what is wanted |
| Epolls.GenerationCounts | sw/nic/third-party/libev-4.33/ev_epoll.c:87-140 | in every run `egen` is the number of successful registrations, modulo 2^32 |
| Epolls.ReplacedIsStale | sw/nic/third-party/libev-4.33/ev_epoll.c:176-186 | so an event of a registration that was replaced since is dropped, unless a multiple of 2^32 registrations lie in between |
| Epolls.NormalSucceeds | sw/nic/third-party/libev-4.33/ev_epoll.c:96-117 | a change whose calls meet with nothing unusual never fails, whatever was believed |
| Epolls.FailureIsRemembered | sw/nic/third-party/libev-4.33/ev_epoll.c:105-117 | a run in which a kept registration is wrong |
| Backends.Backend.EpollCtl | sw/nic/third-party/libev-4.33/ev_epoll.c:96-117 | the kernel model: EEXIST, ENOENT, vanished and failing entries |
| Backends.Backend.Close | sw/nic/third-party/libev-4.33/ev_epoll.c:54-64 | a descriptor closed behind libev's back loses its kernel entry and nothing else |
| Backends.Backend.EpollModify | sw/nic/third-party/libev-4.33/ev_epoll.c:70-141 | cache and kernel become what the specification says; on failure the list has been killed, otherwise nothing else changes |
| Backends.Backend.PollEvent | sw/nic/third-party/libev-4.33/ev_epoll.c:166-216 | what an event does to cache, kernel, `postfork` and queues; a watcher gains EV_READ exactly if the event is delivered, its descriptor not flagged, its mask has reading and the event input or an error, likewise EV_WRITE, and nothing else is gained by anybody; agreement survives unless `postfork` is set |
| Backends.Backend.EpollPoll | sw/nic/third-party/libev-4.33/ev_epoll.c:166-216 | the same bit by bit for all events of a poll, each being delivered or dropped as the specification says; `postfork` is set exactly if one was dropped |
| Backends.FedTells | sw/nic/third-party/libev-4.33/ev_epoll.c:172-216 | the bits that one event adds to what each watcher is owed, from the flags of the event and the watchers' masks |
| Backends.Backend.Modify | sw/nic/third-party/libev-4.33/ev.c:2454-2455 | after `backend_modify` each backend knows the cached events of every descriptor; exactly what it asked for is flagged besides what was, and no other list has changed |
| Backends.Backend.ReifyOne | sw/nic/third-party/libev-4.33/ev.c:2434-2456 | one round computes the OR of its descriptor, tells the backend exactly if that has changed or the descriptor may be a new one, leaves the outlook of all others as it was but for what the backend asks for, and keeps everything in order with one change more taken |
| Backends.Backend.FdReify | sw/nic/third-party/libev-4.33/ev.c:2392-2468 | handles exactly the original changes, in order; the backend is told of one if and only if its interest had changed or it was, or was meanwhile asked for as, a new file; the OR of the start is cached; what is on the list afterwards is exactly what the backend asked for and no later round took; with epoll the steps taken are exactly those of the changes told, all of them quiet if no call fails |
| Backends.LeftNext | sw/nic/third-party/libev-4.33/ev.c:2397-2407 | each round takes its descriptor off what is left and adds exactly what the backend asks for |
| Backends.NextRound | sw/nic/third-party/libev-4.33/ev.c:2434-2456 | each round finds what the start left for it and what was asked for since, and disturbs no round before or after it |
| Backends.QuietSucceeds | sw/nic/third-party/libev-4.33/ev_epoll.c:70-141 | after a quiet run no undisturbed change fails, and the run stays quiet |
| Backends.Backend.MasksRefine | sw/nic/third-party/libev-4.33/ev.c:2392-2484 | what select and poll know of a descriptor without a change is exactly the OR of its watchers |
| Backends.Backend.PollsAreExact | sw/nic/third-party/libev-4.33/ev_poll.c:54-89 | with an empty change list `polls` lists exactly once each descriptor whose OR is not zero, with that mask |
| Backends.Backend.EpollIsExact | sw/nic/third-party/libev-4.33/ev_epoll.c:70-141 | with epoll the kernel holds exactly that mask if nothing unusual happened |
| Backends.Backend.ReportedExactly | sw/nic/third-party/libev-4.33/ev.c:2392-2484 | with no change left, select, poll or the kernel reports a bit exactly if some active watcher of the descriptor asks for it |
| Backends.ChangeReaches | sw/nic/third-party/libev-4.33/ev_epoll.c:70-141 | an undisturbed change reaches the kernel whatever it held of the descriptor before, as long as libev was right about that |
| Backends.Backend.StartAndReify | sw/nic/third-party/libev-4.33/ev.c:4330-4359 | from `ev_io_start` through `fd_reify`: each direction the watcher was set to is reported afterwards, and a just set watcher makes the backend be told even if the interest is the same, so that a closed and reopened descriptor is registered anew |
| Backends.Backend.Start | sw/nic/third-party/libev-4.33/ev.c:4330-4359 | starting puts the watcher first on its list with its mask stripped and its descriptor flagged, adds it to the active ones, and leaves the backend's picture correct |
| Backends.Backend.Stop | sw/nic/third-party/libev-4.33/ev.c:4361-4381 | stopping clears the watcher, takes it off its list and the active ones, flags its descriptor, and leaves the backend's picture correct |
| Onces.OnceLoop.EvOnce | sw/nic/third-party/libev-4.33/ev.c:5484-5505 | starts exactly the watchers asked for, the io watcher for exactly the directions asked for on a descriptor marked as possibly new, the timer at the time asked for |
| Onces.OnceLoop.OnceCb | sw/nic/third-party/libev-4.33/ev.c:5455-5466 | both watchers are stopped and the callback has been called once |
| Onces.OnceLoop.OnceCbIo | sw/nic/third-party/libev-4.33/ev.c:5468-5474 | it gets the io events together with what the timer was owed |
| Onces.OnceLoop.OnceCbTo | sw/nic/third-party/libev-4.33/ev.c:5476-5482 | and the other way round |
| Onces.OnceLoop.InvokeOnce | sw/nic/third-party/libev-4.33/ev.c:5455-5505 | from the dispatcher: exactly one call with exactly the bits that either watcher was owed, after which neither is in a list, the heap or a slot |
| OnceRuns.ServedIsNotNext | sw/nic/third-party/libev-4.33/ev.c:5455-5466 | a request that is served is never next to be invoked |
| OnceRuns.CallNext | sw/nic/third-party/libev-4.33/ev.c:3764-3771 | the callback is called only for the request that is next and not served, with exactly the bits that either watcher is owed |
| OnceRuns.Expire | sw/nic/third-party/libev-4.33/ev.c:3803-3838 | a reification leaves every request as it was: a served one is not queued again |
| OnceRuns.Run | sw/nic/third-party/libev-4.33/ev.c:5455-5505 | over any run of events, expiries, calls and operations on other watchers the callback is called at most once, exactly once if and only if the request is served, and never again afterwards |
| GpuRefs.StepSound | sw/nic/gpuagent/core/api_engine.cc:62-144 | a message keeps counters and references consistent exactly if it does not delete a watched GPU whose counter has wrapped around |
| GpuRefs.RunSound | sw/nic/gpuagent/core/api_engine.cc:62-144 | the same for whole runs |
| GpuRefs.Integrity | sw/nic/gpuagent/api/gpu_watch.cc:84-120 | in every run that increments no counter 2^32 times, each counter is the number of references plus leaked increments, and missing GPUs are not referred to |
| GpuRefs.ReferencesResolve | sw/nic/gpuagent/api/gpu.cc:97-105 | no watched GPU is ever removed |
| GpuRefs.DeleteNeverUnderflows | sw/nic/gpuagent/api/gpu_watch.cc:104-120 | deleting a watch takes exactly its references off the counters, none below zero |
| GpuRefs.ExactWithoutFailures | sw/nic/gpuagent/api/gpu_watch.cc:84-101 | without failed creations the counters are exactly the references |
| GpuRefs.LeakIsForever | sw/nic/gpuagent/api/gpu_watch.cc:87-94 | a GPU counted by a failed creation can never be deleted again |
| GpuRefs.WrappedGpuIsDeleted | sw/nic/gpuagent/api/gpu.cc:97-105 | a run that deletes a watched GPU |
| GpuRefs.RunKeepsHandles | sw/nic/gpuagent/api/gpu_state.cc:44-88 | every entry of the handle index is in the key index under the same handle, in every run |
| GpuLogs.LogTells | sw/nic/gpuagent/core/api_engine.cc:62-144 | in every run the databases hold exactly what the answered messages say: what was created and not deleted since, with which GPUs, handle and subscribers |
| GpuLogs.RunAnswers | sw/nic/gpuagent/core/api_engine.cc:62-175 | in every run every message gets the one answer that the messages and answers before it demand |
| GpuLogs.SubscribedWatchStays | sw/nic/gpuagent/api/gpu_watch.cc:104-111 | a watch whose last number of subscribers was not zero stays with its GPUs whatever the message, and its deletion is answered `IN_USE` |
| GpuLogs.UnsubscribedWatchGoes | sw/nic/gpuagent/api/gpu_watch.cc:104-120 | a stored watch without subscribers is gone after its deletion, which is answered `OK` |
| GpuLogs.OnlyDeletionRemoves | sw/nic/gpuagent/api/gpu_watch.cc:104-120 | no other message removes a watch or changes what it names |
| GpuLogs.DeleteGpuExactly | sw/nic/gpuagent/api/gpu.cc:97-105 | as long as no counter can wrap around, a GPU can be deleted exactly if no stored watch names it and no failed creation has counted it |
| GpuLogs.FoundByHandle | sw/nic/gpuagent/api/gpu_state.cc:44-88 | a discovered GPU is found under its handle until it is deleted, if no other is discovered with the same |
| GpuEngine.Engine.DiscoverGpu | sw/nic/gpuagent/init.cc:141-181 | a GPU that was created gets its handle and is found by it |
| GpuEngine.Engine.CountGpus | sw/nic/gpuagent/api/gpu_watch.cc:87-95 | increments each GPU up to the first missing one, with multiplicity |
| GpuEngine.Engine.UncountGpus | sw/nic/gpuagent/api/gpu_watch.cc:113-118 | decrements each GPU that is there |
| GpuEngine.Engine.Handle | sw/nic/gpuagent/core/api_engine.cc:62-175 | every message takes the objects to the next state of the reference run, and is answered as the answered messages so far demand |
| GpuEngine.Engine.StoredIsLogged | sw/nic/gpuagent/core/api_engine.cc:62-175 | the objects in the databases are exactly those the answered messages speak of, with their GPUs and whether they have subscribers |
| GpuEngine.Engine.WatchedGpusExist | sw/nic/gpuagent/api/gpu_watch.cc:84-120 | the objects of every stored watch's GPUs are there and counted |

## Left out

- The exact rounding of `ev_tstamp` (a `double`) and weak memory: time is `real`, threads interleave atomically.
- `int` overflow in `array_nextsize` and in array sizes; integers are unbounded except `egen`, the event masks, `num_gpu_watch_` and `num_subscriber_`.
- FourHeap.Tree: the three entries before `HEAP0`, which libev leaves uninitialised, hold a filler.
- Onces.OnceLoop.Valid: one object that composes all parts of the loop; descriptors and timers are composed here, the other parts are proved beside the common queues and counts.
- Dispatch.Loop.InvokePending: callbacks are finite scripts of feeding, clearing (which is what stopping does to the queues) and recursive invocation; their effect on heaps and lists is that of the separate operations, each of which keeps the queue invariant.
- OnceRuns.Run: requests made during the run are covered by `EvOnce`, not by a happening; any one request is followed, with all other watchers arbitrary.
- WakeupRuns.SentIsServed: that the backend reports a readable pipe, and that senders finish their calls, is assumed; `Bound` grows with the number of watchers and signals.
- SelectSets.Scan: that `select_poll` and `poll_poll` pass what they find to `fd_event` is not composed with the scan; epoll's loop is.
- Epolls.RunAgrees: descriptors that epoll refuses with EPERM (`epoll_eperms`) are excluded; `epoll_wait` errors and the growth of the event array do not appear.
- Backends.Backend.FdReify: io_uring, linuxaio, kqueue, port and win32 appear only as a backend that requests further changes.
- Backends.Backend.EpollPoll: recreating the kernel state after `postfork`, and forks in general, are not part of this model.
- Wakeup.StepKeeps: the active async watchers and signals are fixed during a run; creating and destroying the pipe is left out.
- Signals beyond the wake-up, and stat, child, embed and inotify watchers, which repeat the patterns shown.
- The libevent shim, ECB helpers and `ev_walk`.
- GpuEngine.Engine.UpdateGpu: the hardware's answer is a parameter, and the spec fields other than the key are not modelled.
- GpuEngine.Engine.SetSubscribers: the watcher thread that changes the number of subscribers is not part of this model; any change is allowed at any time.
- GpuEngine.Engine.DiscoverGpu: the grouping of partitions under parent GPUs and delayed frees.
- gRPC services, conversions, tracing, SMI calls and `state_counters_t`.
