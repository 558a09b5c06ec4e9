# Verified models of deno_core's state machines

deno_core is the engine room of Deno: it runs JavaScript on V8 next to Rust futures. Much of it rests on small state
machines whose correctness is stated only in comments, assertions and `unreachable!()` arms. This project models
twelve of them in Dafny and proves what those comments promise, for every input and every run.

| module | models | main results |
|---|---|---|
| `CancelRing`, `AsyncCancel` | `CancelHandle` and `Cancelable` | the intrusive rings keep their shape, no `unreachable!()` is reached, a future is cancelled exactly when its handle is |
| `AsyncCell` | `AsyncRefCell` | exact borrow count, no overtaking, no stuck queue |
| `TimerTree`, `WebTimers` | `setTimeout` and `setInterval` | the tree with tombstones refines a map of live timers; ordering rule of the HTML Standard |
| `RawArena`, `SharedArena` | the arenas | acyclic free list, exact reference counts, one drop per item |
| `UvTimers`, `UvWrite` | libuv-compatible timers and TCP writes | both indexes agree at every callback; the byte stream stays intact |
| `Inspector`, `TaskSpawner` | two concurrent protocols | no lost wake; no lost or duplicated task |
| `PromiseRing` | pending op promises | ring and overflow map refine one map |
| `EvalOrigin` | eval origins in stack traces | parsing and printing are inverse |
| `Inheritance` | cppgc inheritors | the result is exactly the reachable types |

How to read it. State that the source changes in place is a class whose fields are the source's fields; ghost fields
record history (which tickets were granted, which bytes were submitted). `View()` packs the fields into a `State` value,
`Inv` is the invariant on such values, and lemmas about single steps show that the methods keep it. What an operation does
is a relation between the values before and after it, and `Step` puts these relations together. Each class has a `Run`
method (`Execute` in `AsyncCancel`): it takes any list of operations or scheduling choices and shows that the invariant
holds after all of them and that they did what `Step` says, one after the other. What the invariant means for a user is
then stated as lemmas about any state that satisfies it.

Pointers are serial numbers or indices into a map or an array. Clocks, wakers, callbacks, sockets and schedulers are
parameters: a clock reading is an argument, a waker is a number in a log, a callback is a list of operations, a socket is
a list of outcomes. An `unreachable!()`, `unwrap` or assertion of the source is an `assert` here.

Where code and documentation disagree, the code is modelled:

- `has_pending_tasks` is documented to return false only when no task is queued; `TaskSpawner.FalseWhileQueued` is a
  run after which it does so with a queued task, and `TaskSpawner.FalseMeansEmpty` says exactly when the promise holds.
- The example in the documentation of `parse_eval_origin` starts the file name at a later parenthesis than the code does;
  `EvalOrigin.DocumentedExample` gives what the code returns.
- `poll_timers` does not store the waker it is given when it consumes the ready flag: after
  `WebTimers.PendingUnwatched` a poll is pending, a timer is live, and no waker is stored. The contract of
  `WebTimers.Timers.Poll` says exactly when that happens.
- `poll_timers` subtracts on unsigned integers. A poll reaches the subtraction and underflows exactly if its sleep is
  ready, a live timer is due, and the timers that fired without being taken outnumber the tombstones that remain
  (`WebTimers.UndrainedUnderflow`); after `WebTimers.UndrainedExample` the next poll does.

## Model

| member | source | states |
|---|---|---|
| `CancelRing.RingsDisjoint` | core/async_cancel.rs:484-492 | two linked nodes are in the same ring or their rings share no node |
| `CancelRing.Neighbours` | core/async_cancel.rs:571-609 | both neighbours of a linked node are linked nodes other than itself, at the adjacent places of its ring, and coincide exactly in a ring of two |
| `CancelRing.LinkPairOk` | core/async_cancel.rs:510-522 | linking to an unlinked head makes a new ring of the two, and no other ring changes |
| `CancelRing.LinkLastOk` | core/async_cancel.rs:523-544 | linking to a linked head appends to its ring; the last node is an item that points at the head, so the inner `unreachable!()` is not reached |
| `CancelRing.UnlinkOk` | core/async_cancel.rs:571-609 | unlinking dissolves a ring of two and otherwise removes one node and keeps the order of the rest; rings stay inverse-linked and disjoint |
| `CancelRing.StoreWakerOk` | core/async_cancel.rs:551-566 | replacing a stored waker keeps every ring |
| `CancelRing.CancelOk` | core/async_cancel.rs:613-646 | overwriting one ring with `Canceled` leaves the other rings as they are |
| `AsyncCancel.Registry.Link` | core/async_cancel.rs:495-549 | fails exactly on a cancelled head; otherwise the item is last in the head's ring; no assertion or `unreachable!()` fails |
| `AsyncCancel.Registry.UpdateWaker` | core/async_cancel.rs:551-566 | fails exactly on a cancelled node; a linked item stores the new waker and nothing else changes |
| `AsyncCancel.Registry.Unlink` | core/async_cancel.rs:571-609 | both neighbours are joined, or the other node of a pair becomes unlinked; the ring loses exactly this node |
| `AsyncCancel.Registry.FreeNode` | core/async_cancel.rs:468-475 | dropping a node frees it, never cancels another one, and leaves all other rings untouched |
| `AsyncCancel.Registry.CancelNode` | core/async_cancel.rs:613-646 | terminates; exactly the head's ring is marked and each stored waker is woken once, in registration order |
| `AsyncCancel.Registry.CancelItems` | core/async_cancel.rs:630-645 | the walk visits every item of the ring once and stops at the head |
| `AsyncCancel.CancelStep` | core/async_cancel.rs:630-645 | with the cells before it cancelled, the next cell is still a linked item that points to its successor |
| `AsyncCancel.Registry.CreateHandle` | core/async_cancel.rs:31-37 | a new handle is unlinked and not cancelled |
| `AsyncCancel.Registry.BindFuture` | core/async_cancel.rs:187-192 | a new future remembers its handle and is not linked yet |
| `AsyncCancel.Registry.CancelHandle` | core/async_cancel.rs:41-43 | marks its own ring only, and with it exactly the registered futures bound to it; each of them is woken through the waker of its latest poll, at the place of its node in the ring |
| `AsyncCancel.BoundWoken` | core/async_cancel.rs:613-646 | in every state of every run, the ring of a live handle stores, for each pending future bound to it, the waker of that future's latest poll |
| `CancelRing.WakersAt` | core/async_cancel.rs:630-645 | the wakers taken from a ring are those of its items, one each, in order |
| `AsyncCancel.Registry.DropHandle` | core/async_cancel.rs:468-475 | the ring stays behind without a head, in order |
| `AsyncCancel.Registry.DropFuture` | core/async_cancel.rs:468-475 | the inner future is dropped first and may do anything to other handles and futures; then a registered future leaves its ring and nobody else is affected |
| `AsyncCancel.Registry.Forget` | core/async_cancel.rs:468-475 | the second half: exactly the node of this future is unlinked and freed |
| `AsyncCancel.Registry.Terminate` | core/async_cancel.rs:75-80 | the inner future is dropped first, while its node is registered, and may do anything to others; then the registration goes |
| `AsyncCancel.Registry.Release` | core/async_cancel.rs:75-80 | the second half: a finished or cancelled future gives up exactly its node |
| `AsyncCancel.CancelSeen` | core/async_cancel.rs:335-343 | the node looked at before a poll is marked exactly if the future's handle was cancelled |
| `AsyncCancel.Registry.Register` | core/async_cancel.rs:420-432 | succeeds exactly if the handle is not cancelled, and then the handle will wake this waker |
| `AsyncCancel.Registry.Settle` | core/async_cancel.rs:420-442 | registering or refreshing, whichever is due: fails exactly if the handle was cancelled |
| `AsyncCancel.Registry.Refresh` | core/async_cancel.rs:433-440 | succeeds exactly if the handle is not cancelled, and then the handle, if alive, will wake the new waker |
| `AsyncCancel.Registry.PollFuture` | core/async_cancel.rs:330-371 | cancelled before the poll: `Canceled`, and the inner future is dropped without being polled; otherwise it is polled, with everything it does; then, if it is ready, it wins, and if not, a cancellation so far is reported by this very poll, and else the future is registered or its waker refreshed |
| `AsyncCancel.Registry.Execute` | core/async_cancel.rs:484-657 | in every run, every operation happens, in order, also inside polls and drops of inner futures; the shape invariant holds, linked futures keep the waker of their latest poll, and cancelled handles stay cancelled |
| `AsyncCancel.Registry.Do` | core/async_cancel.rs:30-80 | each operation does what its relation says, and one that ownership forbids does nothing |
| `AsyncCancel.FreedRing` | core/async_cancel.rs:571-609 | the first node of a ring stays first when another node is freed, and the second takes over when the first is |
| `AsyncCancel.FreeItemOk` | core/async_cancel.rs:468-475 | dropping an item keeps: a registered future is cancelled exactly if its handle was, and otherwise linked behind it while it lives |
| `AsyncCancel.FreeHandleOk` | core/async_cancel.rs:468-475 | the same when a handle is dropped |
| `AsyncCancel.RegisterOk` | core/async_cancel.rs:420-432 | the same when a future registers |
| `AsyncCancel.CancelWorldOk` | core/async_cancel.rs:613-646 | the same when a handle is cancelled: its ring holds exactly the registered futures bound to it |
| `AsyncCell.AddRemoveInverse` | core/async_cell.rs:564-594 | `try_add` and `try_remove` of a mode are inverse to each other |
| `AsyncCell.ExclusiveAlone` | core/async_cell.rs:548-602 | an exclusive holder, reserved or live, is the only holder |
| `AsyncCell.QueueWaitsForHolder` | core/async_cell.rs:315-343 | a queue that is not empty has a real waiter in front and a holder that blocks it |
| `AsyncCell.TryBorrowMeaning` | core/async_cell.rs:264-286 | the two tests of `borrow_sync` hold exactly if no future waits and no incompatible borrow is live or reserved |
| `AsyncCell.NoOvertaking` | core/async_cell.rs:345-387 | before a ticket is granted, every smaller one was granted or dropped while waiting |
| `AsyncCell.UndroppedSorted` | core/async_cell.rs:345-387 | the granted tickets are exactly those below `turn` that were not dropped, in increasing order |
| `AsyncCell.SkipHole` | core/async_cell.rs:357-364 | passing over a hole keeps count, queue and history |
| `AsyncCell.Grant` | core/async_cell.rs:372-382 | reserving for the front waiter keeps count, queue and history |
| `AsyncCell.AbandonOk` | core/async_cell.rs:397-402 | a waiting future that is dropped has a waiter in the queue to take out |
| `AsyncCell.PickUp` | core/async_cell.rs:322-328 | picking up a reservation keeps the count, and the checking `remove` succeeds |
| `AsyncCell.ReleaseOk` | core/async_cell.rs:288-295 | `remove` cannot fail for a holder; unless the cell becomes free the queue is still blocked |
| `AsyncCell.AsyncRefCell.WakeWaiters` | core/async_cell.rs:345-387 | afterwards the queue is empty or blocked; a prefix was served, and exactly the wakers stored in it were woken, once each, in queue order |
| `AsyncCell.WokenMore` | core/async_cell.rs:377-382 | serving one entry more wakes exactly the waker it stores, at the place given by the number of stored wakers before it |
| `AsyncCell.AsyncRefCell.CreateWaiter` | core/async_cell.rs:297-313 | the ticket is new and next in line; an empty queue is served at once |
| `AsyncCell.AsyncRefCell.PollWaiter` | core/async_cell.rs:315-343 | ready exactly if the ticket was passed; otherwise only the stored waker changes; no assertion fails |
| `AsyncCell.AsyncRefCell.RemoveBorrow` | core/async_cell.rs:288-295 | ending a live or reserved borrow keeps the invariant and serves the queue when the cell becomes free |
| `AsyncCell.AsyncRefCell.DropBorrow` | core/async_cell.rs:513-517 | removes one live borrow of the mode and nothing else |
| `AsyncCell.AsyncRefCell.DropWaiter` | core/async_cell.rs:389-409 | a granted future gives its reservation back, a waiting one leaves a hole; the queue is settled afterwards |
| `AsyncCell.AsyncRefCell.TryBorrow` | core/async_cell.rs:264-286 | succeeds exactly if nobody waits and the mode is compatible with all holders |
| `AsyncCell.AsyncRefCell.Run` | core/async_cell.rs:264-409 | in every run each create, poll, drop and try does what its relation says, and count, order and settledness hold |
| `AsyncCell.AsyncRefCell.Do` | core/async_cell.rs:264-409 | each event does what its relation says, and one on what nobody owns does nothing |
| `TimerTree.InsertSorted` | core/uv_compat.rs:915-919 | inserting a key with a new id keeps the set ordered and one larger, and says which key is first |
| `TimerTree.RemoveSorted` | core/uv_compat.rs:735-748 | removing takes out exactly that key and keeps the order |
| `TimerTree.DueSplits` | core/web_timeout.rs:476-477 | the split separates exactly the keys with a deadline before `now` |
| `TimerTree.RetainSorted` | core/web_timeout.rs:528-530 | retaining keeps exactly the keys with the given ids, in order |
| `WebTimers.BatchFacts` | core/web_timeout.rs:476-495 | the loop reports the live due keys in order and leaves a tree whose live keys are the plain map advanced to `now` |
| `WebTimers.PendingCount` | core/web_timeout.rs:515-517 | the data that no batch waits to hand out belongs to live keys of the tree, so the first subtraction is exact |
| `WebTimers.CountsExact` | core/web_timeout.rs:339-357 | the two counters are the exact numbers of unreferenced and of high-resolution timers with data |
| `WebTimers.AdvanceFires` | core/web_timeout.rs:478-495 | a batch leaves timers that are not due alone, removes due one-shots, and moves each due repeat to `now` plus its interval |
| `WebTimers.UndrainedUnderflow` | core/web_timeout.rs:468-527 | a poll reaches its second subtraction and underflows exactly if its sleep is ready, a live timer is due, and the timers fired but not taken outnumber the tombstones that stay |
| `WebTimers.UndrainedExample` | core/web_timeout.rs:515-527 | a run after which the next poll underflows |
| `WebTimers.PendingUnwatched` | core/web_timeout.rs:214-245 | a run after which a poll is pending with a live timer and no waker is stored |
| `WebTimers.HtmlOrdering` | core/web_timeout.rs:50-66 | over the batches of any run, an earlier one-shot with no longer timeout that was not cancelled comes first, and once |
| `WebTimers.BatchHtmlOrder` | core/web_timeout.rs:468-495 | a batch keeps that order, within itself and against earlier batches |
| `WebTimers.BatchOnce` | core/web_timeout.rs:468-495 | no one-shot is reported twice |
| `WebTimers.LeftVariants` | core/web_timeout.rs:515-534 | clearing, compacting or keeping the tree leaves the same live timers, and a compacted tree has no tombstone |
| `WebTimers.QueueOk` | core/web_timeout.rs:378-427 | queueing adds one live timer and keeps counts, sleep and history |
| `WebTimers.RemoveOk` | core/web_timeout.rs:431-459 | removing data removes exactly that live timer and keeps counts, sleep and history |
| `WebTimers.DrainableBatch` | core/web_timeout.rs:461-467 | every one-shot of a delivered batch waits for its data to be taken, and no other timer does |
| `WebTimers.Timers.PollReady` | core/web_timeout.rs:214-245 | ready exactly if flagged or, with a stored waker, past the deadline; the waker is stored unless the flag was set |
| `WebTimers.Timers.QueueInternal` | core/web_timeout.rs:378-427 | the whole new state: a fresh id, its key, its data, the lock and the sleep |
| `WebTimers.Timers.Queue` | core/web_timeout.rs:360-376 | adds exactly one live timer under a fresh id, due after its timeout, with an interval of at least one millisecond if it repeats; the sleep moves, and the flag is raised and the waker called, only if it is the earliest |
| `WebTimers.Timers.Release` | core/web_timeout.rs:439-454 | no counter underflows, no debug assertion fails, and with the last timer everything is cleared |
| `WebTimers.Timers.Cancel` | core/web_timeout.rs:431-459 | returns the data if it was there and removes exactly that live timer |
| `WebTimers.Timers.TakeFired` | core/web_timeout.rs:542-568 | yields a one-shot's data once and a repeat's each time, never that of a cancelled timer, and leaves the live timers alone |
| `WebTimers.Timers.Collect` | core/web_timeout.rs:473-495 | the loop computes the fired keys, their number of one-shots and the tree with re-armed repeats |
| `WebTimers.Timers.CompactFront` | core/web_timeout.rs:502-508 | popping tombstones in front does not change the live timers |
| `WebTimers.Timers.Poll` | core/web_timeout.rs:468-537 | whenever its subtraction is safe or not reached: there is a batch exactly if the sleep is ready and a live timer is due; it is exactly the live timers with deadline before `now` in (deadline, id) order; due one-shots are gone and each due repeat is live again at `now` plus its interval; at most 16 tombstones remain, counting undrained timers as data; without a batch a registered client has missed nothing; a waker is stored afterwards exactly if the ready flag was clear or one was stored before |
| `WebTimers.Timers.PollDue` | core/web_timeout.rs:470-537 | the same once the sleep is ready |
| `WebTimers.Timers.FinishIneffective` | core/web_timeout.rs:497-513 | with nothing due, the live timers are unchanged and the sleep is at the first key |
| `WebTimers.Timers.FinishBatch` | core/web_timeout.rs:515-534 | clears, compacts or keeps the tree without changing the live timers; the sleep is at the first key |
| `WebTimers.Timers.SetUnrefd` | core/web_timeout.rs:339-357 | the counter stays the exact number of unreferenced timers; unknown ids are ignored |
| `WebTimers.Timers.Drain` | core/web_timeout.rs:539-568 | takes every timer of a batch in order, each followed by everything its callback does, and leaves nothing undrained |
| `WebTimers.Timers.Apply` | core/web_timeout.rs:339-459 | each client operation does what its relation says, and keeps what is left of a batch takeable |
| `WebTimers.Timers.ApplyAll` | core/web_timeout.rs:339-459 | so does a list of them, in order |
| `WebTimers.Timers.Do` | core/web_timeout.rs:339-568 | one event: a client operation, or a poll whose batch is drained, with the time it takes |
| `WebTimers.Timers.Run` | core/web_timeout.rs:329-568 | in every run with drained batches all events happen, in order and at their times, and the invariant holds: exact counters, sleep at the minimum, ordering, no double firing |
| `RawArena.PopFree` | core/arena/raw_arena.rs:193-201 | the first free slot is not live, and the rest is still an acyclic list of all free slots |
| `RawArena.Extend` | core/arena/raw_arena.rs:189-201 | with an empty list the slot at the high-water mark is not live and the mark may move |
| `RawArena.PushFree` | core/arena/raw_arena.rs:348-369 | a live slot put in front keeps the list acyclic and complete, and the count cannot underflow |
| `RawArena.FullMeansAllLive` | core/arena/raw_arena.rs:182-187 | the test for a full block holds exactly if every slot is live |
| `RawArena.AscendingOnce` | core/arena/raw_arena.rs:271-309 | what `clear_allocated` drops is each live slot once |
| `RawArena.Arena.Allocate` | core/arena/raw_arena.rs:172-203 | never returns a live slot; falls back to the system allocator exactly if all slots are live |
| `RawArena.Arena.AllocateIfSpace` | core/arena/raw_arena.rs:219-250 | returns nothing exactly if all slots are live, and otherwise a slot that was not |
| `RawArena.Arena.RecycleWithoutDrop` | core/arena/raw_arena.rs:348-369 | exactly this slot or block is given back; true exactly if it was a slot and none is live any more |
| `RawArena.Arena.Recycle` | core/arena/raw_arena.rs:318-341 | the same, and the item is dropped once |
| `RawArena.Arena.Remaining` | core/arena/raw_arena.rs:253-255 | remaining plus live slots are the capacity |
| `RawArena.Arena.Vacancies` | core/arena/raw_arena.rs:271-309 | the walk over the free list terminates and marks exactly the slots that are not live |
| `RawArena.Arena.ClearAllocated` | core/arena/raw_arena.rs:271-309 | drops each live slot once and restores the initial state |
| `RawArena.Arena.Write` | core/arena/raw_arena.rs:68-73 | writing to a live entry, whose memory is that of its link, does not disturb the free list |
| `RawArena.Arena.Run` | core/arena/raw_arena.rs:172-369 | in every run of allocate, write, recycle and clear each operation does what its relation says, the free list stays exact, and the live entries are those handed out and not given back |
| `RawArena.Arena.Do` | core/arena/raw_arena.rs:172-369 | each operation does what its relation says; clearing drops each owned slot once, in some order |
| `SharedArena.AllocateBalanced` | core/arena/shared_arena.rs:321-341 | a new item with one reference and one more on the arena keeps the books |
| `SharedArena.ReserveBalanced` | core/arena/shared_arena.rs:385-392 | a reservation counts as an owner of the arena |
| `SharedArena.CompleteBalanced` | core/arena/shared_arena.rs:420-444 | turning a reservation into an item needs no change of the arena's count |
| `SharedArena.ForgetBalanced` | core/arena/shared_arena.rs:400-411 | forgetting takes one owner away and cannot underflow |
| `SharedArena.DeleteBegins` | core/arena/shared_arena.rs:270-283 | while an item is dropped nobody refers to it, but it still keeps its entry and the arena |
| `SharedArena.DeleteBalanced` | core/arena/shared_arena.rs:270-283 | when its entry has been recycled, a count of zero means that it was the last owner |
| `SharedArena.DropHandleBalanced` | core/arena/shared_arena.rs:447-458 | the same for the handle |
| `SharedArena.FreedIsFinal` | core/arena/shared_arena.rs:447-458 | a freed arena has no owner left, so it is freed once |
| `SharedArena.ArenaShared.Allocate` | core/arena/shared_arena.rs:321-341 | a fresh item with one reference; nothing is dropped |
| `SharedArena.ArenaShared.AllocateIfSpace` | core/arena/shared_arena.rs:354-376 | fails exactly if every slot is an item or a reservation |
| `SharedArena.ArenaShared.Reserve` | core/arena/shared_arena.rs:385-392 | the same for reservations |
| `SharedArena.ArenaShared.Complete` | core/arena/shared_arena.rs:420-444 | a reservation becomes an item with one reference |
| `SharedArena.ArenaShared.Forget` | core/arena/shared_arena.rs:400-411 | the slot goes back and nothing is dropped |
| `SharedArena.ArenaShared.CloneRef` | core/arena/shared_arena.rs:77-143 | one more reference to the item |
| `SharedArena.ArenaShared.DropRef` | core/arena/shared_arena.rs:171-183 | one reference fewer; with the last one the item is dropped, once, and does what its drop does while it still has its entry |
| `SharedArena.ArenaShared.DropItem` | core/arena/shared_arena.rs:270-283 | the item is dropped in place, once, with the books still balanced |
| `SharedArena.ArenaShared.Delete` | core/arena/shared_arena.rs:270-283 | the item is dropped, during which it may use the arena in any way, then its entry is recycled, and the arena freed if it was the last owner |
| `SharedArena.ArenaShared.DropHandle` | core/arena/shared_arena.rs:447-458 | without other owners the arena is freed; no item is dropped |
| `SharedArena.ArenaShared.Free` | core/arena/shared_arena.rs:261-267 | freeing happens with no item left, so it drops none |
| `SharedArena.ArenaShared.Run` | core/arena/shared_arena.rs:67-458 | in every run every operation happens, in order, also inside drops; the count plus one is handle plus items plus reservations plus items being dropped; every item created is there or was dropped once; the arena is freed exactly when nothing is left, after which nothing happens any more |
| `SharedArena.ArenaShared.Do` | core/arena/shared_arena.rs:67-458 | each operation does what its relation says, and one on what nobody owns does nothing |
| `UvTimers.StopOk` | core/uv_compat.rs:735-748 | stopping keeps key set, id map and active flags in agreement and retires the id |
| `UvTimers.ScheduleOk` | core/uv_compat.rs:905-920 | so does starting an inactive timer under a fresh id |
| `UvTimers.RearmOk` | core/uv_compat.rs:421-429 | so does re-arming under the same id, and no other key moves |
| `UvTimers.ExpireOk` | core/uv_compat.rs:430-433 | so does retiring a one-shot, and no other key moves |
| `UvTimers.StillThere` | core/uv_compat.rs:407-412 | in the middle of a pass, an expired key is in the set exactly if its id is mapped; otherwise it was stopped in this pass |
| `UvTimers.FireStep` | core/uv_compat.rs:407-433 | firing the next key keeps the pass in order |
| `UvTimers.CallbackStep` | core/uv_compat.rs:435-438 | whatever the callback does, no key fires out of order and later keys are kept or stopped |
| `UvTimers.InitExactly` | core/uv_compat.rs:868-885 | re-initialising keeps the indexes in agreement exactly if the timer was not active |
| `UvTimers.UvLoop.TimerInit` | core/uv_compat.rs:868-885 | the handle is inactive without an id, and no key moves: that of an active timer stays behind |
| `UvTimers.UvLoop.TimerStart` | core/uv_compat.rs:890-923 | the timer is active under a fresh id with its deadline in both indexes; a running one is stopped first |
| `UvTimers.UvLoop.TimerStop` | core/uv_compat.rs:928-940 | the id is retired from both indexes |
| `UvTimers.UvLoop.TimerAgain` | core/uv_compat.rs:945-972 | `UV_EINVAL` and no change without a repeat; otherwise restarted under a fresh id, `repeat` from now |
| `UvTimers.UvLoop.TimerSetRepeat` | core/uv_compat.rs:985-993 | only the repeat value changes |
| `UvTimers.UvLoop.Close` | core/uv_compat.rs:1173-1209 | a closed timer is in neither index and queued for its close callback |
| `UvTimers.UvLoop.ProcessKey` | core/uv_compat.rs:407-433 | a key fires exactly if it was not stopped; a repeat is armed at `now` plus its repeat value, a one-shot is retired, and no other key moves |
| `UvTimers.UvLoop.RunTimers` | core/uv_compat.rs:393-439 | the keys fired are expired ones that were there at the start, in (deadline, id) order, each at most once, and all but those stopped first; each expired key is processed in turn, and right after the `n`-th one with a callback, everything that callback does happens |
| `UvTimers.UvLoop.RunOps` | core/uv_compat.rs:868-972 | in every run of operations each does what its relation says, the indexes agree, and a stopped id never fires again |
| `UvTimers.UvLoop.Do` | core/uv_compat.rs:868-1209 | each operation does what its relation says, and an excluded one does nothing |
| `UvTimers.UvLoop.Run` | core/uv_compat.rs:393-439 | over any number of passes and operations, all of which happen in order, the indexes agree, and a stopped id never fires again |
| `UvTimers.UvLoop.TakeTurn` | core/uv_compat.rs:393-439 | one turn: a list of operations, or a pass over all keys expired at its time |
| `UvWrite.CollectBufs` | core/uv_compat.rs:1848-1870 | the concatenation of the buffers |
| `UvWrite.FlattenConcat` | core/uv_compat.rs:1848-1870 | flattening two lists of buffers is flattening each, in order; a buffer stands for its bytes, a null base for none |
| `UvWrite.PushedTotals` | core/uv_compat.rs:689-704 | pushing takes everything if the socket accepts enough before it first blocks or fails, and otherwise exactly what it accepts up to then |
| `UvWrite.TriedPushed` | core/uv_compat.rs:1803-1841 | a single try is a push against one outcome |
| `UvWrite.TcpStream.PushAll` | core/uv_compat.rs:1743-1771 | the loop ends as the outcomes of the socket determine, with exactly the bytes it reports taken |
| `UvWrite.TcpStream.TryVectored` | core/uv_compat.rs:1803-1841 | the single vectored try ends as the socket's next outcome determines |
| `UvWrite.IoVecs` | core/uv_compat.rs:1779-1794 | the non-empty slices have the same bytes and total length |
| `UvWrite.Unsent` | core/uv_compat.rs:1809-1819 | what is left after a partial vectored write is the rest of the bytes |
| `UvWrite.AcceptFront` | core/uv_compat.rs:694-695 | bytes taken from the first queued write keep the stream intact |
| `UvWrite.CompleteFront` | core/uv_compat.rs:705-710 | finishing the first queued write keeps stream and callback order |
| `UvWrite.EnqueueRest` | core/uv_compat.rs:1755-1763 | queueing the rest of a write that was partly taken keeps them too |
| `UvWrite.CompleteNow` | core/uv_compat.rs:1746-1753 | and so does finishing a write at once on an idle stream |
| `UvWrite.TcpStream.TryWrite` | core/uv_compat.rs:1682-1700 | refuses while writes are queued or without a stream; otherwise tries the socket exactly once and reports its outcome; only the reported prefix was taken |
| `UvWrite.TcpStream.Write` | core/uv_compat.rs:1705-1844 | behind queued writes it queues; on an idle stream it tries the socket, and what that does not take is queued, a finished write is called back with success and a failed one with `UV_EPIPE`; a missing stream gives `UV_ENOTCONN`; every byte of the buffers is accepted or queued behind the earlier ones |
| `UvWrite.TcpStream.WriteSingle` | core/uv_compat.rs:1740-1777 | the same for one buffer |
| `UvWrite.TcpStream.WriteVectored` | core/uv_compat.rs:1779-1841 | the same for several buffers or none |
| `UvWrite.TcpStream.DrainFront` | core/uv_compat.rs:686-718 | the rest of the first write goes to the socket until it is taken, or the socket blocks or fails; a finished write leaves the queue and is called back with success, a failed one with `UV_EPIPE`, a blocked one keeps exactly what was not taken; it stops only on blocking |
| `UvWrite.TcpStream.Conclude` | core/uv_compat.rs:705-719 | finished and failed writes leave the queue with their callback, a blocked one stays |
| `UvWrite.Drained` | core/uv_compat.rs:680-721 | an empty queue without errors means that everything submitted was accepted and every success callback made once, in order |
| `UvWrite.TcpStream.Drain` | core/uv_compat.rs:680-721 | rounds go on until the queue is empty or the socket blocks, and after each callback everything that it writes happens |
| `UvWrite.TcpStream.Submit` | core/uv_compat.rs:1682-1844 | all calls happen, in order, and keep the stream intact |
| `UvWrite.TcpStream.Do` | core/uv_compat.rs:1682-1844 | one call, with its outcome |
| `UvWrite.TcpStream.Run` | core/uv_compat.rs:680-721 | in every interleaving of writes, try-writes and drain rounds each does what its relation says, and without errors accepted bytes followed by queued ones are the submitted ones |
| `Inspector.WakeForcesPass` | core/inspector.rs:495-533 | between a wake and the next time the inspector goes idle or parks, a new pass begins |
| `Inspector.PendingUntilPass` | core/inspector.rs:495-533 | a wake stays pending until a pass begins |
| `Inspector.TraceGrows` | core/inspector.rs:1007-1047 | each step extends the history without losing a wake or requesting a wrong interrupt |
| `Inspector.InspectorWaker.Begin` | core/inspector.rs:233-243 | refused exactly while polling is under way; no `unreachable!()` is reached |
| `Inspector.InspectorWaker.End` | core/inspector.rs:495-533 | a wake since the pass began means another pass; otherwise idle or parked as asked; no `unreachable!()` is reached |
| `Inspector.InspectorWaker.Unparked` | core/inspector.rs:528-533 | the parked thread returns only when woken, and starts a pass |
| `Inspector.InspectorWaker.Wake` | core/inspector.rs:1007-1047 | one interrupt exactly from idle after a first poll; a parked thread is unparked and its handle is there |
| `Inspector.InspectorWaker.Drop` | core/inspector.rs:142-165 | marks the inspector dropped |
| `Inspector.InspectorWaker.Run` | core/inspector.rs:226-538 | in every interleaving each step does what its relation says, no wake is lost, exactly the due interrupts are requested, and none after the drop |
| `Inspector.InspectorWaker.Do` | core/inspector.rs:226-538 | one step, if its thread can take it |
| `TaskSpawner.QueueAnnounced` | core/tasks.rs:55-98 | a queue that is not empty is announced by the flag, by a spawner before its store, or by the poller before its take |
| `TaskSpawner.FalseMeansEmpty` | core/tasks.rs:50-58 | for a poller outside its two steps, a cleared flag means an empty queue exactly if every spawner before its store has had its task delivered |
| `TaskSpawner.FalseWhileQueued` | core/tasks.rs:50-58 | a run after which the flag is clear and a task is queued |
| `TaskSpawner.Factory.PushTask` | core/tasks.rs:92-93 | one more task at the end of the queue, held by its spawner until the flag is set |
| `TaskSpawner.Factory.StoreFlag` | core/tasks.rs:95-96 | the flag is set |
| `TaskSpawner.Factory.WakeTask` | core/tasks.rs:97-98 | one wake, and the spawner is done |
| `TaskSpawner.Factory.ExchangeFlag` | core/tasks.rs:62-73 | the flag is cleared; without it the poller registers |
| `TaskSpawner.Factory.TakeTasks` | core/tasks.rs:75-89 | the whole queue is delivered as one batch; an empty one registers the poller |
| `TaskSpawner.Factory.Run` | core/tasks.rs:55-98 | in every interleaving each step does what its relation says, delivered batches followed by the queue are the pushes in order, and a queue that is not empty is announced or about to be |
| `TaskSpawner.Factory.Do` | core/tasks.rs:55-98 | one step, if its thread can take it |
| `PromiseRing.OwnerOfRecent` | core/00_infra.js:130-138 | each of the last 4096 ids owns the slot it maps to |
| `PromiseRing.OwnerShifts` | core/00_infra.js:130-138 | issuing an id hands over one slot, from the id 4096 before it |
| `PromiseRing.Lookup` | core/00_infra.js:154-193 | ring or map give exactly what is pending under the id |
| `PromiseRing.Issue` | core/00_infra.js:130-152 | storing a new promise moves the displaced one to the map under its own id |
| `PromiseRing.Settle` | core/00_infra.js:154-182 | clearing the slot or the entry removes exactly that promise |
| `PromiseRing.Table.CallOp` | core/00_infra.js:202-220 | an op that completes at once uses no id; a deferred one gets a fresh id and promise |
| `PromiseRing.Table.SetPromise` | core/00_infra.js:130-152 | exactly one more pending promise |
| `PromiseRing.Table.ResolvePromise` | core/00_infra.js:154-182 | a pending id is never reported missing and settles exactly its own promise |
| `PromiseRing.Table.HasPromise` | core/00_infra.js:184-193 | for an issued id, true exactly while it is pending |
| `PromiseRing.Table.Run` | core/00_infra.js:130-220 | in every run each op and completion does to the plain table what its relation says: ring and map are one map of pending promises, and no promise is settled twice |
| `PromiseRing.Table.Do` | core/00_infra.js:130-220 | one op or completion |
| `EvalOrigin.Lossless` | core/error.rs:490-534 | a parsed string is its three parts with the texts of the two numbers; the frame is the last "eval at " with the first parenthesis behind it |
| `EvalOrigin.Accepted` | core/error.rs:490-534 | conversely, every string of that form parses, into exactly these parts |
| `EvalOrigin.ReprintIdentical` | core/error.rs:1286-1298 | printing a parse gives the same string exactly if its numerals are canonical: no plus sign, no leading zero, no negative zero |
| `EvalOrigin.Reparse` | core/error.rs:1277-1299 | with any new location, parsing the printed string gives it back with the same surroundings exactly if the file name lacks "eval at " |
| `EvalOrigin.FormatKeepsRest` | core/error.rs:1277-1299 | a string that does not parse is left alone; otherwise only the file name is replaced and the two numbers are written in canonical form ("+1" becomes "1"), and the result parses into the new origin exactly if the new name lacks "eval at " |
| `EvalOrigin.FormatParses` | core/error.rs:519-523 | a printed 64-bit number parses to itself |
| `EvalOrigin.Positional` | core/error.rs:519-523 | numerals are positional, most significant digit first |
| `EvalOrigin.ParseCases` | core/error.rs:519-523 | what parses is digits with an optional sign, to their value, if that is in the 64-bit range; nothing else does |
| `EvalOrigin.PrintedCanonical` | core/error.rs:1286-1298 | a numeral is printed back as it was exactly if it is canonical |
| `EvalOrigin.LastColon` | core/error.rs:525-528 | the last colon of the innermost part is the last colon of the string, so the end computed from it is right |
| `EvalOrigin.DocumentedExample` | core/error.rs:483-488 | what the code returns for the documented example |
| `Inheritance.BuildAdjacency` | core/cppgc.rs:391-398 | each base maps to its derived types in edge order |
| `Inheritance.VisitChildren` | core/cppgc.rs:405-414 | the inner loop visits every child; a queue that grew used up an unvisited type |
| `Inheritance.FindTransitiveInheritors` | core/cppgc.rs:390-417 | terminates on any edges, cycles included, and returns every type reachable from the root except the root, each once |
| `Inheritance.ClosedHoldsPath` | core/cppgc.rs:405-414 | a set that holds the root and is closed under edges holds every path from it |

## Left out

- Waking is not re-entrant: a waker does not call back into the object that wakes it. Nested operations are modelled for inner futures of `Cancelable` that are polled or dropped, for items that `delete` drops, for timer callbacks and for write callbacks.
- RawArena.Arena.ClearAllocated: the items it drops do not use the arena meanwhile.
- Pointers are indices, so memory layout, pinning, `MaybeUninit`, debug signatures and aliasing rules are not captured; memory orderings are sequentially consistent steps.
- Counters, ids and deadlines are unbounded; only the 32-bit wrap of promise ids is written out.
- AsyncCancel.Registry.DropHandle: requires that no unregistered future refers to the handle, which the source ensures by counting references.
- WebTimers.Timers.Poll: requires that its subtraction is not reached or does not underflow, which `WebTimers.UndrainedUnderflow` turns into a condition on the state before the poll. What a build without overflow checks does in the other states is not modelled.
- WebTimers.Timers.Run: drains every batch before the next poll, as the event loop does.
- WebTimers.Timers.TakeFired: covers ids and types that a batch reported.
- WebTimers keeps the lock count of `HighResTimerLock` but not the Windows calls behind it, stores integers for the generic data, and has no iterator.
- UvTimers.UvLoop.RunOps: skips re-initialising an active timer; what happens after `UvTimers.UvLoop.TimerInit` has left a key behind is not modelled.
- UvTimers.UvLoop.Close: not twice on one handle, as its safety comment demands; the close callbacks themselves are not run.
- UvTimers.UvLoop.RunTimers: callbacks do not call it again.
- UvWrite.TcpStream.Drain: its callbacks do not run the loop again.
- UvWrite ends at close: what `uv_close` does to queued writes is not modelled. Connecting, accepting, reading and shutdown are plumbing over the socket library.
- `run_idle`, `run_prepare` and `run_check` walk by index over a list that callbacks change, so that each handle runs once per pass is not guaranteed by the code.
- Inspector.InspectorWaker.Unparked: parking returns only after an unpark, not spuriously. What a pass does with sessions and messages is not modelled.
- TaskSpawner does not claim that a poller is always woken again: it registers after the failed exchange without looking a second time.
- TaskSpawner.FalseMeansEmpty: speaks about moments at which the poller is outside its two steps, as it is when the event loop asks.
- PromiseRing.Table.CallOp: ids stay below 2^31 and an op does not call another stub while it runs.
- EvalOrigin treats a string as characters, and the formatting of file names is a parameter.
- RawArena.Arena.Allocate: its common part with `allocate_if_space` is one method, where the source repeats the code.
- Web IDL integer conversion, serde_v8, `core/convert.rs`, inspector JSON, stack-trace formatting, extension macros, metrics, fast strings and the tools are conversions, wrappers or would only add easy members.
