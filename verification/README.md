# Verified model of Capybara's core

Capybara moves live TCP connections between servers. It is built on a coroutine library OS: a
slab allocator with immovable slots, a scheduler that polls woken tasks, timers and watched
values that wake them, a lock-free ring, an HTTP server that waits on tokens, and a monitor that
spreads load over backends. This project models that core in Dafny and proves what it keeps over
every run.

Each component comes as a value-level model (`…Model.dfy`), on which the statements about whole
runs are proved, and, where the program updates state in place, as classes and methods with the
program's own loops, each proved to do what the model says.

| files | component |
|---|---|
| `KeySpace`, `SlabModel`, `PinSlab` | keys, slots and the slab's free chain |
| `Words`, `WakerPage`, `SchedulerModel`, `SchedulerPass`, `SchedulerPage`, `SchedulerCall`, `SchedulerWakes`, `Scheduler` | waker pages and the scheduler |
| `WaitModel`, `WaitAny`, `ServerModel`, `Server` | `wait_any2` and the server's token loop |
| `PairingHeap`, `TimerModel`, `Timer`, `SteadyTask`, `BgWorkModel`, `BgWorkRun`, `BgWork` | timers and `poll_bg_work` |
| `WatchedModel`, `Watched` | watched values |
| `RingModel`, `Ring` | the single-producer, single-consumer ring |
| `HttpSplit`, `HttpModel`, `HttpMigration`, `Http` | request framing and connection migration |
| `WrrModel`, `Wrr` | the weighted round-robin slot distributor |

Three modelling conventions recur. What a future does when polled is asked of an oracle, and every
statement is for every oracle, so it covers whatever futures do: spawn, wake, cancel, complete. A
scheduler run is *legal* while wake-ups name live tasks, cancellations name live background tasks,
and no task flagged dropped is taken out (`take` asserts that); `SchedulerCall.StaleWakePanics` shows
that the first condition is needed. Panics are modelled as results, and shown unreachable or
characterised. A handle's destructor runs, in the model and in the classes, wherever the source has
a handle go out of scope, so that "nobody is marked dropped" rests on the key having been taken out.

Where the program does not do what one might expect, the model follows the program, and a lemma
gives the input and the exact condition:

- A task whose handle is dropped is reaped by the next `poll` if and only if it is not at bit 0 of
  its page (`DroppedLeavesIff`); at bit 0 it survives and can be polled again
  (`DroppedAtBitZeroIsPolledAgain`, and `FirstTaskIsAtBitZero` for such a state).
- `wait_any2` fails with EINVAL if and only if some token is dead, or repeats an earlier one whose
  result it has taken, and before the first such token no background task has completed and fewer
  tokens have than there is room for results (`InvalidTokenIff`). Exactly those completed tokens are
  then gone from the scheduler and reported to nobody, so results are lost if and only if there is
  one (`InvalidTokenLosesResults`); `ResultsAreLost` shows both causes in a reachable state.
- A connection that moves to another server has at least as much room right after, yet can overflow
  later where it would not have, had it stayed (`MigrationCanOverflow`). `OverflowIff` says exactly
  when a migration before a chunk can make the next chunk after it fail: when that chunk takes the
  unmigrated buffer to its very end and has it gain room by compaction. A connection that never gains
  room that way can be migrated anywhere without harm (`MigratedFits`).
- Session data survives migration if and only if its length fits 32 bits (`MigrationPreservesIff`).
- The distributor's second correction loop ends if and only if there are no more backends than
  slots (`ShrinkingEndsIff`).

## Model

| member | source | states |
|---|---|---|
| KeySpace.LocationOf | src/rust/scheduler/pin_slab.rs:319-335 | every key below 2^63 has a location: key = start of its slot + offset, the offset below the slot's size, the length that of `slot_sizes`, and no bit lost in the shifts |
| KeySpace.KeyAt | src/rust/scheduler/pin_slab.rs:319-335 | conversely each (slot, offset) with offset below the slot's size is the location of one key: with LocationOf, a bijection |
| KeySpace.SlotsDisjoint | src/rust/scheduler/pin_slab.rs:319-335 | two locations with the same key are the same location |
| KeySpace.SlotFits | src/rust/scheduler/pin_slab.rs:337-342 | the slots laid end to end fill the key space exactly: as long as the next one starts below 2^63, it also ends there |
| SlabModel.InsertKeepsShape | src/rust/scheduler/pin_slab.rs:102-106 | insertion keeps the free chain: it visits each vacant key once and ends at the high-water mark, below which nothing is None and above which everything is |
| SlabModel.NewSlotLocation | src/rust/scheduler/pin_slab.rs:280-287 | when a slot is allocated its index is the number of slots and the offset is 0 |
| SlabModel.RemoveKeepsShape | src/rust/scheduler/pin_slab.rs:172-199 | removal keeps the free chain and pushes the key on its front |
| SlabModel.LenIsSize | src/rust/scheduler/pin_slab.rs:289 | `len` is the number of entries |
| SlabModel.GetIsLookup | src/rust/scheduler/pin_slab.rs:120-162 | `get` is lookup in the map of entries, for every key |
| SlabModel.InsertRefinesMap | src/rust/scheduler/pin_slab.rs:258-292 | insertion binds one key that was not bound, or is refused with all 2^63 keys taken and changes nothing; the unreachable arm is not reached |
| SlabModel.RemoveRefinesMap | src/rust/scheduler/pin_slab.rs:202-228 | removal unbinds its key only, and does nothing to an unbound one |
| SlabModel.UpdateRefinesMap | src/rust/scheduler/pin_slab.rs:109-117 | writing through a pinned reference rebinds its key only |
| SlabModel.EveryRun | src/rust/scheduler/pin_slab.rs:102-292 | every run from empty keeps the invariant, never reaches `unreachable!`, and its high-water mark is the peak number of live entries |
| SlabModel.CapacityBoundedByPeak | src/rust/scheduler/pin_slab.rs:243-292 | capacity never exceeds max(16, 2*(peak-1)) once anything was stored |
| SlabModel.RemovedKeyIsReusedFirst | src/rust/scheduler/pin_slab.rs:102-106 | an insertion right after a removal reuses the removed key |
| PinSlabs.PinSlab.Get | src/rust/scheduler/pin_slab.rs:120-162 | the slots of arrays answer as the map does |
| PinSlabs.PinSlab.InsertAt | src/rust/scheduler/pin_slab.rs:258-292 | in place: one cell changes, a slot may be added, no other cell moves |
| PinSlabs.PinSlab.Insert | src/rust/scheduler/pin_slab.rs:102-106 | refines the model's insertion |
| PinSlabs.PinSlab.Remove | src/rust/scheduler/pin_slab.rs:172-199 | refines the model's removal; tells an invalid key from a vacant one |
| PinSlabs.PinSlab.RemoveUnpin | src/rust/scheduler/pin_slab.rs:202-228 | the same, returning the value |
| Words.MaskIsModulo | src/rust/collections/ring.rs:186-203 | masking with 2^k - 1 is reduction modulo 2^k |
| Words.SetBit | src/rust/scheduler/waker64.rs:43-46 | or-ing with one bit adds that bit to the word and no other |
| Words.ClearBit | src/rust/scheduler/waker64.rs:50-53 | and-ing with the complement removes that bit and no other |
| WakerPages.WakerPage.TakeNotified | src/rust/scheduler/page/page.rs:65-72 | answers the notified bits that are neither completed nor dropped, and clears all notified bits |
| WakerPages.WakerPage.TakeDropped | src/rust/scheduler/page/page.rs:94-96 | answers and clears the dropped bits |
| WakerPages.WakerPage.Initialize | src/rust/scheduler/page/page.rs:115-120 | sets the notified bit of one task and clears its other two, other tasks untouched |
| WakerPages.WakerPage.Clear | src/rust/scheduler/page/page.rs:124-130 | clears all three bits of one task, other tasks untouched |
| Schedulers.SchedulerHandle.Drop | src/rust/scheduler/handle.rs:66-76 | a handle that holds its key sets that dropped bit; one whose key was taken changes nothing |
| Schedulers.SchedulerHandle.TakeKey | src/rust/scheduler/handle.rs:46-48 | the key leaves the handle |
| Schedulers.SchedulerHandle.HasCompleted | src/rust/scheduler/handle.rs:51-54 | for a handle of a key the scheduler issued: true exactly if the key holds a task that has returned Ready; the bit is found by masking key and word |
| SchedulerModel.InsertBears | src/rust/scheduler/scheduler.rs:79-90 | a new task gets a key nobody held, is notified, neither completed nor dropped, its key is within the pages, nobody else changes; with all keys taken nothing changes |
| SchedulerModel.InsertKeeps | src/rust/scheduler/scheduler.rs:79-90 | insertion keeps the scheduler's invariant |
| SchedulerModel.PerformAllKeeps | src/rust/scheduler/scheduler.rs:129-204 | whatever running code does, nobody leaves, newcomers are new, flags only grow |
| SchedulerPass.PollTaskKeeps | src/rust/scheduler/result.rs:53-64 | polling a live, unfinished task never panics and disturbs no other task, whatever its future does |
| SchedulerPass.PollBitsTurns | src/rust/scheduler/scheduler.rs:139-191 | the loop over a snapshot polls each of its tasks once, even if futures insert, wake and cancel meanwhile |
| SchedulerPass.ReapBitsLeaves | src/rust/scheduler/scheduler.rs:192-203 | the removal loop removes exactly the dropped tasks that are not at bit 0, with their flags |
| SchedulerPage.PageStep | src/rust/scheduler/scheduler.rs:129-204 | one page: invariant kept, other pages' tasks untouched, own tasks handled, tasks conserved; the notified flags it leaves are the matter of `PageAttends` |
| SchedulerCall.PollSafe | src/rust/scheduler/scheduler.rs:129-204 | a call of `poll` never fails its lookup, polls no completed future and nobody twice; live and reaped tasks together are the old and the new ones |
| SchedulerCall.WokenIsPolled | src/rust/scheduler/scheduler.rs:129-204 | a woken, unfinished, undropped task is polled in the next call, unless cancelled in it |
| SchedulerCall.PolledWasWoken | src/rust/scheduler/scheduler.rs:129-204 | only woken, unfinished, undropped tasks are polled |
| SchedulerWakes.PageAttends | src/rust/scheduler/scheduler.rs:134-203 | the flags of a page are taken once, before its tasks run: whoever is created or woken while they run, and not polled after that, carries the flag when the page is done, unless completed or dropped |
| SchedulerWakes.WakeUpSurvives | src/rust/scheduler/scheduler.rs:129-204 | who is woken or created by a future running in a call, and not polled in that call, is notified when the call ends, unless it completed or was dropped |
| SchedulerWakes.WokenIsPolledSoon | src/rust/scheduler/scheduler.rs:129-204 | over two calls: whoever is woken or created in one has been polled by the end of the next, unless it completed, was dropped or was cancelled |
| SchedulerWakes.PolledByNextCall | src/rust/scheduler/scheduler.rs:129-204 | the same for a task woken after its own poll in the first call: a wake-up not yet answered when a call ends is answered in the next |
| SchedulerWakes.SelfWakeSurvives | src/rust/scheduler/scheduler.rs:134-137 | a task that wakes itself whenever it is polled is notified after every call that polls it, until it completes |
| SchedulerWakes.EveryWakeUpCounts | src/rust/scheduler/scheduler.rs:72-204 | in every legal run a task that was created or woken and not polled since is notified, unless completed or dropped |
| SchedulerWakes.WakeSetsFlag | src/rust/scheduler/page/page.rs:58-61 | for every live task: its notified flag is set, no other flag and no task changes |
| SchedulerWakes.DropSetsFlag | src/rust/scheduler/handle.rs:66-76 | for every live background task: its dropped flag is set, no other flag and no task changes |
| SchedulerCall.DroppedLeavesIff | src/rust/scheduler/scheduler.rs:192-203 | a dropped task leaves in the call if and only if its index in the page is not 0 |
| SchedulerCall.OthersStay | src/rust/scheduler/scheduler.rs:192-203 | whoever was neither dropped nor cancelled stays |
| SchedulerCall.NewcomersStay | src/rust/scheduler/scheduler.rs:129-204 | a task created in the call leaves in it only if its own handle was dropped in it |
| SchedulerCall.TakeKeeps | src/rust/scheduler/scheduler.rs:96-104 | taking a live task that is not flagged dropped removes that task and its flags, nothing else, and does not panic |
| SchedulerCall.EveryRun | src/rust/scheduler/scheduler.rs:72-204 | every legal run from the empty scheduler keeps the invariant and never panics; every key issued at any moment of the run, still in use or not, is within the pages |
| SchedulerCall.DoKeeps | src/rust/scheduler/scheduler.rs:72-204 | each action of a client keeps the invariant; keys ever issued and pages only grow |
| SchedulerCall.DroppedAtBitZeroIsPolledAgain | src/rust/scheduler/scheduler.rs:196 | a dropped task at bit 0 is polled again after the next wake-up |
| SchedulerCall.FirstTaskIsAtBitZero | src/rust/scheduler/scheduler.rs:79-90 | the first task of a scheduler is such a task |
| SchedulerCall.StaleWakePanics | src/rust/scheduler/scheduler.rs:129-191 | waking a key without a task makes the next `poll` of a quiet scheduler panic |
| Schedulers.Scheduler.GetPage | src/rust/scheduler/scheduler.rs:72-76 | shift and mask of a key lead to the page and index where the three flags the model has for that key are found |
| Schedulers.PageIndex | src/rust/scheduler/scheduler.rs:72-76 | for every key, the shift by 6 and the mask with 63 are quotient and remainder by 64 |
| Words.ShiftIsDivision | src/rust/scheduler/scheduler.rs:72-76 | shifting right by n is division by 2^n |
| Schedulers.Scheduler.Insert | src/rust/scheduler/scheduler.rs:116-124 | slab, pages and flags change as the model says, and the handle returned owns the new key and knows its page |
| Schedulers.SchedulerHandle.IntoRaw | src/rust/scheduler/handle.rs:57-60 | the key leaves the handle before its destructor runs, and the page's dropped bits are as they were |
| Schedulers.Scheduler.Destroy | src/rust/scheduler/handle.rs:66-76 | a handle going out of scope cancels the task whose key it still owns, and otherwise changes nothing about the scheduler |
| Schedulers.Scheduler.IntoToken | src/rust/scheduler/handle.rs:57-76 | turning a handle into a token, destructor included, leaves the scheduler as it was |
| Schedulers.Scheduler.Poll | src/rust/scheduler/scheduler.rs:129-204 | the loops over pages and bits compute the model's `Poll` on the real masks and cells, so that the wake-up guarantees above hold of the real flags |
| Schedulers.Scheduler.FromRawHandle | src/rust/scheduler/scheduler.rs:107-113 | a handle exactly for the keys of live tasks |
| Schedulers.Scheduler.Take | src/rust/scheduler/scheduler.rs:96-104 | hands out any live task, fails its assertion exactly if the task was dropped; the key is out of the handle before its destructor runs, so nobody is marked dropped |
| WaitModel.ScanTakesFirstCompleted | src/rust/inetstack/mod.rs:585-609 | for distinct live tokens: strictly increasing indices of the first min(room, completed) completed tokens, exactly those tasks removed; every turn ends with its handle's destructor, and no dropped flag changes |
| WaitModel.ScanStops | src/rust/inetstack/mod.rs:585-609 | where and why a scan of any tokens stops: dead, repeated and background ones included |
| WaitModel.InvalidTokenIff | src/rust/inetstack/mod.rs:587-605 | for any tokens: EINVAL iff the first token that stops the scan is dead or repeats a completed one, with fewer completed tokens before it than room; a panic iff it is a completed background task, with the same room |
| WaitModel.InvalidTokenLosesResults | src/rust/inetstack/mod.rs:587-605 | what EINVAL costs, for any tokens and any room: exactly the completed tokens before the first bad one are gone from the scheduler; something is lost iff there is one; nobody is marked dropped, although handles were made and destroyed |
| WaitModel.ResultsAreLost | src/rust/inetstack/mod.rs:587-605 | after starting and polling one operation that completes at once, scanning its token twice, or with a dead one after it, loses its result |
| WaitAny.LookAt | src/rust/inetstack/mod.rs:591-609 | one token and its handle's life: not found, completed and taken, a panic on a background task, or pending with the key taken out; the destructor runs last and cancels nobody |
| WaitAny.ScanTokens | src/rust/inetstack/mod.rs:584-609 | the loop with its arrays and counter computes the model's scan for any tokens, on the error path and in a panic too |
| WaitAny.WaitAny2 | src/rust/inetstack/mod.rs:575-621 | for any tokens: it returns in the first round whose scan takes something or is stopped, or in which the time is up, and waits exactly as long as no round does; nothing but the rounds and that scan has happened |
| WaitAny.GoodTokensWait | src/rust/inetstack/mod.rs:575-621 | for pairwise distinct live tokens a wait is never EINVAL and never panics, and returns the first min(room, completed) completed ones; exactly their tasks are removed and no dropped flag changed |
| WaitModel.OperationStays | src/rust/scheduler/scheduler.rs:129-204 | an operation leaves the scheduler only by being taken |
| WaitModel.RoundKeepsTokens | src/rust/inetstack/mod.rs:812-863 | background work keeps tokens live and distinct |
| ServerModel.SwapRemoveBag | examples/rust/http-server.rs:402 | `swap_remove` takes one token out of the bag and leaves everything below the index in place |
| ServerModel.HandleAllKeeps | examples/rust/http-server.rs:400-527 | handling results in reverse order removes exactly their tokens and adds, in order of creation, one token for each task created, although freed keys are reissued while stale equal tokens are still in the vector |
| ServerModel.TurnKeeps | examples/rust/http-server.rs:381-527 | one iteration: the token vector is, as a bag, the old tokens minus the completed plus exactly one for each operation the iteration scheduled, distinct, each naming a live operation |
| ServerModel.EveryServerRun | examples/rust/http-server.rs:381-527 | so after every run; the only crash is out of keys |
| ServerModel.EveryTokenHasAPurpose | examples/rust/http-server.rs:433-507 | after every run one accept is in flight, one pop for each open connection, and the vector holds one token for each operation in flight |
| Servers.TokenServer.HandleResults | examples/rust/http-server.rs:400-527 | the reverse loop over the mutable vector computes the model's handling |
| Servers.TokenServer.HandleResult | examples/rust/http-server.rs:400-527 | one result: its token swapped out, its follow-ups pushed |
| PairingHeap.RootIsFirst | src/rust/collections/intrusive/pairing_heap.rs:272-274 | `peek_min` is a minimum |
| PairingHeap.InsertKeeps | src/rust/collections/intrusive/pairing_heap.rs:255-265 | insertion keeps the heap and adds one entry |
| PairingHeap.MergeKeeps | src/rust/collections/intrusive/pairing_heap.rs:192-236 | merging children loses nothing and keeps the order |
| PairingHeap.MergeSiblings | src/rust/collections/intrusive/pairing_heap.rs:192-236 | the right-to-left loop computes the recursive merge |
| PairingHeap.RemoveKeeps | src/rust/collections/intrusive/pairing_heap.rs:279-314 | removing a node, root or deep inside, keeps the heap and removes that entry alone |
| TimerModel.PollKeeps | src/rust/runtime/timer.rs:176-217 | an uncompleted future is Ready exactly when the clock is at or past its expiry, whatever its state, and a completed one panics; a future that is not ready holds the waker that polled it; no expiry and no other future changes |
| TimerModel.DropKeeps | src/rust/runtime/timer.rs:225-237 | dropping leaves the heap with exactly the registered futures |
| TimerModel.AdvanceFires | src/rust/runtime/timer.rs:93-112 | advancing expires exactly the due futures, once each, earliest first, and rings their wakers in that order |
| TimerModel.EveryRun | src/rust/runtime/timer.rs:93-237 | in every run of create, poll, drop and advance: Registered iff in the heap, Registered implies later than now, Expired implies not later, every answer is what the clock says, every future waits for the time it was asked for, and a registered one holds the waker of its last poll |
| TimerModel.EveryRing | src/rust/runtime/timer.rs:93-112 | at any point of any run, advancing the clock wakes for each due future, in order of expiry, the task that polled it last |
| Timers.TimerQueue.AdvanceClock | src/rust/runtime/timer.rs:93-112 | the drain loop, which ends because the heap shrinks, computes that |
| Timers.TimerQueue.Poll | src/rust/runtime/timer.rs:176-217 | ready iff now >= expiry; if not, the stored waker is the one that polled; state as the model says |
| Timers.TimerQueue.DropFuture | src/rust/runtime/timer.rs:225-237 | as the model says |
| Timers.TimerQueue.WaitUntil | src/rust/runtime/timer.rs:122-132 | a new unregistered future |
| SteadyTask.SteadyAnswer | src/rust/scheduler/scheduler.rs:129-204 | a task neither dropped nor cancelled, whose future answers the same throughout a call, completes in it iff it is polled and that answer is Ready |
| BgWorkModel.PollCommutes | src/rust/runtime/timer.rs:176-217 | the waiting task's poll commutes with what others do to the timer |
| BgWorkModel.PollCommutesAll | src/rust/runtime/timer.rs:176-217 | it commutes with any list of what others do |
| BgWorkModel.AnyPosition | src/rust/inetstack/mod.rs:812-863 | wherever in a call the waiting task is polled, the timer ends up the same |
| BgWorkModel.CallSteps | src/rust/inetstack/mod.rs:812-863 | one call and the waiting task: when it completes, when its future fires, when nothing happens |
| BgWorkModel.CompletesInTime | src/rust/inetstack/mod.rs:812-863 | a task waiting on a timer completes in exactly the call after the next clock move: at most 65 calls from the first at which real time has reached its expiry, and no sooner |
| BgWorkModel.LongestWait | src/rust/inetstack/mod.rs:90 | of all positions in the cycle of calls, just after a clock move is the one that takes all 65 |
| BgWorkModel.Cadence | src/rust/inetstack/mod.rs:859-862 | over any run of calls, call n sets the clock to the time it reads iff `ts + n` is a multiple of 64; otherwise the clock stands |
| BgWorkModel.NeverEarly | src/rust/inetstack/mod.rs:812-863 | it never completes before its expiry, however the calls go |
| BgWorkRun.FirstWaiter | src/rust/runtime/timer.rs:176-217 | a task can come to wait like this, for any expiry in the future |
| BgWorkRun.ComesToWait | src/rust/runtime/timer.rs:176-217 | any live, unfinished, undropped task comes to wait by polling any future, not yet due, that nobody has polled |
| BgWorkRun.WaitsAndCompletes | src/rust/inetstack/mod.rs:812-863 | and there are two undisturbed calls after which it has completed, so that the 65-call bound is about something |
| BgWork.InetStack.PollBgWork | src/rust/inetstack/mod.rs:812-863 | scheduler, clock and `ts_iters` change as the model's call says, the waiting task polling its future exactly if the scheduler polls it |
| BgWorkModel.CallOpsApply | src/rust/inetstack/mod.rs:812-863 | what the futures do to the timer, poll by poll, amounts to one list of operations applied in a row |
| BgWork.InetStack.Tick | src/rust/inetstack/mod.rs:859-862 | the counter runs modulo 64, the clock moves exactly when it is 0, and the tasks of the due futures are woken |
| WatchedModel.ModifyCompletes | src/rust/runtime/watched.rs:88-97 | a modification completes every registered future and wakes its task, from the back of the list, and changes nothing else but the value |
| WatchedModel.RemoveKeeps | src/rust/collections/intrusive/double_linked_list.rs:206-242 | removing a member takes it out and leaves the others in their order |
| WatchedModel.DropKeeps | src/rust/runtime/watched.rs:170-185 | the panic on a failed removal is unreachable |
| WatchedModel.EveryRun | src/rust/runtime/watched.rs:79-185 | in every run the value is what the modifications made of it; a polled future is Ready exactly when `modify` or `set` came after its first poll, is terminated exactly when it has returned Ready, and holds the waker of its last poll while it waits; waiters are listed in the order of their first polls; dropping never panics |
| WatchedModel.EveryRing | src/rust/runtime/watched.rs:88-97 | at any point of any run a modification wakes, once for each waiting future and in the order of their first polls, the task that polled it last |
| WatchedModel.PollKeeps | src/rust/runtime/watched.rs:127-159 | a future that is not ready holds the waker that polled it; the value and all other futures are unchanged |
| WatchedValues.WatchedValue.Modify | src/rust/runtime/watched.rs:88-97 | the reverse drain computes the model's modification |
| WatchedValues.WatchedValue.Set | src/rust/runtime/watched.rs:79-81 | `set` is `modify` with a constant |
| WatchedValues.WatchedValue.Poll | src/rust/runtime/watched.rs:127-159 | as the model says; if not ready, the stored waker is the one that polled |
| WatchedValues.WatchedValue.DropFuture | src/rust/runtime/watched.rs:170-185 | the removal succeeds |
| RingModel.EveryInterleaving | src/rust/collections/ring.rs:160-236 | under every interleaving of index loads, cell accesses and index stores: no index out of bounds, accepted items enter in order, dequeued is a prefix of enqueued, at most capacity-1 in flight, the two sides never at the same cell, and every answer exact at its deciding load |
| RingModel.NextKeeps | src/rust/collections/ring.rs:160-236 | each single step keeps the relation between masked indices and unbounded counters |
| RingModel.ProducerTests | src/rust/collections/ring.rs:186-193 | the stale front decides fullness exactly as of its own load |
| RingModel.ConsumerTests | src/rust/collections/ring.rs:217-224 | the stale back decides emptiness exactly as of its own load |
| Rings.PowerOfTwoTest | src/rust/collections/ring.rs:52-57 | a word has one bit set iff it is a power of two |
| Rings.NewRing | src/rust/collections/ring.rs:50-86 | a ring exactly for the powers of two, empty |
| Rings.FromRawParts | src/rust/collections/ring.rs:89-152 | each error exactly when it applies; otherwise indices and cells fit the region, apart and aligned, the length is the largest power of two that fits, and the indices are reset if asked for and else taken over from memory |
| Rings.RingOver | src/rust/collections/ring.rs:134-151 | with its indices reset, what is placed is an empty ring over the given cells, obeying the protocol |
| Rings.RingBuffer.TryEnqueue | src/rust/collections/ring.rs:186-205 | alone, it appends the item, or refuses it iff capacity-1 are held; it is five steps of the protocol |
| Rings.RingBuffer.TryDequeue | src/rust/collections/ring.rs:217-236 | alone, it takes the oldest item, or nothing iff there is none |
| Rings.RingBuffer.IsFull | src/rust/collections/ring.rs:160-170 | full iff capacity-1 are held |
| Rings.RingBuffer.IsEmpty | src/rust/collections/ring.rs:173-183 | empty iff none is held |
| HttpSplit.Find | examples/rust/http-server.rs:235-239 | the first position of the terminator, if any |
| HttpSplit.SplitSound | examples/rust/http-server.rs:260-275 | the greedy split loses nothing, cuts at first terminators only and leaves none behind |
| HttpSplit.SplitUnique | examples/rust/http-server.rs:260-275 | no other split does that |
| HttpSplit.SplitAppend | examples/rust/http-server.rs:241-276 | splitting can stop at any byte and go on with what is left |
| HttpModel.AnswerSplits | examples/rust/http-server.rs:260-275 | the answering loop yields the greedy split, never needs a larger buffer, and leaves the bytes where a closed form says |
| HttpModel.PushSplits | examples/rust/http-server.rs:241-276 | a push, fast path or not, panics exactly if the data does not fit, and otherwise answers the split of the unread bytes with the data |
| HttpModel.DeserializeSerialize | examples/rust/http-server.rs:125-143 | what comes back from the serialised bytes, whatever follows them |
| HttpModel.BigEndian | examples/rust/http-server.rs:131-134 | byte 0 of a length is its most significant one |
| HttpModel.WireFormat | examples/rust/http-server.rs:318-326 | the unread bytes behind their length, then the session behind its length, and nothing else |
| HttpModel.MigrationPreservesIff | examples/rust/http-server.rs:298-333 | unread bytes and session data survive, with no less room, iff the session length fits 32 bits |
| HttpModel.FitsAfterMigration | examples/rust/http-server.rs:136-142 | whatever fitted before a migration fits right after it |
| HttpModel.ServedIffFits | examples/rust/http-server.rs:241-276 | a history of chunks and migrations is served to the end iff each chunk fits when its turn comes |
| HttpModel.ServeSplits | examples/rust/http-server.rs:241-333 | the requests answered are the greedy split of the whole stream, however it is chunked and however often it migrates |
| HttpModel.MigrationIsTransparent | examples/rust/http-server.rs:241-333 | two histories of one stream that are both served answer the same and end the same |
| HttpMigration.RoomLostIff | examples/rust/http-server.rs:103-122 | the roomier of two equal buffers takes all the other takes, and ends up with less room iff the other is compacted and it is not |
| HttpMigration.OverflowIff | examples/rust/http-server.rs:103-143 | a migration before a chunk can make the next chunk after it fail that would fit in place iff that chunk compacts the buffer in place and bytes lay in front of the unread ones |
| HttpMigration.MigratedFits | examples/rust/http-server.rs:103-143 | a connection served in place without gaining room by compaction is served with migrations anywhere |
| HttpMigration.MigrationCanOverflow | examples/rust/http-server.rs:103-143 | three chunks that are served in place and panic after a migration |
| Http.Buffer.TryShrink | examples/rust/http-server.rs:103-122 | reset, compaction in place or neither, contents kept; panics iff full of unread bytes |
| Http.Buffer.PullData | examples/rust/http-server.rs:94-97 | drops the first bytes |
| Http.Buffer.Append | examples/rust/http-server.rs:254-256 | the data follows the unread bytes |
| Http.Buffer.PushDataAndRun | examples/rust/http-server.rs:241-276 | on the array: answers the greedy split, or fails iff the data does not fit |
| Http.Buffer.SerializeWith | examples/rust/http-server.rs:318-326 | writes exactly the serialised bytes and leaves the rest of the output alone |
| Http.Buffer.DeserializeFrom | examples/rust/http-server.rs:328-332 | a fresh buffer holding what was serialised, or failure exactly on malformed input |
| WrrModel.InverseOrders | p4/switch_fe/capybara_switch_fe_monitor.py:15-31 | weights are positive and non-increasing in load |
| WrrModel.CorrectionIsSmall | p4/switch_fe/capybara_switch_fe_monitor.py:39-41 | rounding is off by fewer slots than there are backends, either way |
| WrrModel.ShrinkingEndsIff | p4/switch_fe/capybara_switch_fe_monitor.py:46-54 | the second loop ends iff there are no more backends than slots |
| WrrModel.DistributedServesAll | p4/switch_fe/capybara_switch_fe_monitor.py:33-56 | everyone gets a slot and the slots add up to the total |
| WrrModel.DistributedChanges | p4/switch_fe/capybara_switch_fe_monitor.py:43-54 | only the heaviest backend gains; losses come from the lightest and then in order, each down to one before the next |
| WrrModel.DistributedShares | p4/switch_fe/capybara_switch_fe_monitor.py:39-54 | nobody but the heaviest backend gets more than its exact share, or one slot; and if the rounded shares do not exceed the total, nobody is a whole slot below its share |
| WrrModel.LayoutCounts | p4/switch_fe/capybara_switch_fe_monitor.py:58-66 | each port occurs in the registers as often as it has slots, nothing else occurs |
| WrrModel.LayoutAt | p4/switch_fe/capybara_switch_fe_monitor.py:58-66 | register i holds port 10000 + p iff i lies in that port's stretch of the running sum |
| Wrr.CalculateWeights | p4/switch_fe/capybara_switch_fe_monitor.py:15-31 | weight times load is the greatest load; positive; ordered |
| Wrr.Grow | p4/switch_fe/capybara_switch_fe_monitor.py:43-45 | the first loop's result and number of steps |
| Wrr.Shrink | p4/switch_fe/capybara_switch_fe_monitor.py:46-54 | the second loop's result and number of steps |
| Wrr.DistributeSlots | p4/switch_fe/capybara_switch_fe_monitor.py:33-56 | each loop takes fewer steps than there are backends; everyone is served; the slots add up; both share bounds of `DistributedShares` hold; equal parts if all weights are 0 |
| Wrr.UpdateBackendRegisters | p4/switch_fe/capybara_switch_fe_monitor.py:58-66 | each index below the total is written once, with its port, and no other |
| Wrr.SlotsForLoads | p4/switch_fe/capybara_switch_fe_monitor.py:106-107 | for every load vector of at least one and at most `total` backends everyone is served and the slots add up |
| Wrr.Rebalance | p4/switch_fe/capybara_switch_fe_monitor.py:105-112 | after a turn of the monitor the registers hold each port as often as it has slots |

## Left out

- WaitAny.WaitAny2: the source loops without bound; the method is given a number of rounds and answers StillWaiting when they are used up, which its contract allows only if nothing came of any of them.
- RingModel.EveryInterleaving: interleavings are sequentially consistent; the reorderings that relaxed atomics allow are not modelled.
- BgWork.InetStack.PollBgWork: what polled futures do to the timer is replayed after the scheduler's poll rather than inside it; `AnyPosition` is why the order does not matter to the waiting task.
- Rings.FromRawParts: attaching to a ring that another process is using, whose indices are taken over, yields the indices but no ring object; elements are not laid over bytes of memory.
- SchedulerModel.Reap: the destructor of a reaped future, which may drop handles the future owns and so cancel further tasks, has no effects in the model.
- ServerModel.HandleOne: what handlers do to the scheduler besides starting operations (`initiate_migration` cancels and wakes tasks) is not modelled.
- ServerModel.EveryTokenHasAPurpose: a failure with ETCPMIG, which the source does not match to an operation, is counted as the end of the connection's pop.
- Wrr.DistributeSlots: weights are exact rationals, not floating-point numbers; an empty list of backends, on which the source divides by zero, is excluded.
- `PairingHeap` and the watchers' list work on values (a first-child/next-sibling tree, a sequence): pointer updates in place, and the memory safety that rests on pinning, are not modelled.
- Raw pointers, allocation layouts, `Pin`, reference counts of waker pages and waker vtables: cells and object identity only.
- `PinSlab::clear`, which runs only at the end of a slab's life.
- `wait2`, `timedwait2`, `wait_any_nonblocking2` and the other waits: they repeat `wait_any2` for one token or one round.
- `RingBuffer::enqueue` and `dequeue`, which spin on the modelled calls until they succeed.
- The never-completing variant of a watch future.
- Answering a request (`respond_to_request`): requests are recorded, responses are not.
- TCP, UDP, ARP and the migration protocol, packet receipt and statistics: in `poll_bg_work` they appear as arbitrary effects on the scheduler.
- Catnap, catcollar, catnip and catpowder, C bindings, configuration, logging, table setup and evaluation scripts.
