# pipe-io in Dafny

A model of the hard parts of the stream processor `pipe-io`, with proofs about it: time
windows (unkeyed and keyed), the bounded edge between two threads, the threaded driver, the
single-threaded run lifecycle, the push-style stage chain, batching, and line splitting.
`dafny verify dfyconfig.toml` checks everything.

## What is here

**Windows.** `WindowCore` is the three-variant window state machine (tumbling, sliding,
session) with the grid arithmetic. The loops over the slot deque are methods, proved equal to
functions. `WindowGrid` is the grid; `WindowLaws` shows that a core amounts to a canonical
form plus the windows already due, so that ticks only decide when a window comes out;
`WindowRuns`, `WindowPartition` and `SlidingExact` draw the consequences for whole runs, and
`WindowTimes` says when a window comes out and which interval it reports.

**Keyed windows.** `KeyedState` and `KeyedRep` hold the slab, the free list, the intrusive LRU
links, the index, and the heap of ticketed deadlines, with the representation invariant.
`NaiveKeyed` is the simple reference, with a map of keys and a scan over all of them for every
event. `KeyedStage` is the stage itself, a class with the program's fields and methods.
`KeyedRefines` and `KeyedRuns` prove that the class behaves like the reference, and
`KeysDoNotInterfere` that the reference behaves like one unkeyed core per key. `NaiveContents`
shows, through releases and evictions, that what has come out for a key and what it still
buffers is what it was fed, and so which keys are held. `KeyedOrder`
follows the turns of one `expire`, for any clock, and derives the order of its output;
`KeyedItem` says what an item does to the state; `NaiveDeadlines` and `KeyedHeap` bound the
heap by the keys held now. `NaiveAlarms` tells, beside the reference, when the stage wakes each
key, and `KeyedAlarms` that its `scheduled` fields are these instants. `KeyedBirths` tells from
the keys held alone with which item each was born, and that a flush emits them in this order.
`KeyedExamples` runs the stage on the inputs on which the documentation promises too much.

**Edge and threads.** `Edge` is the single-producer, single-consumer edge as atomic steps over
sequentially consistent memory; `EdgeLaws` proves the bound, the order, that no wake-up is lost
and that every wait ends. `Segments` gives a chain cut at its `buffer` edges two meanings,
nested calls and composed transformers of histories, and proves them equal. `Threaded` is the
driver as a state machine over all schedules, with every thread's teardown up to the source
thread's wait for the `_done` senders and its call of `Source::close`; `ThreadedLaws`,
`ThreadedRuns` and `ThreadedEnds` prove determinacy, teardown, that failures do not depend on
the schedule, and termination. `ThreadedStages` cuts the stages of `Chain` at the edges and
shows that the threads compute the same list functions.

**Lifecycle and chain.** `Runner` and `Pipeline` are classes whose user calls are answered by an
oracle (return, fail or panic). `Chain` is the assembled chain as a class; `ChainMeaning` proves
that it means list functions, and `ChainRuns` draws the consequences for whole runs.

**Batching and lines.** `Batching` and `Lines` are classes with their specifications beside them.

Instants and durations are integers in nanoseconds; `Grid.horizon` is the last representable
instant, so that `checked_add` fails exactly above it. User closures are functions or oracles.

## Where the documentation says more than the code

* src/window.rs:23-25 and 977-978 say that expired windows of all keys come out in the order of
  their ends, or deadlines. `KeyedOrder.InOrderExactlyWhen` says when they do: if and only if,
  for any two keys that are due and emit something, an earlier heap entry means that the last
  due window of the one ends no later than the first of the other. Tumbling windows always do.
  Sessions need not (`KeyedExamples.SessionRun`: the heap entry of a session keeps its first,
  earlier deadline), nor sliding windows (`KeyedExamples.SlidingRun`: one turn takes all due
  windows of a key).
* src/window.rs:9-11 says that each item joins ceil(size/slide) windows.
  `WindowGrid.JoinedIsCeilExactlyWhen` says for which arrivals that is so; after the shifted
  origin the others join one window fewer (`WindowGrid.OneWindowFewer`). If the shifted origin
  is not representable the first item joins one window only (`WindowGrid.OriginFallsBack`).
* src/window.rs:787-791 says that the heap stays within a constant factor of the number of keys.
  While the clock does not go back it does, for the keys held now (`KeyedRuns.RunKeyed`). With
  a clock that goes back it need not (`KeyedExamples.BackwardRun`): `expire` leaves at most one
  entry for each key and the stale entries that are not due (`KeyedHeap.ExpireLeaves`), and
  `KeyedStage.KeyedWindowStage.StaysBounded` bounds them by `max_keys`.
* src/driver.rs:34-35 says that `items_out` counts the items the sink accepted. It does on runs
  that succeed. On a run that fails it does if and only if the failing call failed before its
  first output or at it (`ChainRuns.RunToEnd`), as calls for items always do without
  `flat_map`; otherwise the partial count of the failing call is dropped
  (`ChainRuns.PartialCountIsDropped`, src/pipeline.rs:1340, src/runtime.rs:457-459).
* src/threaded.rs:197-198 says that a retry moves past a flush or close that panics. That is so
  in the drop of a segment. A segment's own abort (src/threaded.rs:158 and 180) clears `live`
  first, so that a sink whose first flush panics there is not closed
  (`ThreadedRuns.CloseCanBeSkipped`); `ThreadedRuns.TornDownOnce` shows that this is the only
  case in which one of the calls is missing.
* src/window.rs:943-945 says that a key whose entry fires early is examined and scheduled again.
  Near the last representable instant it can be released instead, although its session is not
  over, which the reference of the tests never does (`KeyedExamples.EndRun`). From every state
  that agrees with the reference, one `expire` leaves the reference's keys without those whose
  entry is due, that hold nothing, and whose deadline is not representable (these keys part); so
  the two agree again if and only if there are none (`KeyedOrder.AgreesExactlyWhen`,
  `KeyedStage.KeyedWindowStage.Expire`). Only sessions can be such keys. `KeyedRuns.RunThenTick`
  says the same of runs, by a condition on the events (`NonePart`) which always holds far enough
  from the last instant (`NaiveAlarms.NonePartFarFromTheEnd`).

## Model

| member | source | states |
|---|---|---|
| WindowGrid.AlignFindsGridPoint | src/window.rs:617-621 | the aligned start is a grid point with `now` inside its window; the overflow fallback is not used |
| WindowGrid.AlignIsUnique | src/window.rs:617-621 | any grid point whose window contains `now` is the one found |
| WindowGrid.RangeIsExact | src/window.rs:624-632 | the index range is exactly the set of windows whose interval contains the arrival |
| WindowGrid.RangeIsMonotone | src/window.rs:624-632 | both ends only move forward with the clock |
| WindowGrid.JoinedIsFloorOrCeil | src/window.rs:437-448 | after the shifted origin every arrival joins floor or ceil of size/slide windows, exactly that when slide divides size |
| WindowGrid.JoinedIsCeilExactlyWhen | src/window.rs:9-11 | for every arrival after the origin the documented ceil(size/slide) holds if and only if the grid has run for (ceil - 1) slides, and slide divides size or the arrival lies less than the remainder past a grid point |
| WindowGrid.OriginIsFarEnough | src/window.rs:432-448 | the shifted origin makes the first item join ceil(size/slide) windows, and for it and every later one the grid has run for long enough |
| WindowGrid.OriginFallsBack | src/window.rs:442-444 | where the shifted origin is not representable the first item joins one window |
| WindowGrid.OneWindowFewer | src/window.rs:624-632 | an arrival that joins one window fewer than the documentation says |
| WindowCore.EmitSlotsBefore | src/window.rs:637-646 | the loop pops exactly the slots below the index and emits the non-empty ones in order |
| WindowCore.JoinRange | src/window.rs:650-702 | the single pass over the deque, with its running position, equals placing the item into each index of the range in turn |
| WindowCore.SlidingOnItem | src/window.rs:650-702 | due slots out first, then the item into every open window, full slots emitted at once |
| WindowCore.CoreOnItem | src/window.rs:481-536 | the step of all three window kinds on an item |
| WindowCore.CoreOnTick | src/window.rs:540-575 | the step of all three window kinds on a tick |
| WindowCore.CoreOnFlush | src/window.rs:579-612 | the step of all three window kinds at the end of the stream |
| WindowLaws.Absorb | src/window.rs:481-612 | what is due later is what is due now followed by what becomes due of the rest |
| WindowLaws.TickOnlyEmits | src/window.rs:540-575 | a tick emits what is due and changes nothing else |
| WindowLaws.ItemEmitsPendingFirst | src/window.rs:481-536 | an item first emits what is due, and then acts as on the canonical core |
| WindowLaws.FlushEmitsPendingFirst | src/window.rs:579-612 | so does a flush, which leaves a new core |
| WindowLaws.DueExactlyWhen | src/window.rs:800-810 | a core is due exactly when a tick would emit or reset something, so its deadline is the earliest such instant |
| WindowLaws.ReleasedIsNew | src/window.rs:994-999 | a core that is empty after a due tick amounts to a new one, so its key may be released |
| WindowRuns.WindowStage.Process | src/window.rs:746-757 | the stage's fields and output follow the run of its history: an item fixes the grid if it is the first, and steps the core |
| WindowRuns.WindowStage.Tick | src/window.rs:759-765 | likewise for a tick, which does nothing before the first item |
| WindowRuns.WindowStage.Flush | src/window.rs:767-776 | likewise for a flush |
| WindowRuns.FirstItemFixesAnchor | src/window.rs:432-448 | over any run the grid starts where the first item arrives, for sliding windows ceil(size/slide) - 1 slides earlier if that is representable |
| WindowRuns.TicksAreTransparent | src/window.rs:481-612 | with a monotone clock, runs that differ only in ticks emit the same windows (items, start, end) in the same order, for every kind of window and item cap |
| WindowPartition.WindowsPartitionTheStream | src/window.rs:490-599 | tumbling and session windows, in order, are the arrivals in order, for any clock; none is empty or longer than the cap |
| WindowPartition.TumblingWindowsAreCells | src/window.rs:490-506 | with a monotone clock each tumbling window is a cell of the grid that starts at the arrival of the first item, and contains its items' arrival times |
| WindowPartition.SessionsAreMaximalRuns | src/window.rs:507-531 | for any cap the windows are the arrivals in order, cut where two are more than `idle` apart and, within a session, after every `cap` items, each with its start and end; without a cap in reach they are the maximal runs of arrivals with gaps of at most `idle` |
| WindowTimes.ItemIsTimely | src/window.rs:481-536 | every window an item emits, of all three kinds, is in its place on the grid, reports its interval, holds between one item and the cap, and is full or over |
| WindowTimes.WindowsAreTimely | src/window.rs:481-612 | so over whole runs, on the grid the first item fixes: no event emits a window early, unless it is a flush |
| SlidingExact.ItemJoins | src/window.rs:650-702 | one item is added to window `k` exactly if the interval of `k` contains it |
| SlidingExact.SlidingWindowsAreExact | src/window.rs:624-702 | over a whole run the pieces emitted for `k`, then what is buffered for it, are exactly the arrivals in its interval on the grid the first item fixes, in order; after a flush the pieces alone are |
| NaiveKeyed.OldestExists | src/window.rs:1714-1724 | with keys held, a least recently touched one exists |
| NaiveKeyed.TickAllIsSeenAsTick | src/window.rs:1688-1702 | examining all keys is, for each key, a tick nobody can see, even if the key is released |
| NaiveKeyed.FirstItemFixesKeyedAnchor | src/window.rs:1077-1085 | the first item of all keys fixes the grid of all keys |
| NaiveKeyed.KeysDoNotInterfere | src/window.rs:979-1003 | without a key limit in reach each key's windows over a whole run are those of one unkeyed core with the same anchor fed only that key's items |
| NaiveContents.KeyIsPartitioned | src/window.rs:979-1013 | for any clock, what has come out for a key of tumbling or session windows followed by what it buffers is its items in order, however often it is released, evicted and created anew |
| NaiveContents.KeyIsExact | src/window.rs:979-1013 | for sliding windows with a monotone clock the same window by window: pieces and buffer for each window are the key's arrivals in its interval |
| NaiveContents.AllOutMeans | src/window.rs:472-477 | everything a key was fed has come out if and only if nothing is buffered for it |
| NaiveContents.HeldExactlyWhen | src/window.rs:994-999 | a key that is due at an event, if it is not its own item, is held afterwards if and only if something it was fed has not come out |
| NaiveContents.HeldAfterTick | src/window.rs:994-999 | after a tick exactly the keys are held that were held before, but those that were due and of which everything has come out |
| NaiveContents.NoneStaysDue | src/window.rs:994-999 | no tumbling or session key is held after a tick at which it was due |
| KeyedState.UnlinkBypasses | src/window.rs:898-906 | rejoining the neighbours takes a slot out of the doubly linked list and changes nothing but links |
| KeyedState.PushBackAppends | src/window.rs:907-915 | appending links a slot in as the last one, forwards and backwards |
| KeyedState.CompactionKeepsLive | src/window.rs:960-975 | rebuilding the heap keeps every scheduled key's entry and leaves at most one entry per key |
| KeyedState.ScheduleKeepsHeap | src/window.rs:929-954 | a fresh ticket makes the key's older entry stale and the new one its only live one |
| KeyedState.PopKeepsHeap | src/window.rs:980-988 | popping a live entry unschedules its key, popping a stale one concerns no key |
| KeyedRep.RemovedOk | src/window.rs:918-926 | removing a key keeps the representation invariant and every other entry |
| KeyedRep.InsertedOk | src/window.rs:1016-1052 | creating a key in a free or new cell keeps the representation invariant |
| KeyedRep.TouchedOk | src/window.rs:1016-1024 | moving a key to the end of the list keeps the representation invariant |
| KeyedRep.ScheduledOk | src/window.rs:929-975 | scheduling, with compaction, keeps the invariant including the bound on the heap |
| KeyedRefines.TurnOk | src/window.rs:979-1003 | for any clock one turn of `expire` keeps the invariant, removes a due entry and adds none |
| KeyedRefines.TurnAgrees | src/window.rs:979-1003 | one turn keeps the agreement with the reference: stale, moved, released, kept and idle keys |
| KeyedRefines.ExpiredAll | src/window.rs:979-1003 | once no entry is due, every key whose deadline has passed has been examined as the reference does, and of the others exactly those that were released are missing; what came out is the reference's in any case |
| KeyedRefines.OnlySessionsPart | src/window.rs:800-810 | no tumbling or sliding key is scheduled without a representable deadline |
| KeyedOrder.TurnParts | src/window.rs:979-1003 | for any clock a turn changes for no other key whether it is about to be released although it is not due |
| KeyedOrder.AgreesExactlyWhen | src/window.rs:989-999 | stage and reference hold the same keys and cores after an `expire` if and only if no key with a due entry is empty without a representable deadline |
| KeyedRefines.EvictionIsVictim | src/window.rs:1006-1013 | the head of the list is the key the reference evicts |
| KeyedRefines.FlushAgrees | src/window.rs:1107-1119 | flushing the entries in order of creation gives each key what the reference gives it |
| KeyedOrder.TurnFrame | src/window.rs:979-1003 | for any clock a turn leaves every other entry as current as it was, for the same key with the same core, and the current ones in the heap |
| KeyedOrder.ExpiryIsInHeapOrder | src/window.rs:979-1003 | for any clock `expire` ticks exactly the keys of the current due entries it starts with, in heap order, and its output is theirs in this order |
| KeyedOrder.InOrderExactlyWhen | src/window.rs:977-978 | from every state that agrees with the reference the windows of one `expire` come out in the order of their ends if and only if the entries before the call say so |
| KeyedOrder.TreadsOrder | src/window.rs:979-1003 | for any clock `expire` keeps the list in the order of the last items |
| KeyedItem.AddedOrder | src/window.rs:1016-1052 | for any clock after an item its key is the last in the list and the others keep their order, whoever was evicted |
| NaiveDeadlines.NotDueMeans | src/window.rs:800-810 | a key that is not due is due no later than one that gets an item now, and together with it unless it is a session |
| NaiveDeadlines.ItemDeadline | src/window.rs:481-536 | after an item the key has the deadline of a new key, whatever it held |
| KeyedHeap.TreadsMakeNoStale | src/window.rs:979-1003 | `expire` makes no entry stale, and without a release the heap does not grow |
| KeyedHeap.ExpireLeaves | src/window.rs:979-1003 | for any clock `expire` leaves at most one entry for each key that is left and the stale entries that are not due, and at least one entry less for each key released |
| KeyedHeap.EvictKeepsEarly | src/window.rs:1006-1013 | the entry an evicted key leaves behind is no later than the deadline of any key that stays |
| KeyedHeap.ExpireIsSnug | src/window.rs:979-1003 | one `expire` in time leaves at most 2 * keys + 64 entries, though it does not compact: if it releases a key it has popped every stale entry |
| KeyedHeap.AddedIsSnug | src/window.rs:1016-1097 | so does the item after it |
| NaiveAlarms.NonePartFarFromTheEnd | src/window.rs:800-810 | if the deadline after every item of a run is representable, no key parts in it |
| KeyedAlarms.ExpireAlarms | src/window.rs:987-1001 | after an `expire` in time the `scheduled` fields are the alarms told beside the reference: each key woken is scheduled again at its deadline, if it has one |
| KeyedAlarms.AddedAlarms | src/window.rs:929-954 | so they are after the item, whose key keeps an earlier alarm |
| KeyedAlarms.PartingIsWoken | src/window.rs:989-999 | the keys `expire` releases although they are not due are those woken with nothing buffered and no deadline |
| KeyedBirths.BirthMeans | src/window.rs:1016-1052 | in every run of the reference the birth told for a key that is held is the number of the last of its items that did not find it, since when it was held throughout |
| KeyedBirths.ExpireKeepsBirths | src/window.rs:979-1003 | for any clock `expire` leaves the order of the creation numbers that of the births |
| KeyedBirths.AddKeepsBirths | src/window.rs:1016-1052 | so does an item, which bears its key unless it finds it |
| KeyedBirths.FlushByBirth | src/window.rs:1107-1119 | entries flushed in the order of their numbers emit their windows in the order of the births |
| KeyedStage.KeyedWindowStage.StaysBounded | src/window.rs:877-1052 | for any clock: live keys and slab at most `max_keys`, the heap at most 2 * `max_keys` + 64, and the list holds exactly the live slots |
| KeyedStage.KeyedWindowStage.Unlink | src/window.rs:898-906 | the in-place unlinking does exactly what the invariant's proof assumes |
| KeyedStage.KeyedWindowStage.PushBack | src/window.rs:907-915 | the in-place append |
| KeyedStage.KeyedWindowStage.Remove | src/window.rs:918-926 | takes a live slot out of slab, index, list and free list, does nothing for a dead one |
| KeyedStage.KeyedWindowStage.CompactHeap | src/window.rs:960-975 | rebuilds the heap exactly when stale entries dominate it |
| KeyedStage.KeyedWindowStage.Schedule | src/window.rs:929-954 | the branches of `schedule` on the deadline, `now` and the entry already scheduled |
| KeyedStage.KeyedWindowStage.ExpireOne | src/window.rs:979-1003 | one turn of the loop: stale, moved, released or kept |
| KeyedStage.KeyedWindowStage.Expire | src/window.rs:979-1003 | ends for any clock, leaves no due entry, emits in heap order; in time emits per key what the reference emits, and leaves what it leaves without the keys that part, so exactly that if none does; in the order of ends exactly if the entries before the call say so; tumbling windows in deadline order with ties in scheduling order |
| KeyedStage.KeyedWindowStage.EvictOne | src/window.rs:1006-1013 | flushes and removes the least recently active key |
| KeyedStage.KeyedWindowStage.Touch | src/window.rs:1016-1052 | finds or creates the key as the most recently active one, for any clock by exactly the steps of `Touched`, evicting the reference's victim at the limit |
| KeyedStage.KeyedWindowStage.Process | src/window.rs:1077-1097 | an item, for any clock: the invariant, the due windows in heap order, the list in the order of the last items, the keys numbered by birth; in time, the due windows first, as the reference emits them, in the order of ends exactly if the entries say so (tumbling ones always), leaving what the reference leaves but for the keys that part; if none does each key emits what the reference emits, the states stay in step, and the heap stays small |
| KeyedStage.KeyedWindowStage.Tick | src/window.rs:1099-1105 | a tick: the same |
| KeyedStage.KeyedWindowStage.Flush | src/window.rs:1107-1119 | a flush: for any clock the keys in the order of their births, that is of their first items since they were last released or evicted; in time the same windows as the reference |
| KeyedRuns.RunKeyed | src/window.rs:1667-1736 | for every run with a monotone clock in which no key parts, every policy, item cap and key limit, each event emits for each key the reference's windows in the reference's order, the due ones first and tumbling ones in the order of their ends across keys; the same keys are live, at most `max_keys`; a flush emits the keys in the order of their births; and after every event the heap has at most 2 * keys + 64 entries for the keys then held |
| KeyedRuns.RunUnlimited | src/window.rs:1077-1121 | without a key limit in reach each key's windows from the real stage are those of an unkeyed stage, on the grid the first item of all keys fixes, fed only its items |
| KeyedRuns.RunThenTick | src/window.rs:979-1003 | exactly when: after a run in which no key parts, a tick leaves the stage with the reference's keys without those that part by the events alone; so with the same keys if and only if none does |
| KeyedExamples.SessionRun | src/window.rs:989-993 | items of "a" at 0, "b" at 5, "a" at 8, a tick at 30: the whole output, the session that ends at 8 before the one that ends at 5 |
| KeyedExamples.SlidingRun | src/window.rs:995-996 | two keys with sliding windows: the whole output, with ends 2, 3, 2, 3 |
| KeyedExamples.BackwardRun | src/window.rs:979-1003 | a clock that goes back: 65 heap entries and no key |
| KeyedExamples.EndRun | src/window.rs:943-945 | near the last instant: a key is released that the reference keeps |
| EdgeLaws.Reachable | src/edge.rs:56-276 | the invariant of counters, mutex, flags and promises holds after every schedule |
| EdgeLaws.BoundedAndInOrder | src/edge.rs:123-134 | at most max(capacity, 1) untaken messages, taken in order, cached count <= shared count <= taken <= sent |
| EdgeLaws.NoWakeUpIsLost | src/edge.rs:138-172 | a sender asleep with its target reached or the receiver gone still has a notification coming; the two are never both blocked |
| EdgeLaws.WaitIsShort | src/edge.rs:186-207 | a waiting sender's target is published at most a quarter of the edge and one batch of receives after the edge was full |
| EdgeLaws.IsBoundedFifo | src/edge.rs:174-220 | to its users the edge is a FIFO queue of at most max(capacity, 1) messages: every step appends to a queue with room, takes the oldest message, drops the rest with the receiver, or leaves it alone |
| EdgeLaws.NothingIsLost | src/edge.rs:174-220 | for every schedule what has been sent, with the message in the sender's hand, is exactly what the calls have been given and not refused, in order; between calls it is what has been sent |
| EdgeLaws.RefusedOnlyIf | src/edge.rs:174-220 | a call refuses its message only if the receiver has closed or, for `try_send`, on a hand-off edge or one that is full as far as the receiver has published; then a `try_send` does |
| EdgeLaws.AllIsSent | src/edge.rs:186-207 | if nothing but `send` is called and the receiver has not closed, every message offered is sent, once the call returns |
| EdgeLaws.EveryWaitEnds | src/edge.rs:138-172 | while the sender waits one side can always move, and a number of moves fixed by the capacity and by the spurious wake-ups and receive timeouts on the way ends the wait, however the two are scheduled |
| EdgeLaws.HandOffIsTaken | src/edge.rs:199-205 | with capacity 0 and a live receiver everything sent has been taken whenever the sender is between calls |
| Segments.FeedSplit | src/runtime.rs:410-430 | a push-style run over two histories is the run over the first and then, if it did not fail, over the second |
| Segments.Fuse | src/threaded.rs:47-65 | pushing every operation down at once reaches the sink exactly as feeding each segment the whole history of the one before, failures included |
| Segments.TransShape | src/pipeline.rs:1141-1183 | items, flush, close in give items, flush, close out, complete if nothing fails |
| ThreadedLaws.StepKeeps | src/threaded.rs:152-187 | every step of every thread keeps each thread's place in its own history and the order on every edge |
| ThreadedLaws.Reachable | src/threaded.rs:68-187 | so does every schedule |
| ThreadedRuns.SourceTakesAll | src/threaded.rs:213-219 | for every schedule the source thread's segment begins exactly the items the source has delivered while the run was pulling, in order |
| ThreadedRuns.Determinate | src/threaded.rs:213-235 | for every chain, capacities and schedule the sink has seen a beginning of the single-threaded output for the items the source delivered, and all of it after an end without failure |
| ThreadedRuns.NoFalseAlarm | src/threaded.rs:152-187 | a run has failed only if the source failed or some segment fails on its own history: a lost edge is never the cause |
| ThreadedRuns.SucceedsLikeSingle | src/threaded.rs:213-235 | if the single-threaded run of the items delivered does not fail and the source does not, no schedule makes the threaded run fail, and its sink gets the same calls |
| ThreadedRuns.TornDownOnce | src/threaded.rs:139-209 | in every schedule the sink is written to, flushed, closed, in that order, the last two at most once; when its thread has ended each was called exactly once if and only if its segment was not cut off by a first flush that panicked in the segment's own abort; Source::close runs at most once, once when its thread is done, and only after every thread has dropped its chain |
| ThreadedRuns.ClosedLast | src/pipeline.rs:422-441 | the source thread sees all `_done` senders dropped, which each segment does last, before it closes the source |
| ThreadedRuns.CloseCanBeSkipped | src/threaded.rs:158-180 | a chain, with a schedule, in which the sink is flushed and never closed |
| ThreadedEnds.SomeoneMoves | src/threaded.rs:152-187 | no deadlock: unless all threads are done one of them can move |
| ThreadedEnds.EveryRunEnds | src/pipeline.rs:422-450 | every schedule that only makes possible moves brings every thread to its end, with senders that wait for a quarter of an edge and receivers that publish in batches, by a measure over the chain of edges, so the source thread's wait ends and the source is closed, once |
| ThreadedStages.StagesAreUntimed | src/pipeline.rs:1156-1180 | chains of map, filter, flat_map, try_map and batch stages, cut at any edges, meet what the results on threads assume |
| ThreadedStages.SegmentMeans | src/pipeline.rs:1156-1180 | a segment turns a whole history into that of its list functions, or a beginning of it |
| ThreadedStages.StagesOnThreads | src/threaded.rs:47-65 | for every cut, capacities and schedule the sink gets a beginning of what the composed list functions make of the items the source delivered, all of it after a clean end, and nothing fails if nothing outside does and every policy forgives |
| Runner.Runner.Chain | src/pipeline.rs:1955-2008 | one operation down to the sink's once-only flush and close, with the first error or the panic it ends in |
| Runner.Runner.Step | src/pipeline.rs:300-316 | one pull and its push: if nothing fails the calls are the source's and exactly those the operation makes down the chain, and an item is counted; otherwise a beginning of them, with the first error |
| Runner.Runner.Pump | src/pipeline.rs:332-348 | pulls until the end, the first failure, a panic, or cancellation, and begins no teardown: the calls are those of one step after the other, and never go on past a cancellation |
| Runner.Runner.Finish | src/pipeline.rs:396-411 | flush and close, or abort if the flush fails, then the rest, without pulling: all its calls in order if nothing fails; reports the first error unless user code panicked |
| Runner.Runner.Abort | src/pipeline.rs:415-420 | the failure end; if it panics one more lifecycle call is behind it |
| Runner.Runner.CloseRest | src/pipeline.rs:422-450 | source close, dead-letter flush, dead-letter close, each at most once |
| Runner.Runner.FinishDlq | src/runtime.rs:208-213 | both are attempted and the first error counts |
| Runner.Runner.Drop | src/pipeline.rs:453-475 | six attempts always finish the teardown, whatever panics |
| Pipeline.Pipeline.EnsureStarted | src/pipeline.rs:890-916 | an invalid configuration ends the pipeline without any call |
| Pipeline.Pipeline.CheckPoisoned | src/pipeline.rs:876-888 | after a caught panic the next call tears the run down and fails |
| Pipeline.Pipeline.Conclude | src/pipeline.rs:930-987 | the answer of a run: panic, first error, cancelled or success, with everything torn down |
| Pipeline.Pipeline.Step | src/pipeline.rs:706-734 | one step of the stepping interface, in every state; on success the calls are those of one pull and its push; a run that was cancelled is not pulled again but ends; the error returned is that of the first call that fails, or follows from the state |
| Pipeline.Pipeline.Tick | src/pipeline.rs:742-758 | the caller's idle tick, in every state, likewise |
| Pipeline.Pipeline.Finish | src/pipeline.rs:772-784 | ends the run, succeeds exactly if the pipeline ends as succeeded, and otherwise returns the first error |
| Pipeline.Pipeline.RunSync | src/pipeline.rs:919-927 | for every outcome of the user calls the lifecycle calls come last, in order, each exactly once; panics propagate exactly if one occurred; the first error is returned; on success or cancellation the calls are exactly those of the steps and the teardown, `items_in` is the number of items delivered, and `items_out` is exact |
| Pipeline.Pipeline.AnyClient | src/pipeline.rs:453-475 | the same for any client that steps, ticks, cancels, catches panics and then finishes or drops; a run that never starts calls nothing |
| Chain.Assembly.Process | src/pipeline.rs:1277-1345 | an item through the closures, from any stage on |
| Chain.Assembly.EmitAll | src/runtime.rs:410-430 | the emit adapter stops forwarding after the first failure downstream |
| Chain.Assembly.RunStage | src/runtime.rs:432-461 | a failure downstream wins over the stage's own, which goes through its policy |
| Chain.Assembly.HandleFailure | src/runtime.rs:350-396 | count, then fail, go on or dead-letter |
| Chain.Assembly.Flush | src/pipeline.rs:1166-1177 | a flush goes on past a stage whose flush error was handled |
| ChainMeaning.EachMeans | src/pipeline.rs:1141-1183 | pushing items one by one does what feeding each stage the whole list does, and on failure a beginning of it; it fails exactly if an error falls under FailFast or the sink or the dead-letter sink refuses something on the way |
| ChainMeaning.FlushMeans | src/pipeline.rs:1166-1177 | so does the flush |
| ChainMeaning.ItemsThenFlush | src/pipeline.rs:1103-1130 | items through all stages and then one flush is each stage over the whole list in turn |
| ChainMeaning.WholeIsListFn | src/pipeline.rs:1277-1393 | each stage over a whole list is map, filter, concat-map, the successes, or chunks |
| ChainMeaning.OneToOneCounts | src/runtime.rs:350-361 | in a one-to-one chain every item comes out or is an error |
| ChainMeaning.RunFailures | src/runtime.rs:350-396 | the errors, dead letters and fatal errors of a run are the failures of the list functions, policy by policy |
| ChainRuns.ItemBegins | src/runtime.rs:410-461 | whether a call for an item writes, fails before it writes, or does neither is decided by what its stages do up to the first output |
| ChainRuns.FlushBegins | src/pipeline.rs:1169-1177 | likewise for the flush |
| ChainRuns.OnePathFailsFirst | src/runtime.rs:410-461 | where no stage makes more than one item of one, a failing call for an item has written nothing |
| ChainRuns.RunToEnd | src/pipeline.rs:365-411 | a run that succeeds leaves the composed list function in the sink with exact counters; one that fails leaves a beginning, and then `items_out` is exact if and only if the failing call failed before its first output or at it; it succeeds if and only if the list functions do not fail under FailFast and the sink and the dead-letter sink accept all they are given, and the flush; so it does not fail if nothing outside does and no policy is FailFast, even if stage flushes fail |
| ChainRuns.PartialCountIsDropped | src/runtime.rs:457-459 | a `flat_map` call after which `items_out` misses an item |
| Batching.BatchStage.LimitReached | src/batch.rs:460-462 | the saturating counter answers as the true sum would |
| Batching.BatchStage.Process | src/batch.rs:471-495 | an item: joins the batch, which is emitted when it is old or full |
| Batching.BatchStage.Tick | src/batch.rs:497-511 | a tick emits an old batch |
| Batching.BatchStage.Flush | src/batch.rs:513-516 | a flush emits an open batch |
| Batching.NothingIsLost | src/batch.rs:437-516 | any run: batches and open batch are the items in order; no batch is empty or above `max_items`, and only its last item crosses `max_bytes` in the true sum |
| Batching.BatchesAreFull | src/batch.rs:471-495 | without an age limit and before a flush no batch is emitted early |
| Batching.EmittedExactlyWhen | src/batch.rs:392-398 | for any run and clock, an item or a tick emits the items waiting, as one batch, if and only if they reach a limit or the first of them arrived at least `max_age` ago |
| Batching.NoneStaysOpen | src/batch.rs:392-398 | with a monotone clock, after an item or tick the open batch is younger than `max_age` |
| Lines.LineReader.ReadOne | src/source.rs:456-510 | however the reader cuts its bytes, the next line is the split, limited and stripped one; after an overflow error reading goes on at the start of the piece in which the limit was crossed |
| Lines.LineReader.NextLine | src/source.rs:446-454 | skipped lines are passed over |
| Lines.LineReader.Drain | src/source.rs:446-454 | all lines up to the first overflow error equal the specification, and the buffer never exceeds `max_len` |
| Lines.RoundTrip | src/sink.rs:493-496 | lines written with a newline each read back unchanged if and only if none holds a newline, ends in a carriage return, or is too long |

## Left out

- KeyedRuns.RunKeyed: assumes a clock that does not go back and that no key parts; `KeyedRuns.RunThenTick` shows that the second is exact for the first tick at which one does. Across keys the order of the due windows is stated for tumbling windows; for sessions and sliding windows `KeyedStage.KeyedWindowStage.Process` and `Tick` give the exact condition, which speaks of the heap.
- NaiveKeyed.KeysDoNotInterfere: "without a key limit" is stated as a limit larger than the number of events.
- WindowPartition.SessionsAreMaximalRuns: assumes that the stream is flushed once, at its end.
- WindowTimes.WindowsAreTimely: is about the unkeyed stage; the keyed one also emits windows early when it evicts a key.
- KeyedStage.KeyedWindowStage.Expire: the binary heap is the set of its entries with its least element; sift-up and sift-down are the standard library's.
- ThreadedEnds.EveryRunEnds: idle ticks are not among the moves counted, since they may go on for as long as a source delivers nothing; any finite number of them may have come before.
- ThreadedStages.StagesOnThreads: the dead-letter sink the threads share answers each segment by the number of that segment's own records; the sink's close does not fail there.
- Stages with a clock in threaded runs: segments are deterministic and ignore ticks.
- Overflow of tickets, sequence numbers, line numbers and the 64-bit counters.
- Downstream failure inside window and batch stages: emitting to a closed downstream drops the window, and the run fails anyway.
- User closures with state of their own in `map`, `filter`, `flat_map` and `try_map`; they are functions here.
- Observers: they only receive events and are assumed to return.
- `pump_blocking` keeps its counters in locals; it is modelled as the loop over `step`, which adds the same counts.
- Retry delays, policy validation with its overlap limit, channel sources and sinks, tee and chain adapters, UTF-8 decoding, I/O errors and interrupts of readers: short, or outside the logic.
- Spawning and joining of threads, thread panics' payloads, merging of tallies, the error a threaded run returns, and statistics.
- Memory orderings weaker than sequential consistency, the internals of mutex, condition variable and channel.
- Preallocation and allocation counts.
