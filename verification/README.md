# cobroken: a model of the task runtime around C++20 symmetric transfer

The repository reproduces a cross-thread bug in C++20 coroutine symmetric
transfer. Worker threads pull suspended Tasks from a shared LIFO queue of
coroutine handles (`Handles`). A running Task hands control straight to the
next one with `co_await Transfer{...}`. The transfer publishes the suspending
Task's `suspended_` flag, queues it and counts the transfer. In `cobroken.cpp`
every transfer goes through a per-thread trampoline (`Fix`). When the
trampoline finds itself running on the wrong thread, it marks the destination
`watch_` and moves it to that trampoline's lost queue. Workers drain the lost
queue before the shared one. A ring-buffer `History` records every step for
diagnosis.

The thread race itself cannot be modelled. This project models the
sequential pieces around it, treating each locked method, and each coroutine
step between two suspension points, as one atomic step:

- `ring.dfy` (module `Ring`): the ring buffer's index arithmetic, shared by
  both `History` classes. It covers the shapes `Record` keeps, the order in
  which `Show` walks the slots, and the relation between the buffer and the
  full log of recorded entries.
- `runtime.dfy` (module `Runtime`): handles and thread ids as naturals, and a
  Task's scheduling fields as a `Promise` record. The live coroutine frames
  are a `Frames` map from handle to promise. `RunContext` holds `success`,
  the stop request and `transferCount`. The suspend/resume flag protocol is
  given as pure steps.
- `queue.dfy` (module `Queue`): the `Handles` deque. Each of the three source
  files has its own copy with the same `Add` and `Get`; the copy in
  `cobroken.cpp` also has `size()`.
- `cobroken.dfy` (module `CoBroken`, for `cobroken.cpp`): the 2000-entry
  draining `History`, the trampoline `Fix`, `Transfer`, and the two halves
  of one iteration of `Op` (selection before the transfer, verdict after it).
- `cobroken_test.dfy` (module `CoBrokenTest`, for `test/cobroken.cpp`): the
  200-entry history whose `Show` does not drain, the `Watch` set, and a
  `Transfer` that has no trampoline.
- `minimal.dfy` (module `Minimal`, for `minimal.cpp`): a trampoline that only
  forwards, plus `Transfer`.

In `CoBroken`, the thread executing a step is always an input. The thread-local state of that
thread (`expected` and `Fix::Instance()`) is a `Worker` object passed in. The
trampoline's `m_destination` is thread-local too, so `Fix.Enter` reads it
from the `Fix` of the executing thread (`local`), which is what the coroutine
body does.

`Show` walks the history newest first, and the model returns the entries in
that order: `NewestFirst(log)`. That is the reverse of a chronological dump.

## Model

| member | source | states |
|---|---|---|
| `Ring.Record` | cobroken.cpp:119-132 | Recording keeps the ring invariant: below capacity the offset equals the size; at capacity the size is `maximum` and the offset is in 1..maximum |
| `Ring.Replay` | cobroken.cpp:119-132 | Any sequence of records, starting from the empty buffer, leaves a buffer satisfying the ring invariant |
| `Ring.Shown` | cobroken.cpp:143-146 | Show's walk produces exactly one entry per stored slot |
| `Ring.RecordBelowCapacity` | cobroken.cpp:122-126 | Below capacity, `Record` appends at the end and leaves `offset_ == vec_.size() <= maximum` |
| `Ring.RecordAtCapacity` | cobroken.cpp:128-131 | At capacity, `Record` overwrites exactly slot `offset_ % maximum`. That slot held the oldest entry, the last one Show visits. The size stays `maximum`, the offset ends in 1..maximum, and every other slot is unchanged |
| `Ring.ShowIndexBackwards` | cobroken.cpp:137-146 | From the corrected start `offset_ + 2*maximum`, Show's i-th index `--o % maximum` is the slot i steps back from the newest one, wrapping around, and it lies inside the vector |
| `Ring.ShownAfterRecord` | cobroken.cpp:119-146 | After `Record(e)`, Show visits `e` first and then what it visited before; once the buffer is full it drops the oldest entry |
| `Ring.ReplayShowsNewestFirst` | cobroken.cpp:119-146 | After any sequence of records, Show yields exactly the newest min(n, maximum) entries, newest first (the reverse of a chronological dump) |
| `Ring.ShowVisitsEachSlotOnce` | cobroken.cpp:137-146 | With a full buffer, Show starts at slot `offset_ - 1` (the newest entry). It never reads a slot twice and reads every one of the `maximum` slots |
| `Ring.VisitIndex` | cobroken.cpp:146 | The index `--o % maximum` read at step i from start `o` always names a slot of a full ring, in 0..maximum-1 (also test/cobroken.cpp:50) |
| `Ring.AsWrittenStart` | cobroken.cpp:137 | The source's start `offset_ + 2*maximum - size` is at least `offset_ + maximum` with at most `maximum` entries, and exactly that when the buffer is full (also test/cobroken.cpp:46). With `VisitIndex` it is the as-written half of both Findings |
| `Ring.ForwardWalkOldestFirst` | cobroken.cpp:137 | From the source's unchanged start, a forward walk `o++ % maximum` reads at step i the slot the backward walk reads at step size-1-i: always inside the vector, entries oldest first (the alternative reading of the Findings) |
| `Ring.AsWrittenAgreesWhenFull` | cobroken.cpp:137 | With a full buffer, the source's start `offset_ + 2*maximum - size` reads the same slots as the model's start `offset_ + 2*maximum` |
| `Ring.AsWrittenInRangeIff` | cobroken.cpp:137-146 | The source's start is at least `maximum`, so `--o` never wraps. For `0 < size < maximum` its first index is `maximum - 1`, past the end. Its indices all lie inside the vector if and only if the buffer is empty or full |
| `CoBroken.History.Record` | cobroken.cpp:119-132 | Appends the entry to the log, keeps the buffer equal to the newest entries of the log, and sets `vec_`/`offset_` by the capacity rule |
| `CoBroken.History.Show` | cobroken.cpp:133-150 | Returns the newest min(n, maximum) recorded entries, newest first, and resets the buffer to empty with offset 0 |
| `CoBroken.ShowAsWrittenOverrunsAfterOneRecord` | cobroken.cpp:137-146 | After one `Record`, the source's Show reads index 1999 of a one-entry vector |
| `CoBroken.Fix.Chain` | cobroken.cpp:284-295 | Stores `next` as the pending destination and returns the trampoline's own handle |
| `CoBroken.Fix.GetLost` | cobroken.cpp:297-300 | Pops the back of the lost queue, or returns null when the queue is empty |
| `CoBroken.Fix.Enter` | cobroken.cpp:245-275 | When the trampoline is re-entered from its Awaiter on a thread other than `correctThread`, it marks the destination `watch_`, appends exactly that handle to `m_lost` and parks. Otherwise it records a `ThreadChain` event and forwards to the destination, leaving `m_lost` and every `watch_` unchanged. The first entry fixes `correctThread`; an entry after a park forwards without the check |
| `CoBroken.Transfer.AwaitSuspend` | cobroken.cpp:322-336 | Sets `suspendedBy_` to the current thread and `suspended_` to true, records the suspension, and appends exactly `me` to the queue. It increments `transferCount` by 1 (mod 2^64 on an LP64 target) and returns `Chain(destination)` |
| `CoBroken.Transfer.AwaitResume` | cobroken.cpp:337-351 | Returns true iff `suspended_` was set, always clears it, changes nothing else in the frames, and records Resume (plus the resume-side Suspend event on success) |
| `CoBroken.Select` | cobroken.cpp:379-380 | The next handle is the back of the lost queue whenever that queue is non-empty, otherwise the back of the shared queue, otherwise null; the queue it is taken from loses exactly that element |
| `CoBroken.OpSelect` | cobroken.cpp:379-391 | Picks by `Select`. The pick gets `watch_` cleared and `wakeOn_` set to the current thread, becomes `expected`, and an Add edge is recorded. With nothing to pick, the history is shown and drained (lines 411-414) |
| `CoBroken.OpVerdict` | cobroken.cpp:392-409 | `success` becomes old `success` and a clean resume and woken on the stamping thread and `expected == mine`. It is never raised. A wrong `expected` records Busted, drains the history and requests stop |
| `CoBroken.QuarantineThenRetry` | cobroken.cpp:379-386 | After a wrong-thread entry parks the trampoline, the same worker's next pick is the quarantined Task, ahead of the shared queue, with `watch_` cleared and `wakeOn_` stamped |
| `Runtime.Publish` | cobroken.cpp:329-330 | The suspend step sets `suspended_` and records the suspending thread in `suspendedBy_`, leaving `wakeOn_` and `watch_` unchanged (also test/cobroken.cpp:155-156) |
| `Runtime.TestAndClear` | cobroken.cpp:344 | `suspended_.exchange(false)` reports exactly the old `suspended_`, leaves it false and no other field changes (also test/cobroken.cpp:166) |
| `Runtime.SuspendThenResumeIsClean` | cobroken.cpp:329-350 | A suspend followed by a resume is a clean cycle |
| `Runtime.SecondResumeFails` | cobroken.cpp:344-348 | A second resume with no suspend in between returns false |
| `Runtime.Increment` | cobroken.cpp:334 | `++transferCount` on an `unsigned long`, 64 bits on LP64 targets, adds one unless it wraps at 2^64; the result is always below 2^64 |
| `Queue.Pop` | test/cobroken.cpp:120-129 | Returns null exactly on an empty queue and changes nothing then. Otherwise it returns the back element and removes only that one, keeping the rest in order |
| `Queue.AddThenGet` | minimal.cpp:118-133 | `Add(h)` followed by `Get()` returns `h` and restores the previous queue (LIFO) |
| `Queue.Handles.Add` | minimal.cpp:118-122 | Appends `h` at the back; the queue grows by exactly that element |
| `Queue.Handles.Get` | minimal.cpp:124-134 | Behaves as `Pop` on the queue |
| `Queue.Handles.Size` | cobroken.cpp:195-199 | Returns the number of queued handles |
| `CoBrokenTest.History.Record` | test/cobroken.cpp:28-41 | Same capacity rule with `maximum` = 200 on `(thread, a, b)` entries; the buffer stays equal to the newest entries of the log |
| `CoBrokenTest.History.Show` | test/cobroken.cpp:42-54 | `const`: returns the newest min(n, 200) entries, newest first, and modifies nothing |
| `CoBrokenTest.ShowAsWrittenOverrunsAfterOneRecord` | test/cobroken.cpp:46-50 | After one `Record`, the source's Show reads index 199 of a one-entry vector |
| `CoBrokenTest.Watch.Add` | test/cobroken.cpp:90-94 | After `Add(h)`, `h` is in the set; adding a handle already present leaves the set unchanged |
| `CoBrokenTest.Watch.IsWatched` | test/cobroken.cpp:96-103 | True exactly for handles in the set; false for one never added; the set is not modified |
| `CoBrokenTest.Transfer.AwaitSuspend` | test/cobroken.cpp:145-161 | Sets `suspended_` (and `suspendedBy_`), appends exactly `me`, increments the counter by 1 and returns `destination` itself, with no trampoline |
| `CoBrokenTest.Transfer.AwaitResume` | test/cobroken.cpp:162-173 | Returns true iff `suspended_` was set, and clears it |
| `Minimal.Fix.Chain` | minimal.cpp:101-105 | Stores `next` in `m_destination` and returns the trampoline's own handle |
| `Minimal.Fix.Enter` | minimal.cpp:76-92 | One trampoline step hands control to exactly the stored destination |
| `Minimal.ChainThenEnter` | minimal.cpp:76-105 | `Chain(next)` followed by one trampoline step transfers control to `next` |
| `Minimal.Transfer.AwaitSuspend` | minimal.cpp:149-155 | Appends exactly `me`, increments `transferCount` by 1 and returns `Chain(destination)` |
| `Minimal.TransferLandsOnDestination` | minimal.cpp:149-155 | A transfer, followed by the trampoline's step, lands on the Task the transfer was built for, with `me` queued |

## Left out

- Threads, `std::jthread`, the stop source and stop tokens, `sleep_for`, the thread function `Run`, `test` and `main`. These are concurrency, timing and drivers. Interleavings between threads are not modelled; each step is atomic.
- The mutexes in `History`, `Handles` and `Watch`. Each locked method is one sequential step.
- The atomics `suspended_` and `transferCount` are plain fields. Within `AwaitSuspend`, publishing the flag before queueing the handle is the order of the statements, but no other thread can observe the state in between.
- The coroutine machinery: `promise_type` hooks, `initial_suspend`/`final_suspend`, `GetMine`, `resume`, `co_await`. A symmetric transfer is the handle a step returns, and suspension points split a coroutine into separate methods.
- `Op`'s `while (!token.stop_requested())` loop runs across suspensions. One iteration is modelled as `OpSelect`, then `Transfer` construction and `AwaitSuspend`, then `OpVerdict`. The stop poll is not modelled. The empty-queue branch is modelled only up to its `co_await std::suspend_always()`.
- `DBGOUT` and all iostream output, including the per-entry `Show` formatting. `Show` returns the entries in visit order instead of printing them.
- Checks whose only effect is a log line: `me != mine_` in both `await_suspend`s, the null `me_` check in `await_resume`, and the `watchlist.IsWatched` checks in `test/cobroken.cpp`. `AwaitResume` requires a captured handle, because the source dereferences it either way.
- `Fix::Awaiter::await_resume` only builds a `HistoryTWoke` temporary and discards it, so it has no effect. The `ThreadWoke` event is never recorded. The Awaiter's `m_me` and `m_thread` members are unused.
- `Fix::Chain`'s `withFix == false` branch is not modelled: the flag is the constant `true`.
- `CoBroken.Fix.constructor`: `correctThread` is captured on the first entry into the trampoline, as in the source. Before that, its value is arbitrary.
- Handles are non-null ids and null is `None`. No source path queues a null handle.
- Overflow: `offset_` (32-bit) never exceeds `maximum`. The model's counter `o` starts at `offset_ + 2*maximum` and stays within `maximum..3*maximum`. The source's `o` starts at `offset_ + 2*maximum - size`, which is at least `maximum` (`Ring.AsWrittenStart`, `Ring.AsWrittenInRangeIff`); it is decremented at most `size` times, so it stays positive. Neither `offset_` nor `o` wraps, so both are unbounded naturals. `transferCount` wraps at 2^64 explicitly, which assumes an LP64 target; where `unsigned long` is 32 bits (Windows) it would wrap at 2^32.
- `Op` in `test/cobroken.cpp` and `minimal.cpp` is not modelled. In `test/cobroken.cpp` the pick takes `handles.Get()`, sets `expected`, records a `(thread, mine, next)` edge and stamps `wakeOn_`; there is no lost queue and no `watch_` field, and the empty branch only parks without showing the history. The verdict lowers `success` on a failed resume or a `wakeOn_` mismatch. On `expected != mine` it adds `expected` to the watch list (the only caller of `Watch::Add`), shows the history and requests stop. In `minimal.cpp` the pick only takes `handles.Get()` and sets `expected`, recording nothing and stamping nothing, and the empty branch parks. Its verdict lowers `success` and requests stop on `expected != mine`. None of these steps is modelled for those two files.
- The `Transfer::await_resume` of `minimal.cpp` is empty and not modelled.

## Findings

| source | as written | input that shows it | evidently intended | confidence | as-written member | corrected member |
|---|---|---|---|---|---|---|
| cobroken.cpp:137 | `o = offset_ + maximum*2 - vec.size()`, then `vec[--o % maximum]` | One `Record` then `Show`: size 1, offset 1, `o` = 4000, first index 3999 % 2000 = 1999, past the end of a one-entry vector | Start at `offset_ + maximum*2`. The walk then reads slots size-1 down to 0 below capacity, and exactly the same slots as now when the buffer is full. A forward walk `vec[o++ % maximum]` from the unchanged start would also stay in range and list the entries oldest first (`Ring.ForwardWalkOldestFirst`); the `- vec.size()` term fits that reading. The model keeps the backward, newest-first walk the source performs on a full buffer. | high (not executed) | `CoBroken.ShowAsWrittenOverrunsAfterOneRecord` | `CoBroken.History.Show` |
| test/cobroken.cpp:46 | `o = offset_ + maximum*2 - vec_.size()`, then `vec_[--o % maximum]` | One `Record` then `Show`: size 1, offset 1, `o` = 400, first index 399 % 200 = 199, past the end of a one-entry vector | Start at `offset_ + maximum*2`, as above. A forward walk `vec_[o++ % maximum]` from the unchanged start would also stay in range and list the entries oldest first (`Ring.ForwardWalkOldestFirst`); the `- vec_.size()` term fits that reading. The model keeps the backward, newest-first walk the source performs on a full buffer. | high (not executed) | `CoBrokenTest.ShowAsWrittenOverrunsAfterOneRecord` | `CoBrokenTest.History.Show` |

In both files, `Ring.AsWrittenInRangeIff` shows that the source's indices stay
in range exactly when the buffer is empty or full. `Ring.AsWrittenAgreesWhenFull`
shows that the corrected start changes nothing when the buffer is full.
