# Cooperative task executor — a Dafny model

This project models the cooperative executor of `crates/web/src/executor.rs`.
It covers the executor with its lazily created task queue, the fixed-count poll
pass, submission (`add_task`, `run`), the task's waker, the process-wide
`DEFAULT_EXECUTOR` with the module-level `run` and `poll_tasks`, and the
one-shot deferred submission `coroutine`. The model also proves properties of
all of these.

Everything is immutable data and pure functions:

- `Futures` models a future abstractly. A `Future(pendingPolls, wakesSelf)`
  answers Pending to its next `pendingPolls` polls and Ready to the one after.
  When `wakesSelf` holds, it invokes its waker during each Pending poll.
- `Host` models the host's `set_timeout(callback, 0)` as a FIFO of pending
  callbacks. There are two kinds: `DeferredPoll` is the closure that calls
  `poll_tasks()`, and `DeferredRun(slot)` is the closure built by `coroutine`.
  The `Option` that the `coroutine` closure captures is the entry `slots[slot]`.
  The host also keeps a log, `polled`, of the identities of the tasks polled, in
  order. The log makes order and once-per-pass properties statable.
- `Tasks` holds the task (a future plus an identity that stands for the `Arc`),
  the waker `wake_by_ref`, and `is_pending`.
- `Executors` holds the executor (`Option<seq<Task>>` plus an allocation
  counter that hands out task identities), `add_task`, `poll_tasks` and `run`.
  It also holds an independent reference definition of one pass: `Survivors`,
  `Wakes` and `Ids`. The fixed-count loop is proved equal to that reference
  definition.
- `Runtime` holds the default executor, the module-level entry points,
  `coroutine`, and the host running its oldest callback (`Fire`).
- `Scenarios` holds concrete runs.

The fixed iteration count of `poll_tasks` is modelled literally. `PollN(n, q, env)`
pops, polls and maybe requeues `n` times. `poll_tasks` calls it with the length
of the queue, read once before any polling. `PollNSplit` shows that the tasks
behind that snapshot are never polled in the pass.

Behaviour of the source worth noting:

- A pass over an absent queue creates an empty queue (`executor.rs` lines 83-85), so it is
  not free of effect.
- A future cannot add work to the default executor during a pass, because the
  pass holds the executor's spin lock and a nested `run` would spin on it.
  `PollNSplit` still states that whatever lies behind the snapshot taken at the
  start of a pass is not polled in it.
- `run` on a future that is Ready at its first poll still polls every task
  already queued. `RunReadyFirst` states the exact relation to a plain pass.

## Model

| member | source | states |
|---|---|---|
| Futures.PollOnce | crates/web/src/executor.rs:51 | A poll answers Ready exactly when no pending polls remain. Otherwise the future comes back one poll nearer to Ready, with the same waking behaviour. |
| Tasks.WakeByRef | crates/web/src/executor.rs:32-40 | Waking appends exactly one deferred poll pass to the host queue. It polls nothing and leaves the coroutine slots alone. |
| Tasks.IsPending | crates/web/src/executor.rs:44-53 | The task is polled exactly once and logged. It reports pending exactly when its future answered Pending. It keeps its identity and is one step nearer to Ready. A deferred pass is scheduled only if the future woke itself. |
| Executors.AddTask | crates/web/src/executor.rs:66-79 | Afterwards the queue exists: it is the old queue, or the empty one, with exactly one new task at the back. That task holds the future and a fresh identity. Validity (no task queued twice) is preserved. |
| Executors.PollN | crates/web/src/executor.rs:90-95 | After `n` iterations exactly `n` polls have happened. The queue never grows beyond its starting length and shrinks by at most `n`. |
| Executors.PollNStep | crates/web/src/executor.rs:91-94 | One iteration pops the front task, polls it, and requeues its advanced form at the back when it is still pending. |
| Executors.PollNSplit | crates/web/src/executor.rs:90-95 | Polling `|a|` times from the front of `a + b` polls exactly the tasks of `a`, once each, front to back. It leaves `b` unpolled at the front, followed by the survivors of `a`, and schedules exactly their wakes. |
| Executors.PollTasks | crates/web/src/executor.rs:82-96 | One pass creates the queue if absent. The queue becomes the reference survivors of the starting queue. Exactly the starting tasks are polled, in order. Only their self-wakes are scheduled. |
| Executors.Run | crates/web/src/executor.rs:57-63 | Submit-and-drive polls every previously queued task and then the new one. It keeps the survivors of both, in that order, and schedules only their wakes. |
| Executors.Survivors | crates/web/src/executor.rs:90-95 | A pass never leaves more tasks queued than it started with. |
| Executors.Wakes | crates/web/src/executor.rs:32-40 | Everything a pass schedules on the host is a deferred poll pass. With futures that wake at most once per poll, there are at most as many as there are tasks. |
| Executors.PollEmptyIsNoOp | crates/web/src/executor.rs:83-89 | A pass over an absent or empty queue leaves an empty initialised queue. It polls nothing and schedules nothing. |
| Executors.SurvivorsInOrder | crates/web/src/executor.rs:90-95 | The identities queued after a pass are a subsequence of those before it, in their original relative order. |
| Executors.SurvivorsArePending | crates/web/src/executor.rs:92-94 | When identities are distinct, a task remains queued after a pass if and only if its poll answered Pending. |
| Executors.PassKeepsExactlyPending | crates/web/src/executor.rs:90-95 | In a valid executor, a task is still queued after a pass, and so is polled by the next pass, exactly when this pass found it pending. |
| Executors.PollPreservesValid | crates/web/src/executor.rs:90-95 | A pass keeps every task queued at most once, under an identity already handed out. |
| Executors.RunPreservesValid | crates/web/src/executor.rs:57-63 | Submit-and-drive keeps every task queued at most once. |
| Executors.RunReadyFirst | crates/web/src/executor.rs:57-63 | Running a future that is Ready on its first poll equals a plain pass, plus one poll of the new identity. No task is left behind and no wake is scheduled for it. |
| Executors.Passes | crates/web/src/executor.rs:82-96 | Repeated passes with no submissions never hand out identities and never grow the queue. |
| Executors.SurvivorsNearerDone | crates/web/src/executor.rs:90-95 | If every task finishes within `k + 1` polls, every survivor of a pass finishes within `k`. |
| Executors.DrainsWithin | crates/web/src/executor.rs:90-95 | If every queued task finishes within `k` polls, `k` passes with no new submissions empty the queue. |
| Runtime.RunDefault | crates/web/src/executor.rs:101-106 | The module-level `run` initialises the default queue and polls all earlier tasks and then the new one. It keeps every earlier host callback in order and appends only deferred poll passes. |
| Runtime.PollDefault | crates/web/src/executor.rs:108-110 | The module-level `poll_tasks` polls exactly the queued tasks. It keeps every earlier host callback in order and appends only deferred poll passes. |
| Runtime.Wake | crates/web/src/executor.rs:32-40 | A waker fired by an outside event leaves the task queue unchanged and polls nothing. It adds one deferred poll pass. |
| Runtime.Coroutine | crates/web/src/executor.rs:112-126 | The module-level `coroutine` submits nothing and polls nothing. It stores the future in a fresh slot and schedules one deferred run that owns that slot. |
| Runtime.Dispatch | crates/web/src/executor.rs:116-125 | Running a callback keeps every earlier host callback and appends only poll passes. It only appends to the poll log. A deferred run empties its own slot and touches no other slot. A deferred run whose slot is already empty changes nothing. |
| Runtime.Fire | crates/web/src/executor.rs:35-40 | The host runs its oldest callback. The callbacks already waiting keep their order ahead of any callback scheduled while it runs. With nothing pending, nothing happens. |
| Runtime.PollFreshProcess | crates/web/src/executor.rs:99-110 | A poll pass in a fresh process creates the default queue, empty, and has no other effect. |
| Runtime.WakeThenFire | crates/web/src/executor.rs:32-40 | A wake with nothing else pending leads to exactly one poll pass of the default executor when the host fires. |
| Runtime.CoroutineThenFire | crates/web/src/executor.rs:116-125 | Firing the callback scheduled by `coroutine` submits the future through `run`, after emptying its slot. |
| Runtime.CoroutineAtMostOnce | crates/web/src/executor.rs:118-123 | Running the same deferred-run callback twice has the effect of running it once. The future is submitted at most once. |
| Runtime.StepKeepsSlotEmpty | crates/web/src/executor.rs:118-123 | No single step refills a slot that a deferred run has emptied: not `run`, `poll_tasks`, a wake, `coroutine` or the host firing. |
| Runtime.SlotStaysEmpty | crates/web/src/executor.rs:118-123 | An emptied slot stays empty through any sequence of later steps. |
| Runtime.RefiringIsNoOp | crates/web/src/executor.rs:118-123 | Once a deferred run has fired, firing it again after any sequence of steps changes nothing, so its future is submitted at most once. |
| Runtime.InitialWellFormed | crates/web/src/executor.rs:99 | The process starts well formed: the default executor has no queue and nothing is scheduled. |
| Runtime.RunDefaultWellFormed | crates/web/src/executor.rs:101-106 | The module-level `run` keeps the process well formed. The queue stays valid and every deferred run owns an existing slot. |
| Runtime.PollDefaultWellFormed | crates/web/src/executor.rs:108-110 | The module-level `poll_tasks` keeps the process well formed. |
| Runtime.EntryPointsPreserveWellFormed | crates/web/src/executor.rs:99-126 | `run`, `poll_tasks`, a wake and `coroutine` all keep the process well formed. |
| Runtime.WakeWellFormed | crates/web/src/executor.rs:32-40 | A wake keeps the process well formed. |
| Runtime.CoroutineWellFormed | crates/web/src/executor.rs:112-126 | `coroutine` keeps the process well formed: its deferred run owns the slot it just created. |
| Runtime.DispatchWellFormed | crates/web/src/executor.rs:116-125 | Running either kind of callback keeps the process well formed. |
| Runtime.FirePreservesWellFormed | crates/web/src/executor.rs:35-40 | The host firing its oldest callback keeps the process well formed. |
| Runtime.PollDefaultKeepsGone | crates/web/src/executor.rs:108-110 | A pass of the default executor does not poll an identity that was already handed out and is no longer queued. It does not queue it again either. |
| Runtime.RunDefaultKeepsGone | crates/web/src/executor.rs:101-106 | The module-level `run` does not poll or requeue such an identity. The task it creates has a fresh identity. |
| Runtime.FireKeepsGone | crates/web/src/executor.rs:116-125 | Running either kind of callback does not poll or requeue such an identity. |
| Runtime.StepKeepsGone | crates/web/src/executor.rs:99-126 | No single step polls or requeues such an identity: not `run`, `poll_tasks`, a wake, `coroutine` or the host firing. |
| Runtime.NeverPolledAgain | crates/web/src/executor.rs:99-126 | No sequence of steps ever polls such an identity again, and it stays out of the queue. |
| Runtime.FinishedNeverPolledAgain | crates/web/src/executor.rs:90-95 | A task that finishes in a pass of the default executor is never polled again, whatever the process does afterwards. |
| Scenarios.ReadyAtOnce | crates/web/src/executor.rs:57-63 | In a fresh process, running a future that is Ready at once polls it once. It leaves an empty queue and schedules nothing. |
| Scenarios.SelfWakingFinishesOnSecondPass | crates/web/src/executor.rs:32-40 | Take a future that wakes itself while pending once. It is requeued with one deferred pass scheduled. Firing that pass finishes it and empties the queue. |
| Scenarios.RoundRobin | crates/web/src/executor.rs:90-95 | Take a task finishing at once queued before one finishing at its third poll. The second is polled once per pass, never twice, and three passes empty the queue. |
| Scenarios.CoroutineDefers | crates/web/src/executor.rs:112-126 | `coroutine` leaves the default executor untouched until the host fires its callback. Firing then runs the future and empties the slot. |

## Left out

- `old_stuff/cstring/src/lib.rs` is not part of this model. It is raw-pointer string interop with no stateable logic.
- Real futures, `Pin`, `Box`, `Arc`, `waker_ref` and the `woke` crate are abstracted. A future is a count of Pending answers plus a flag saying whether it wakes itself on each Pending poll. A future that wakes only on some of its polls, that wakes and then answers Ready, or that calls its waker more than once in one poll is not modelled. In the source, each of those extra calls schedules another deferred pass, so one pass can schedule more deferred passes than it has tasks.
- Task outputs (the `T` of `Future<Output = T>`) are discarded by the source and are not modelled.
- `spin::Mutex` locking and the `Send`/`Sync` bounds are not modelled: the model is single-threaded by construction. A future that calls the module-level `run` or `poll_tasks` inside its own poll would spin on the held lock forever; the model gives futures no way to call into the executor.
- A future that calls `coroutine` during its poll is not modelled: futures here only wake.
- `set_timeout` itself is outside the source. It is modelled only as a FIFO that runs one callback at a time, oldest first. A waker fired later by an outside event source is the `Runtime.Wake` step, which may happen at any point.
- Panics inside a poll are not caught by the source and are not modelled.
- Runtime.Dispatch: a deferred run naming a slot that does not exist does nothing. Such a callback cannot arise in a well-formed process, because every `coroutine` closure owns its own captured value.
- Executors.PollN: its own contract states only counts and bounds. The full result of the loop is stated by `Executors.PollNSplit`.
