/** The unit of execution: a future together with an identity, its waker,
    and the type-erased "is it still pending" poll the queue uses. */
module Tasks {
  import opened Futures
  import opened Host

  /** A task owns one future. Tasks are shared by reference in the
      implementation; `id` stands for that reference identity. */
  datatype Task = Task(id: nat, future: Future)

  /** The waker of any task: it never polls, it only asks the host to run a
      poll pass on the default executor later. */
  function WakeByRef(env: Env): (r: Env)
    ensures r.timers == env.timers + [DeferredPoll]
    ensures r.slots == env.slots && r.polled == env.polled
  {
    SetTimeout(env, DeferredPoll)
  }

  /** The outcome of polling one task: whether it is still pending, the task
      with its future advanced, and the environment after the poll. */
  datatype Polled = Polled(pending: bool, task: Task, env: Env)

  /** Polls the task's future exactly once with a waker bound to this task
      and reports whether the answer was Pending. */
  function IsPending(t: Task, env: Env): (r: Polled)
    ensures r.pending <==> t.future.pendingPolls > 0
    ensures r.task.id == t.id
    ensures r.pending ==> r.task.future.pendingPolls + 1 == t.future.pendingPolls
    ensures r.env.polled == env.polled + [t.id]
    ensures r.env.slots == env.slots
    ensures r.env.timers == env.timers + (if WakesOnPoll(t.future) then [DeferredPoll] else [])
  {
    var env' := env.(polled := env.polled + [t.id]);
    match PollOnce(t.future)
    case Ready => Polled(false, t, env')
    case Pending(rest) =>
      Polled(true, Task(t.id, rest), if t.future.wakesSelf then WakeByRef(env') else env')
  }
}
