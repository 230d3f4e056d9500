/** The host side of the executor: the deferred-callback primitive
    `set_timeout(callback, 0)` as a FIFO of pending callbacks, the values
    captured by deferred-submission closures, and a log of polls. */
module Host {
  import opened Options
  import opened Futures

  /** The two closures the executor ever hands to `set_timeout`: a poll pass
      on the default executor, and the one-shot submission closure created by
      `coroutine`, which owns the slot with the given index. */
  datatype Callback = DeferredPoll | DeferredRun(slot: nat)

  /** Everything outside the executor that the model observes:
      - `timers`: callbacks scheduled with zero delay and not yet fired, in
        the order the host will fire them;
      - `slots`: the `Option` captured by each `coroutine` closure, indexed by
        creation order; `take` empties it;
      - `polled`: the identities of tasks, in the order they were polled. */
  datatype Env = Env(timers: seq<Callback>, slots: seq<Option<Future>>, polled: seq<nat>)

  /** The environment before anything happened. */
  const InitialEnv: Env := Env([], [], [])

  /** `set_timeout(cb, 0)`: the callback goes to the back of the host queue
      and nothing runs now. */
  function SetTimeout(env: Env, cb: Callback): Env {
    env.(timers := env.timers + [cb])
  }
}
