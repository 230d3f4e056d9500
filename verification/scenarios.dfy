/** Concrete runs of the default executor from a fresh process. */
module Scenarios {
  import opened Options
  import opened Futures
  import opened Host
  import opened Tasks
  import opened Executors
  import opened Runtime

  /** A future that is Ready at its first poll is polled once, leaves an empty
      queue behind and schedules nothing: its waker was never invoked. */
  lemma ReadyAtOnce()
    ensures RunDefault(Initial, Future(0, false)) == World(Executor(Some([]), 1), Env([], [], [0]))
  {
  }

  /** A future that wakes itself during its one Pending poll: the first pass
      requeues it and schedules one deferred pass; firing that pass finishes
      it and empties the queue. */
  lemma SelfWakingFinishesOnSecondPass()
    ensures RunDefault(Initial, Future(1, true)).exec.tasks == Some([Task(0, Future(0, true))])
    ensures RunDefault(Initial, Future(1, true)).env.timers == [DeferredPoll]
    ensures Fire(RunDefault(Initial, Future(1, true))) == World(Executor(Some([]), 1), Env([], [], [0, 0]))
  {
    var t := Task(0, Future(1, true));
    assert Queue(DefaultExecutor) == [];
    assert Advanced(t) == [Task(0, Future(0, true))];
    var w := RunDefault(Initial, Future(1, true));
    assert Queue(w.exec) == [Task(0, Future(0, true))];
    assert Survivors(Queue(w.exec)) == Advanced(Task(0, Future(0, true))) == [];
  }

  /** A pass over a queue holding the single task `t`. */
  lemma PassOfOne(e: Executor, env: Env, t: Task)
    requires Queue(e) == [t]
    ensures PollTasks(e, env).0.tasks == Some(Advanced(t))
    ensures PollTasks(e, env).1.polled == env.polled + [t.id]
    ensures !WakesOnPoll(t.future) ==> PollTasks(e, env).1.timers == env.timers
  {
    var none: seq<Task> := [];
    PassOverAppended(none, t);
    assert none + [t] == [t];
    assert Survivors([t]) == Advanced(t);
  }

  /** A pass over two tasks that never wake themselves, the first finishing now. */
  lemma PassOfTwo(e: Executor, env: Env, a: nat, b: Future)
    requires b.pendingPolls > 0 && !b.wakesSelf
    requires Queue(e) == [Task(a, Future(0, false)), Task(a + 1, b)]
    ensures PollTasks(e, env).0.tasks == Some(Advanced(Task(a + 1, b)))
    ensures PollTasks(e, env).1.polled == env.polled + [a, a + 1]
    ensures PollTasks(e, env).1.timers == env.timers
  {
    var t := Task(a + 1, b);
    var first := [Task(a, Future(0, false))];
    var none: seq<Task> := [];
    PassOverAppended(first, t);
    PassOverAppended(none, first[0]);
    assert none + first == first;
    assert Survivors(first) == [];
    assert first + [t] == Queue(e);
    assert Survivors(Queue(e)) == Advanced(t);
  }

  lemma PassesStep(e: Executor, env: Env, k: nat)
    requires k > 0
    ensures Passes(e, env, k) == Passes(PollTasks(e, env).0, PollTasks(e, env).1, k - 1)
  {
  }

  /** Two tasks submitted one after the other, A finishing at its first poll
      and B at its third: each pass visits every queued task once, in queue
      order, so B is polled once per pass until done, and three passes empty
      the queue. */
  lemma RoundRobin(e: Executor, env: Env, a: nat)
    requires Queue(e) == [Task(a, Future(0, false)), Task(a + 1, Future(2, false))]
    ensures Passes(e, env, 3).1.polled == env.polled + [a, a + 1, a + 1, a + 1]
    ensures Passes(e, env, 3).1.timers == env.timers
    ensures Passes(e, env, 3).0.tasks == Some([])
  {
    var p1 := PollTasks(e, env);
    PassOfTwo(e, env, a, Future(2, false));
    var p2 := PollTasks(p1.0, p1.1);
    PassOfOne(p1.0, p1.1, Task(a + 1, Future(1, false)));
    var p3 := PollTasks(p2.0, p2.1);
    PassOfOne(p2.0, p2.1, Task(a + 1, Future(0, false)));
    PassesStep(e, env, 3);
    PassesStep(p1.0, p1.1, 2);
    PassesStep(p2.0, p2.1, 1);
  }

  /** `coroutine` submits nothing until the host fires its callback. */
  lemma CoroutineDefers()
    ensures Coroutine(Initial, Future(0, false)).exec == DefaultExecutor
    ensures Fire(Coroutine(Initial, Future(0, false)))
         == World(Executor(Some([]), 1), Env([], [None], [0]))
  {
    CoroutineThenFire(Initial, Future(0, false));
  }
}
