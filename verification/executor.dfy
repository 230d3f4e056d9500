/** The executor of `crates/web/src/executor.rs`: a lazily created FIFO of
    tasks, driven by fixed-count poll passes that requeue pending tasks at the
    back and drop finished ones. */
module Executors {
  import opened Options
  import opened Futures
  import opened Host
  import opened Tasks
  import opened Sequences

  /** An executor: its queue, absent until first used, and the number of tasks
      created so far, which hands each new task a fresh identity. */
  datatype Executor = Executor(tasks: Option<seq<Task>>, nextId: nat)

  /** The queue as the executor treats it: an absent queue is empty. */
  function Queue(e: Executor): seq<Task> {
    if e.tasks.Some? then e.tasks.value else []
  }

  /** Each task is queued at most once, and under an identity already handed out. */
  ghost predicate Valid(e: Executor) {
    var ids := Ids(Queue(e));
    Distinct(ids) && forall i :: 0 <= i < |ids| ==> ids[i] < e.nextId
  }

  /*** Reference definition of one poll pass over a queue ***/

  /** The identities of the tasks of `q`, front to back. */
  function Ids(q: seq<Task>): (r: seq<nat>)
    ensures |r| == |q|
  {
    if |q| == 0 then [] else [q[0].id] + Ids(q[1..])
  }

  /** The `i`-th identity is that of the `i`-th task. */
  lemma {:induction false} IdsAt(q: seq<Task>)
    ensures forall i :: 0 <= i < |q| ==> Ids(q)[i] == q[i].id
    decreases |q|
  {
    if |q| > 0 {
      IdsAt(q[1..]);
      forall i | 0 < i < |q| ensures Ids(q)[i] == q[i].id {
        assert Ids(q)[i] == Ids(q[1..])[i - 1];
      }
    }
  }

  lemma {:induction false} IdsAppend(a: seq<Task>, b: seq<Task>)
    ensures Ids(a + b) == Ids(a) + Ids(b)
    decreases |a|
  {
    if |a| == 0 {
      assert a + b == b;
    } else {
      assert (a + b)[1..] == a[1..] + b;
      IdsAppend(a[1..], b);
    }
  }

  /** What remains of `t` after one poll: nothing if it finished, else the
      same task with its future advanced. */
  function Advanced(t: Task): seq<Task> {
    match PollOnce(t.future)
    case Ready => []
    case Pending(rest) => [Task(t.id, rest)]
  }

  /** The tasks of `q` whose poll answers Pending, advanced, in queue order. */
  function Survivors(q: seq<Task>): (r: seq<Task>)
    ensures |r| <= |q|
  {
    if |q| == 0 then [] else Advanced(q[0]) + Survivors(q[1..])
  }

  /** The host callbacks that polling each task of `q` once schedules. */
  function Wakes(q: seq<Task>): (r: seq<Callback>)
    ensures |r| <= |q|
    ensures forall j :: 0 <= j < |r| ==> r[j] == DeferredPoll
  {
    if |q| == 0 then []
    else (if WakesOnPoll(q[0].future) then [DeferredPoll] else []) + Wakes(q[1..])
  }

  lemma {:induction false} SurvivorsAppend(a: seq<Task>, b: seq<Task>)
    ensures Survivors(a + b) == Survivors(a) + Survivors(b)
    decreases |a|
  {
    if |a| == 0 {
      assert a + b == b;
    } else {
      assert (a + b)[1..] == a[1..] + b;
      SurvivorsAppend(a[1..], b);
    }
  }

  lemma {:induction false} WakesAppend(a: seq<Task>, b: seq<Task>)
    ensures Wakes(a + b) == Wakes(a) + Wakes(b)
    decreases |a|
  {
    if |a| == 0 {
      assert a + b == b;
    } else {
      assert (a + b)[1..] == a[1..] + b;
      WakesAppend(a[1..], b);
    }
  }

  /*** The executor's operations ***/

  /** `add_task`: creates the queue if absent and appends a new task owning `f`. */
  function AddTask(e: Executor, f: Future): (r: Executor)
    ensures r.tasks.Some?
    ensures |r.tasks.value| == |Queue(e)| + 1
    ensures r.tasks.value[..|Queue(e)|] == Queue(e)
    ensures r.tasks.value[|Queue(e)|] == Task(e.nextId, f)
    ensures r.nextId == e.nextId + 1
    ensures Valid(e) ==> Valid(r)
  {
    var tasks := Queue(e);
    var t := Task(e.nextId, f);
    IdsAppend(tasks, [t]);
    Executor(Some(tasks + [t]), e.nextId + 1)
  }

  /** The loop of `poll_tasks`: `n` times, pop the front task, poll it, and
      push it back if it is still pending. */
  function PollN(n: nat, q: seq<Task>, env: Env): (r: (seq<Task>, Env))
    requires n <= |q|
    ensures |q| - n <= |r.0| <= |q|
    ensures |r.1.polled| == |env.polled| + n
    ensures r.1.slots == env.slots
    decreases n
  {
    if n == 0 then (q, env)
    else
      var p := IsPending(q[0], env);
      PollN(n - 1, q[1..] + (if p.pending then [p.task] else []), p.env)
  }

  /** One iteration of the loop: the front task is polled and, if still
      pending, requeued at the back in its advanced form. */
  lemma PollNStep(n: nat, q: seq<Task>, env: Env)
    requires 0 < n <= |q|
    ensures PollN(n, q, env) == PollN(n - 1, q[1..] + Advanced(q[0]), IsPending(q[0], env).env)
  {
    var p := IsPending(q[0], env);
    assert (if p.pending then [p.task] else []) == Advanced(q[0]);
  }

  /** The reference definitions, one task at a time. */
  lemma PassUnfold(a: seq<Task>)
    requires |a| > 0
    ensures Survivors(a) == Advanced(a[0]) + Survivors(a[1..])
    ensures Wakes(a) == (if WakesOnPoll(a[0].future) then [DeferredPoll] else []) + Wakes(a[1..])
    ensures Ids(a) == [a[0].id] + Ids(a[1..])
  {
  }

  /** Polling as many tasks as `a` holds from the front of `a + b` polls
      exactly the tasks of `a`, each once, front to back, and leaves `b`
      untouched at the front of the queue, followed by the survivors of `a`. */
  lemma {:induction false} PollNSplit(a: seq<Task>, b: seq<Task>, env: Env)
    ensures PollN(|a|, a + b, env).0 == b + Survivors(a)
    ensures PollN(|a|, a + b, env).1.timers == env.timers + Wakes(a)
    ensures PollN(|a|, a + b, env).1.polled == env.polled + Ids(a)
    ensures PollN(|a|, a + b, env).1.slots == env.slots
    decreases |a|
  {
    if |a| == 0 {
      assert a + b == b;
    } else {
      var kept := Advanced(a[0]);
      var p := IsPending(a[0], env);
      assert (a + b)[0] == a[0];
      assert (a + b)[1..] + kept == a[1..] + (b + kept);
      PollNStep(|a|, a + b, env);
      PollNSplit(a[1..], b + kept, p.env);
      PassUnfold(a);
    }
  }

  /** `poll_tasks`: one pass over the tasks queued when it starts. */
  function PollTasks(e: Executor, env: Env): (r: (Executor, Env))
    ensures r.0 == Executor(Some(Survivors(Queue(e))), e.nextId)
    ensures r.1 == env.(timers := env.timers + Wakes(Queue(e)), polled := env.polled + Ids(Queue(e)))
  {
    var tasks := Queue(e);
    if |tasks| == 0 then (e.(tasks := Some(tasks)), env)
    else
      assert tasks + [] == tasks;
      PollNSplit(tasks, [], env);
      assert [] + Survivors(tasks) == Survivors(tasks);
      var r := PollN(|tasks|, tasks, env);
      (e.(tasks := Some(r.0)), r.1)
  }

  lemma QueueAfterAdd(e: Executor, f: Future)
    ensures Queue(AddTask(e, f)) == Queue(e) + [Task(e.nextId, f)]
  {
  }

  /** A pass over a queue with `t` at the back is a pass over the rest
      followed by one poll of `t`. */
  lemma PassOverAppended(q: seq<Task>, t: Task)
    ensures Survivors(q + [t]) == Survivors(q) + Advanced(t)
    ensures Wakes(q + [t]) == Wakes(q) + (if WakesOnPoll(t.future) then [DeferredPoll] else [])
    ensures Ids(q + [t]) == Ids(q) + [t.id]
  {
    SurvivorsAppend(q, [t]);
    WakesAppend(q, [t]);
    IdsAppend(q, [t]);
    PassUnfold([t]);
    assert [t][1..] == [];
  }

  /** `Executor::run`: submit `f`, then one poll pass, in which the new task
      is polled last, after every task already queued. */
  function Run(e: Executor, f: Future, env: Env): (r: (Executor, Env))
    ensures r.0.tasks == Some(Survivors(Queue(e)) + Advanced(Task(e.nextId, f)))
    ensures r.0.nextId == e.nextId + 1
    ensures r.1.timers == env.timers + Wakes(Queue(e)) + (if WakesOnPoll(f) then [DeferredPoll] else [])
    ensures r.1.polled == env.polled + Ids(Queue(e)) + [e.nextId]
    ensures r.1.slots == env.slots
  {
    QueueAfterAdd(e, f);
    PassOverAppended(Queue(e), Task(e.nextId, f));
    PollTasks(AddTask(e, f), env)
  }

  /*** Properties of a poll pass ***/

  /** A pass on an absent or empty queue creates an empty queue, polls nothing
      and schedules nothing. */
  lemma PollEmptyIsNoOp(e: Executor, env: Env)
    requires Queue(e) == []
    ensures PollTasks(e, env) == (Executor(Some([]), e.nextId), env)
  {
  }

  /** The queue after a pass is the starting queue with the finished tasks
      left out, in the original relative order. */
  lemma {:induction false} SurvivorsInOrder(q: seq<Task>)
    ensures IsSubseq(Ids(Survivors(q)), Ids(q))
    decreases |q|
  {
    if |q| > 0 {
      SurvivorsInOrder(q[1..]);
      PassUnfold(q);
      IdsAppend(Advanced(q[0]), Survivors(q[1..]));
      var s := Ids(Survivors(q));
      assert Ids(q)[1..] == Ids(q[1..]);
      if PollOnce(q[0].future).Pending? {
        assert Ids(Advanced(q[0])) == [q[0].id];
        assert s[0] == Ids(q)[0];
        assert s[1..] == Ids(Survivors(q[1..]));
      } else {
        assert Ids(Advanced(q[0])) == [];
        assert s == Ids(Survivors(q[1..]));
      }
    }
  }

  /** With identities distinct, a task is still queued after a pass exactly
      when its poll answered Pending. */
  lemma {:induction false} SurvivorsArePending(q: seq<Task>)
    requires Distinct(Ids(q))
    ensures forall i :: 0 <= i < |q| ==>
              (q[i].id in Ids(Survivors(q)) <==> q[i].future.pendingPolls > 0)
    decreases |q|
  {
    if |q| > 0 {
      var rest := q[1..];
      PassUnfold(q);
      assert Ids(rest) == Ids(q)[1..];
      assert Distinct(Ids(rest));
      SurvivorsArePending(rest);
      SurvivorsInOrder(rest);
      SubseqMembers(Ids(Survivors(rest)), Ids(rest));
      IdsAppend(Advanced(q[0]), Survivors(rest));
      IdsAt(q);
      IdsAt(rest);
      var head := Ids(Advanced(q[0]));
      assert head == if q[0].future.pendingPolls > 0 then [q[0].id] else [];
      assert q[0].id !in Ids(rest) by {
        forall j | 0 <= j < |rest| ensures Ids(rest)[j] != q[0].id {
          assert Ids(rest)[j] == Ids(q)[j + 1];
        }
      }
      forall i | 0 < i < |q|
        ensures q[i].id in Ids(Survivors(q)) <==> q[i].future.pendingPolls > 0
      {
        assert q[i] == rest[i - 1];
        assert Ids(q)[i] != Ids(q)[0];
      }
    }
  }

  /** A pass keeps the executor valid: no task is ever queued twice. */
  lemma PollPreservesValid(e: Executor, env: Env)
    requires Valid(e)
    ensures Valid(PollTasks(e, env).0)
  {
    var q := Queue(e);
    SurvivorsInOrder(q);
    SubseqDistinct(Ids(Survivors(q)), Ids(q));
    SubseqMembers(Ids(Survivors(q)), Ids(q));
    IdsAt(q);
    var ids := Ids(Survivors(q));
    forall i | 0 <= i < |ids| ensures ids[i] < e.nextId {
      assert ids[i] in Ids(q);
      var k :| 0 <= k < |q| && Ids(q)[k] == ids[i];
    }
  }

  /** In a valid executor, a queued task is still queued after a pass, and so
      is polled by the next pass, exactly when this pass found it pending.
      `Runtime.FinishedNeverPolledAgain` extends this to every later step. */
  lemma PassKeepsExactlyPending(e: Executor, env: Env)
    requires Valid(e)
    ensures forall i :: 0 <= i < |Queue(e)| ==>
              (Queue(e)[i].id in Ids(Queue(PollTasks(e, env).0)) <==> Queue(e)[i].future.pendingPolls > 0)
  {
    SurvivorsArePending(Queue(e));
  }

  /** Submitting and driving one pass keeps the executor valid. */
  lemma RunPreservesValid(e: Executor, f: Future, env: Env)
    requires Valid(e)
    ensures Valid(Run(e, f, env).0)
  {
    PollPreservesValid(AddTask(e, f), env);
  }

  /** `run` on a future that is Ready at its first poll does what a plain
      pass does, except that the new task is polled once and then dropped. */
  lemma RunReadyFirst(e: Executor, f: Future, env: Env)
    requires f.pendingPolls == 0
    ensures Run(e, f, env).0 == PollTasks(e, env).0.(nextId := e.nextId + 1)
    ensures Run(e, f, env).1 == PollTasks(e, env).1.(polled := PollTasks(e, env).1.polled + [e.nextId])
  {
    assert Advanced(Task(e.nextId, f)) == [];
    assert Survivors(Queue(e)) + [] == Survivors(Queue(e));
    assert Wakes(Queue(e)) + [] == Wakes(Queue(e));
  }

  /*** Termination of repeated passes ***/

  /** Every task of `q` finishes at or before its `k`-th poll from now. */
  ghost predicate FinishWithin(q: seq<Task>, k: nat) {
    forall i :: 0 <= i < |q| ==> q[i].future.pendingPolls < k
  }

  /** `k` successive passes with nothing submitted in between. */
  function Passes(e: Executor, env: Env, k: nat): (r: (Executor, Env))
    ensures r.0.nextId == e.nextId
    ensures |Queue(r.0)| <= |Queue(e)|
    decreases k
  {
    if k == 0 then (e, env)
    else
      var p := PollTasks(e, env);
      Passes(p.0, p.1, k - 1)
  }

  /** Only an empty queue finishes within zero polls. */
  lemma NoneWithinZero(q: seq<Task>)
    ensures FinishWithin(q, 0) ==> q == []
  {
    if |q| > 0 {
      assert !FinishWithin(q, 0) by {
        assert q[0].future.pendingPolls >= 0;
      }
    }
  }

  lemma {:induction false} SurvivorsNearerDone(q: seq<Task>, k: nat)
    requires FinishWithin(q, k + 1)
    ensures FinishWithin(Survivors(q), k)
    decreases |q|
  {
    if |q| > 0 {
      SurvivorsNearerDone(q[1..], k);
      var s := Survivors(q);
      var a := Advanced(q[0]);
      assert s == a + Survivors(q[1..]);
      forall i | 0 <= i < |s| ensures s[i].future.pendingPolls < k {
        if i >= |a| {
          assert s[i] == Survivors(q[1..])[i - |a|];
        }
      }
    }
  }

  /** If every queued task finishes within `k` polls, `k` passes empty the queue. */
  lemma {:induction false} DrainsWithin(e: Executor, env: Env, k: nat)
    requires FinishWithin(Queue(e), k)
    ensures Queue(Passes(e, env, k).0) == []
    ensures k > 0 ==> Passes(e, env, k).0.tasks == Some([])
    decreases k
  {
    if k == 0 {
      NoneWithinZero(Queue(e));

    } else {
      var p := PollTasks(e, env);
      SurvivorsNearerDone(Queue(e), k - 1);
      DrainsWithin(p.0, p.1, k - 1);
      if k - 1 == 0 {
        assert Survivors(Queue(e)) == [];
      }
    }
  }
}
