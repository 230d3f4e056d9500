/** The process-wide default executor, the module-level entry points that
    drive it, and the host firing the callbacks scheduled through it. */
module Runtime {
  import opened Options
  import opened Futures
  import opened Host
  import opened Tasks
  import opened Executors
  import opened Sequences

  /** `DEFAULT_EXECUTOR` as created at startup: no queue yet. */
  const DefaultExecutor: Executor := Executor(None, 0)

  /** The process: the default executor and the host around it. */
  datatype World = World(exec: Executor, env: Env)

  const Initial: World := World(DefaultExecutor, InitialEnv)

  /** Every scheduled deferred submission owns a slot that exists, and the
      default executor is valid. */
  ghost predicate WellFormed(w: World) {
    && Valid(w.exec)
    && forall j :: 0 <= j < |w.env.timers| && w.env.timers[j].DeferredRun? ==>
         w.env.timers[j].slot < |w.env.slots|
  }

  /** Module-level `run`: submits `f` to the default executor and drives one
      pass, which polls every task queued before and then the new one. */
  function RunDefault(w: World, f: Future): (r: World)
    ensures r.exec.tasks.Some? && r.exec.nextId == w.exec.nextId + 1
    ensures r.env.polled == w.env.polled + Ids(Queue(w.exec)) + [w.exec.nextId]
    ensures |w.env.timers| <= |r.env.timers| && r.env.timers[..|w.env.timers|] == w.env.timers
    ensures forall j :: |w.env.timers| <= j < |r.env.timers| ==> r.env.timers[j] == DeferredPoll
    ensures r.env.slots == w.env.slots
  {
    var p := Run(w.exec, f, w.env);
    World(p.0, p.1)
  }

  /** Module-level `poll_tasks`: one pass of the default executor. */
  function PollDefault(w: World): (r: World)
    ensures r.exec.tasks.Some? && r.exec.nextId == w.exec.nextId
    ensures r.env.polled == w.env.polled + Ids(Queue(w.exec))
    ensures |w.env.timers| <= |r.env.timers| && r.env.timers[..|w.env.timers|] == w.env.timers
    ensures forall j :: |w.env.timers| <= j < |r.env.timers| ==> r.env.timers[j] == DeferredPoll
    ensures r.env.slots == w.env.slots
  {
    var p := PollTasks(w.exec, w.env);
    World(p.0, p.1)
  }

  /** A waker invoked by whatever event source the future registered it
      with: one deferred pass is scheduled; nothing is polled and the queue
      is left alone. */
  function Wake(w: World): (r: World)
    ensures r.exec == w.exec
    ensures r.env.polled == w.env.polled && r.env.slots == w.env.slots
    ensures r.env.timers == w.env.timers + [DeferredPoll]
  {
    World(w.exec, WakeByRef(w.env))
  }

  /** `coroutine`: moves `f` into a fresh one-shot slot and schedules the
      closure owning that slot; nothing is submitted or polled now. */
  function Coroutine(w: World, f: Future): (r: World)
    ensures r.exec == w.exec
    ensures r.env.polled == w.env.polled
    ensures r.env.slots == w.env.slots + [Some(f)]
    ensures r.env.timers == w.env.timers + [DeferredRun(|w.env.slots|)]
  {
    var slot := |w.env.slots|;
    var env := w.env.(slots := w.env.slots + [Some(f)]);
    World(w.exec, SetTimeout(env, DeferredRun(slot)))
  }

  /** What a callback does when the host runs it. A deferred submission
      takes the future out of its slot and, if there was one, runs it on the
      default executor; an emptied slot makes it do nothing. */
  function Dispatch(w: World, cb: Callback): (r: World)
    ensures |w.env.timers| <= |r.env.timers| && r.env.timers[..|w.env.timers|] == w.env.timers
    ensures forall j :: |w.env.timers| <= j < |r.env.timers| ==> r.env.timers[j] == DeferredPoll
    ensures |r.env.slots| == |w.env.slots|
    ensures forall j :: 0 <= j < |w.env.slots| && !(cb.DeferredRun? && cb.slot == j) ==>
              r.env.slots[j] == w.env.slots[j]
    ensures cb.DeferredRun? && cb.slot < |w.env.slots| ==> r.env.slots[cb.slot] == None
    ensures cb.DeferredRun? && (cb.slot >= |w.env.slots| || w.env.slots[cb.slot].None?) ==> r == w
    ensures |w.env.polled| <= |r.env.polled| && r.env.polled[..|w.env.polled|] == w.env.polled
  {
    match cb
    case DeferredPoll => PollDefault(w)
    case DeferredRun(i) =>
      if i < |w.env.slots| && w.env.slots[i].Some? then
        RunDefault(w.(env := w.env.(slots := w.env.slots[i := None])), w.env.slots[i].value)
      else w
  }

  /** The host runs its oldest pending callback, if any. Callbacks scheduled
      while it runs queue up behind those already waiting. */
  function Fire(w: World): (r: World)
    ensures |w.env.timers| == 0 ==> r == w
    ensures |w.env.polled| <= |r.env.polled| && r.env.polled[..|w.env.polled|] == w.env.polled
    ensures |w.env.timers| > 0 ==>
              |w.env.timers| - 1 <= |r.env.timers| && r.env.timers[..|w.env.timers| - 1] == w.env.timers[1..]
    ensures |w.env.timers| > 0 ==>
              forall j :: |w.env.timers| - 1 <= j < |r.env.timers| ==> r.env.timers[j] == DeferredPoll
  {
    if |w.env.timers| == 0 then w
    else Dispatch(w.(env := w.env.(timers := w.env.timers[1..])), w.env.timers[0])
  }

  /*** Properties of the entry points ***/

  /** The first pass of a fresh process creates the queue and does nothing else. */
  lemma PollFreshProcess()
    ensures PollDefault(Initial) == World(Executor(Some([]), 0), InitialEnv)
  {
    PollEmptyIsNoOp(DefaultExecutor, InitialEnv);
  }

  /** A wake with nothing else pending leads to exactly one poll pass. */
  lemma WakeThenFire(w: World)
    requires w.env.timers == []
    ensures Fire(Wake(w)) == PollDefault(w)
  {
    assert Wake(w).env.timers[1..] == [];
  }

  /** Firing the callback of `coroutine` submits the future through `run`,
      after emptying its slot. */
  lemma CoroutineThenFire(w: World, f: Future)
    requires w.env.timers == []
    ensures Fire(Coroutine(w, f)) == RunDefault(World(w.exec, w.env.(slots := w.env.slots + [None])), f)
  {
    var c := Coroutine(w, f);
    assert c.env.timers[1..] == [];
    assert c.env.slots[|w.env.slots| := None] == w.env.slots + [None];
  }

  /** However often a deferred submission's callback runs, the future is
      submitted at most once: a second run changes nothing. */
  lemma CoroutineAtMostOnce(w: World, slot: nat)
    ensures Dispatch(Dispatch(w, DeferredRun(slot)), DeferredRun(slot)) == Dispatch(w, DeferredRun(slot))
  {
  }

  /** The process starts well formed: `DEFAULT_EXECUTOR` has no queue and the
      host has nothing scheduled. */
  lemma InitialWellFormed()
    ensures WellFormed(Initial)
  {
  }

  lemma RunDefaultWellFormed(w: World, f: Future)
    requires WellFormed(w)
    ensures WellFormed(RunDefault(w, f))
  {
    RunPreservesValid(w.exec, f, w.env);
    var r := RunDefault(w, f);
    forall j | 0 <= j < |r.env.timers| && r.env.timers[j].DeferredRun?
      ensures r.env.timers[j].slot < |r.env.slots|
    {
      assert j < |w.env.timers| && r.env.timers[j] == w.env.timers[j];
    }
  }

  lemma PollDefaultWellFormed(w: World)
    requires WellFormed(w)
    ensures WellFormed(PollDefault(w))
  {
    PollPreservesValid(w.exec, w.env);
    var r := PollDefault(w);
    forall j | 0 <= j < |r.env.timers| && r.env.timers[j].DeferredRun?
      ensures r.env.timers[j].slot < |r.env.slots|
    {
      assert j < |w.env.timers| && r.env.timers[j] == w.env.timers[j];
    }
  }

  /** Every entry point called by outside code keeps the process well formed. */
  lemma EntryPointsPreserveWellFormed(w: World, f: Future)
    requires WellFormed(w)
    ensures WellFormed(RunDefault(w, f))
    ensures WellFormed(PollDefault(w))
    ensures WellFormed(Wake(w))
    ensures WellFormed(Coroutine(w, f))
  {
    RunDefaultWellFormed(w, f);
    PollDefaultWellFormed(w);
    WakeWellFormed(w);
    CoroutineWellFormed(w, f);
  }

  lemma WakeWellFormed(w: World)
    requires WellFormed(w)
    ensures WellFormed(Wake(w))
  {
    var r := Wake(w);
    forall j | 0 <= j < |r.env.timers| && r.env.timers[j].DeferredRun?
      ensures r.env.timers[j].slot < |r.env.slots|
    {
      assert j < |w.env.timers| && r.env.timers[j] == w.env.timers[j];
    }
  }

  lemma CoroutineWellFormed(w: World, f: Future)
    requires WellFormed(w)
    ensures WellFormed(Coroutine(w, f))
  {
    var r := Coroutine(w, f);
    forall j | 0 <= j < |r.env.timers| && r.env.timers[j].DeferredRun?
      ensures r.env.timers[j].slot < |r.env.slots|
    {
      if j < |w.env.timers| {
        assert r.env.timers[j] == w.env.timers[j];
      }
    }
  }

  /** Running any callback keeps the process well formed. */
  lemma DispatchWellFormed(w: World, cb: Callback)
    requires WellFormed(w)
    ensures WellFormed(Dispatch(w, cb))
  {
    match cb {
      case DeferredPoll =>
        PollDefaultWellFormed(w);
      case DeferredRun(i) =>
        if i < |w.env.slots| && w.env.slots[i].Some? {
          RunDefaultWellFormed(w.(env := w.env.(slots := w.env.slots[i := None])), w.env.slots[i].value);
        }
    }
  }

  /** The host firing callbacks keeps the process well formed. */
  lemma FirePreservesWellFormed(w: World)
    requires WellFormed(w)
    ensures WellFormed(Fire(w))
  {
    if |w.env.timers| > 0 {
      var w' := w.(env := w.env.(timers := w.env.timers[1..]));
      assert WellFormed(w') by {
        forall j | 0 <= j < |w'.env.timers| && w'.env.timers[j].DeferredRun?
          ensures w'.env.timers[j].slot < |w'.env.slots|
        {
          assert w'.env.timers[j] == w.env.timers[j + 1];
        }
      }
      DispatchWellFormed(w', w.env.timers[0]);
    }
  }

  /*** A finished task is never polled again ***/

  /** Identity `x` was handed out and is no longer queued. */
  ghost predicate Gone(w: World, x: nat) {
    x < w.exec.nextId && x !in Ids(Queue(w.exec))
  }

  lemma PollDefaultKeepsGone(w: World, x: nat)
    requires Valid(w.exec) && Gone(w, x)
    ensures Valid(PollDefault(w).exec) && Gone(PollDefault(w), x)
    ensures x !in PollDefault(w).env.polled[|w.env.polled|..]
  {
    var q := Queue(w.exec);
    PollPreservesValid(w.exec, w.env);
    SurvivorsInOrder(q);
    SubseqMembers(Ids(Survivors(q)), Ids(q));
    assert PollDefault(w).env.polled[|w.env.polled|..] == Ids(q);
  }

  lemma RunDefaultKeepsGone(w: World, f: Future, x: nat)
    requires Valid(w.exec) && Gone(w, x)
    ensures Valid(RunDefault(w, f).exec) && Gone(RunDefault(w, f), x)
    ensures x !in RunDefault(w, f).env.polled[|w.env.polled|..]
  {
    var q := Queue(w.exec);
    var t := Task(w.exec.nextId, f);
    RunPreservesValid(w.exec, f, w.env);
    SurvivorsInOrder(q);
    SubseqMembers(Ids(Survivors(q)), Ids(q));
    IdsAppend(Survivors(q), Advanced(t));
    assert Ids(Advanced(t)) == if f.pendingPolls == 0 then [] else [t.id];
    var r := RunDefault(w, f);
    assert Queue(r.exec) == Survivors(q) + Advanced(t);
    assert r.env.polled[|w.env.polled|..] == Ids(q) + [t.id];
  }

  lemma FireKeepsGone(w: World, x: nat)
    requires Valid(w.exec) && Gone(w, x)
    ensures Valid(Fire(w).exec) && Gone(Fire(w), x)
    ensures x !in Fire(w).env.polled[|w.env.polled|..]
  {
    if |w.env.timers| > 0 {
      var w' := w.(env := w.env.(timers := w.env.timers[1..]));
      match w.env.timers[0] {
        case DeferredPoll =>
          PollDefaultKeepsGone(w', x);
        case DeferredRun(i) =>
          if i < |w.env.slots| && w.env.slots[i].Some? {
            var w'' := w'.(env := w'.env.(slots := w'.env.slots[i := None]));
            RunDefaultKeepsGone(w'', w.env.slots[i].value, x);
          }
      }
    }
  }

  /** Anything that can happen to the process next: outside code calling
      `run`, `poll_tasks` or `coroutine`, an event source invoking a waker,
      or the host running its oldest callback. */
  datatype Step = CallRun(f: Future) | CallPollTasks | WakeUp | CallCoroutine(f: Future) | HostFires

  function Apply(w: World, s: Step): (r: World)
    ensures |w.env.polled| <= |r.env.polled| && r.env.polled[..|w.env.polled|] == w.env.polled
  {
    match s
    case CallRun(f) => RunDefault(w, f)
    case CallPollTasks => PollDefault(w)
    case WakeUp => Wake(w)
    case CallCoroutine(f) => Coroutine(w, f)
    case HostFires => Fire(w)
  }

  /** The process after `steps`, in order. */
  function Trace(w: World, steps: seq<Step>): (r: World)
    ensures |w.env.polled| <= |r.env.polled| && r.env.polled[..|w.env.polled|] == w.env.polled
    decreases |steps|
  {
    if |steps| == 0 then w else Trace(Apply(w, steps[0]), steps[1..])
  }

  lemma StepKeepsGone(w: World, s: Step, x: nat)
    requires Valid(w.exec) && Gone(w, x)
    ensures Valid(Apply(w, s).exec) && Gone(Apply(w, s), x)
    ensures x !in Apply(w, s).env.polled[|w.env.polled|..]
  {
    match s {
      case CallRun(f) => RunDefaultKeepsGone(w, f, x);
      case CallPollTasks => PollDefaultKeepsGone(w, x);
      case WakeUp =>
      case CallCoroutine(f) =>
      case HostFires => FireKeepsGone(w, x);
    }
  }

  /** Once an identity is handed out and no longer queued, no sequence of
      steps polls it again. */
  lemma {:induction false} NeverPolledAgain(w: World, steps: seq<Step>, x: nat)
    requires Valid(w.exec) && Gone(w, x)
    ensures Valid(Trace(w, steps).exec) && Gone(Trace(w, steps), x)
    ensures x !in Trace(w, steps).env.polled[|w.env.polled|..]
    decreases |steps|
  {
    if |steps| > 0 {
      var w1 := Apply(w, steps[0]);
      StepKeepsGone(w, steps[0], x);
      NeverPolledAgain(w1, steps[1..], x);
      TraceStep(w, steps);
      NotInExtensions(x, w.env.polled, w1.env.polled, Trace(w1, steps[1..]).env.polled);
    }
  }

  lemma TraceStep(w: World, steps: seq<Step>)
    requires |steps| > 0
    ensures Trace(w, steps) == Trace(Apply(w, steps[0]), steps[1..])
  {
  }

  /*** A deferred submission runs its future at most once ***/

  /** No step refills a slot that a deferred run has emptied. */
  lemma StepKeepsSlotEmpty(w: World, s: Step, i: nat)
    requires i < |w.env.slots| && w.env.slots[i].None?
    ensures i < |Apply(w, s).env.slots| && Apply(w, s).env.slots[i].None?
  {
    match s {
      case CallCoroutine(f) =>
        assert Coroutine(w, f).env.slots[i] == w.env.slots[i];
      case HostFires =>
        if |w.env.timers| > 0 {
          var w' := w.(env := w.env.(timers := w.env.timers[1..]));
          assert Dispatch(w', w.env.timers[0]).env.slots[i] == None;
        }
      case _ =>
    }
  }

  /** An emptied slot stays empty whatever the process does afterwards. */
  lemma {:induction false} SlotStaysEmpty(w: World, steps: seq<Step>, i: nat)
    requires i < |w.env.slots| && w.env.slots[i].None?
    ensures i < |Trace(w, steps).env.slots| && Trace(w, steps).env.slots[i].None?
    decreases |steps|
  {
    if |steps| > 0 {
      StepKeepsSlotEmpty(w, steps[0], i);
      SlotStaysEmpty(Apply(w, steps[0]), steps[1..], i);
      TraceStep(w, steps);
    }
  }

  /** Once a deferred run has fired, firing it again at any later point,
      after any steps, changes nothing: its future is submitted at most once. */
  lemma RefiringIsNoOp(w: World, i: nat, steps: seq<Step>)
    requires i < |w.env.slots|
    ensures var t := Trace(Dispatch(w, DeferredRun(i)), steps);
            Dispatch(t, DeferredRun(i)) == t
  {
    SlotStaysEmpty(Dispatch(w, DeferredRun(i)), steps, i);
  }

  /** A task that finishes in a pass of the default executor is never polled
      again, whatever the process does afterwards. */
  lemma FinishedNeverPolledAgain(w: World, i: nat, steps: seq<Step>)
    requires Valid(w.exec)
    requires i < |Queue(w.exec)| && Queue(w.exec)[i].future.pendingPolls == 0
    ensures Queue(w.exec)[i].id !in Trace(PollDefault(w), steps).env.polled[|PollDefault(w).env.polled|..]
  {
    var x := Queue(w.exec)[i].id;
    PassKeepsExactlyPending(w.exec, w.env);
    PollPreservesValid(w.exec, w.env);
    IdsAt(Queue(w.exec));
    assert x < w.exec.nextId by {
      assert Ids(Queue(w.exec))[i] == x;
    }
    NeverPolledAgain(PollDefault(w), steps, x);
  }
}
