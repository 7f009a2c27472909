/** The start/stop life cycle of the Android shim, under every interleaving with its worker (crates/android-jni/src/android.rs). */
module Android {
  import opened Bytes

  /** A worker thread, named by the number of its run. */
  type Run = nat

  /** The state behind the lock: shutdown channel, join handle, and whether a stop was asked for. */
  datatype Proxy = Proxy(shutdown: Option<Run>, thread: Option<Run>, stopping: bool)

  datatype Answer = Accepted | StillStopping | AlreadyRunning | BadArguments | SpawnFailed

  predicate IsRunning(p: Proxy, finished: set<Run>) { !p.stopping && p.thread.Some? && p.thread.value !in finished }

  /** A worker that has exited is forgotten, and with it the request to stop it. */
  function Reaped(p: Proxy, finished: set<Run>): Proxy {
    if p.thread.Some? && p.thread.value in finished then p.(thread := None, stopping := false) else p
  }

  function StartAnswer(p: Proxy, finished: set<Run>, argsOk: bool, spawnOk: bool): Answer {
    if p.thread.Some? && p.thread.value !in finished then (if p.stopping then StillStopping else AlreadyRunning)
    else if !argsOk then BadArguments
    else if !spawnOk then SpawnFailed
    else Accepted
  }

  function Started(p: Proxy, finished: set<Run>, a: Answer, run: Run): Proxy {
    if a == Accepted then Proxy(Some(run), Some(run), false) else Reaped(p, finished)
  }

  class ProxyState {
    var shutdown: Option<Run>
    var thread: Option<Run>
    var stopping: bool

    ghost function View(): Proxy
      reads this
    {
      Proxy(shutdown, thread, stopping)
    }

    constructor ()
      ensures View() == Proxy(None, None, false)
    {
      shutdown, thread, stopping := None, None, false;
    }

    /** `run` names the worker that is spawned if the start is accepted. */
    method StartProxy(finished: set<Run>, argsOk: bool, spawnOk: bool, run: Run) returns (a: Answer)
      modifies this
      ensures a == StartAnswer(old(View()), finished, argsOk, spawnOk)
      ensures View() == Started(old(View()), finished, a, run)
      ensures var alive := old(thread).Some? && old(thread).value !in finished;
              && (a == StillStopping <==> alive && old(stopping)) && (a == AlreadyRunning <==> alive && !old(stopping))
              && (a == BadArguments <==> !alive && !argsOk) && (a == SpawnFailed <==> !alive && argsOk && !spawnOk)
              && (a == Accepted <==> !alive && argsOk && spawnOk)
      ensures a == Accepted ==> shutdown == thread == Some(run) && !stopping
      ensures a == StillStopping || a == AlreadyRunning ==> View() == old(View())
      ensures a == BadArguments || a == SpawnFailed ==> thread.None? && shutdown == old(shutdown)
    {
      if thread.Some? && thread.value in finished {
        thread, stopping := None, false;
      }
      if thread.Some? {
        return if stopping then StillStopping else AlreadyRunning;
      }
      if !argsOk {
        return BadArguments;
      }
      if !spawnOk {
        return SpawnFailed;
      }
      shutdown, thread, stopping := Some(run), Some(run), false;
      a := Accepted;
    }

    /**
      The run whose channel is told to shut down, if there is one.  From here on
      the shim does not say it is running, whatever the worker does, and a start
      is put off until the worker has exited.
     */
    method StopProxy() returns (told: Option<Run>)
      modifies this
      ensures told == old(shutdown) && View() == Proxy(None, old(thread), true)
      ensures forall finished: set<Run> :: !IsRunning(View(), finished)
      ensures forall finished: set<Run>, argsOk, spawnOk :: thread.Some? && thread.value !in finished
                ==> StartAnswer(View(), finished, argsOk, spawnOk) == StillStopping
    {
      told := shutdown;
      shutdown := None;
      stopping := true;
    }

    /** True exactly if every start would now be answered "already running". */
    method NativeIsRunning(finished: set<Run>) returns (b: bool)
      ensures b == IsRunning(View(), finished)
      ensures b <==> forall argsOk, spawnOk :: StartAnswer(View(), finished, argsOk, spawnOk) == AlreadyRunning
    {
      b := !stopping && thread.Some? && thread.value !in finished;
      assert !b ==> StartAnswer(View(), finished, true, true) != AlreadyRunning;
    }
  }

  // ----- The machine ------------------------------------------------------

  /** A worker: building its runtime, serving, winding down, with its last callback due, and about to return. */
  datatype Stage = Building | Serving(listening: bool) | Winding(ok: bool) | Reported | Finished

  datatype Callback = Listening(run: Run) | Stopped(run: Run) | Error(run: Run)

  datatype State = State(proxy: Proxy, workers: seq<Stage>, told: set<Run>, callbacks: seq<Callback>)

  const START := State(Proxy(None, None, false), [], {}, [])

  function Done(s: State): set<Run> { set r | 0 <= r < |s.workers| && s.workers[r] == Finished }

  datatype Step =
    | Start(argsOk: bool, spawnOk: bool)
    | Stop
    | BuildFails(run: Run)
    | Build(run: Run)
    | Listen(run: Run)
    | Return(run: Run, ok: bool)
    | Report(run: Run)
    | Exit(run: Run)

  predicate AtStage(s: State, r: Run, stage: Stage) { r < |s.workers| && s.workers[r] == stage }

  predicate Enabled(s: State, step: Step) {
    match step
    case Start(_, _) => true
    case Stop => true
    case BuildFails(r) => AtStage(s, r, Building)
    case Build(r) => AtStage(s, r, Building)
    case Listen(r) => AtStage(s, r, Serving(false))
    case Return(r, _) => r < |s.workers| && s.workers[r].Serving?
    case Report(r) => r < |s.workers| && s.workers[r].Winding?
    case Exit(r) => AtStage(s, r, Reported)
  }

  function Answered(s: State, step: Step): Answer
    requires step.Start?
  {
    StartAnswer(s.proxy, Done(s), step.argsOk, step.spawnOk)
  }

  function Do(s: State, step: Step): State
    requires Enabled(s, step)
  {
    match step
    case Start(_, _) =>
      var a := Answered(s, step);
      s.(proxy := Started(s.proxy, Done(s), a, |s.workers|),
         workers := if a == Accepted then s.workers + [Building] else s.workers)
    case Stop =>
      s.(proxy := Proxy(None, s.proxy.thread, true),
         told := if s.proxy.shutdown.Some? then s.told + {s.proxy.shutdown.value} else s.told)
    case BuildFails(r) => s.(workers := s.workers[r := Reported], callbacks := s.callbacks + [Error(r)])
    case Build(r) => s.(workers := s.workers[r := Serving(false)])
    case Listen(r) => s.(workers := s.workers[r := Serving(true)], callbacks := s.callbacks + [Listening(r)])
    case Return(r, ok) => s.(workers := s.workers[r := Winding(ok)])
    case Report(r) =>
      s.(workers := s.workers[r := Reported],
         callbacks := s.callbacks + [if s.workers[r].ok then Stopped(r) else Error(r)])
    case Exit(r) => s.(workers := s.workers[r := Finished])
  }

  ghost predicate IsRun(s: State, steps: seq<Step>)
    decreases |steps|
  {
    steps == [] || (Enabled(s, steps[0]) && IsRun(Do(s, steps[0]), steps[1..]))
  }

  ghost function After(s: State, steps: seq<Step>): State
    requires IsRun(s, steps)
    decreases |steps|
  {
    if steps == [] then s else After(Do(s, steps[0]), steps[1..])
  }

  // ----- What every run keeps ---------------------------------------------

  predicate Reports(c: Callback) { !c.Listening? }

  /**
    Only the newest worker can be unfinished, and then it is the one behind the
    lock; its shutdown channel is at hand until it has been told.
   */
  ghost predicate WorkerInv(s: State) {
    && (forall r :: 0 <= r < |s.workers| && s.workers[r] != Finished ==> s.proxy.thread == Some(r) && r == |s.workers| - 1)
    && (s.proxy.thread.Some? ==> s.proxy.thread.value < |s.workers|)
    && (s.proxy.thread.Some? && s.workers[s.proxy.thread.value] != Finished ==>
          if s.proxy.stopping then s.proxy.thread.value in s.told else s.proxy.shutdown == s.proxy.thread)
  }

  /** Callbacks come run by run, and a run's report is its last callback, made exactly once before it exits. */
  ghost predicate CallbackInv(s: State) {
    && (forall i, j :: 0 <= i <= j < |s.callbacks| ==> s.callbacks[i].run <= s.callbacks[j].run)
    && (forall i :: 0 <= i < |s.callbacks| ==> s.callbacks[i].run < |s.workers|)
    && (forall i, j :: 0 <= i < j < |s.callbacks| && s.callbacks[i].run == s.callbacks[j].run ==> !Reports(s.callbacks[i]))
    && (forall i :: 0 <= i < |s.callbacks| && Reports(s.callbacks[i]) ==> Closed(s, s.callbacks[i].run))
    && (forall r :: 0 <= r < |s.workers| && Closed(s, r) ==> exists i :: ReportAt(s, i, r))
  }

  ghost predicate ReportAt(s: State, i: nat, r: Run) { i < |s.callbacks| && s.callbacks[i].run == r && Reports(s.callbacks[i]) }

  predicate Closed(s: State, r: Run) { r < |s.workers| && (s.workers[r] == Reported || s.workers[r] == Finished) }

  lemma WorkerStep(s: State, step: Step)
    requires WorkerInv(s) && Enabled(s, step)
    ensures WorkerInv(Do(s, step))
  {
  }

  /** A step without a callback closes no run. */
  lemma SilentStep(s: State, t: State)
    requires CallbackInv(s) && t.callbacks == s.callbacks && |t.workers| >= |s.workers|
    requires forall r :: 0 <= r < |t.workers| ==> (Closed(t, r) <==> Closed(s, r))
    ensures CallbackInv(t)
  {
    hide Closed;
    forall r | 0 <= r < |t.workers| && Closed(t, r) ensures exists i :: ReportAt(t, i, r) {
      ClosedBound(s, r);
      var i :| ReportAt(s, i, r);
      assert ReportAt(t, i, r);
    }
  }

  lemma ClosedBound(s: State, r: Run)
    requires Closed(s, r)
    ensures r < |s.workers|
  {
  }

  /** A callback of the newest run, which was still open. */
  lemma CallbackMade(s: State, t: State, c: Callback)
    requires CallbackInv(s) && t.callbacks == s.callbacks + [c] && |t.workers| == |s.workers|
    requires c.run == |s.workers| - 1 && !Closed(s, c.run)
    requires forall r :: 0 <= r < |t.workers| ==> (Closed(t, r) <==> Closed(s, r) || (r == c.run && Reports(c)))
    ensures CallbackInv(t)
  {
    hide Closed;
    forall r | 0 <= r < |t.workers| && Closed(t, r) ensures exists i :: ReportAt(t, i, r) {
      if Closed(s, r) {
        var i :| ReportAt(s, i, r);
        assert ReportAt(t, i, r);
      } else {
        assert ReportAt(t, |s.callbacks|, r);
      }
    }
  }

  function CallbackOf(s: State, step: Step): Option<Callback>
    requires Enabled(s, step)
  {
    match step
    case BuildFails(r) => Some(Error(r))
    case Listen(r) => Some(Listening(r))
    case Report(r) => Some(if s.workers[r].ok then Stopped(r) else Error(r))
    case _ => None
  }

  lemma StepEffect(s: State, step: Step)
    requires WorkerInv(s) && Enabled(s, step)
    ensures var t, c := Do(s, step), CallbackOf(s, step);
            && |t.workers| >= |s.workers|
            && (c.None? ==> t.callbacks == s.callbacks && forall r :: 0 <= r < |t.workers| ==> (Closed(t, r) <==> Closed(s, r)))
            && (c.Some? ==>
                  && t.callbacks == s.callbacks + [c.value] && |t.workers| == |s.workers|
                  && c.value.run == |s.workers| - 1 && !Closed(s, c.value.run)
                  && forall r :: 0 <= r < |t.workers| ==> (Closed(t, r) <==> Closed(s, r) || (r == c.value.run && Reports(c.value))))
  {
    hide Started, Done, StartAnswer;
  }

  lemma CallbackStep(s: State, step: Step)
    requires WorkerInv(s) && CallbackInv(s) && Enabled(s, step)
    ensures CallbackInv(Do(s, step))
  {
    hide CallbackInv, Closed, Do;
    StepEffect(s, step);
    var c := CallbackOf(s, step);
    if c.None? {
      SilentStep(s, Do(s, step));
    } else {
      CallbackMade(s, Do(s, step), c.value);
    }
  }

  lemma {:induction false} RunKeepsInv(s: State, steps: seq<Step>)
    requires IsRun(s, steps) && WorkerInv(s) && CallbackInv(s)
    ensures WorkerInv(After(s, steps)) && CallbackInv(After(s, steps))
    decreases |steps|
  {
    if steps != [] {
      hide WorkerInv, CallbackInv, Do, Enabled;
      WorkerStep(s, steps[0]);
      CallbackStep(s, steps[0]);
      RunKeepsInv(Do(s, steps[0]), steps[1..]);
    }
  }

  /**
    Over every run: at most one worker is unfinished; it has been told to stop
    if a stop was asked for, and can be told otherwise; and a start is accepted
    only when there is none.
   */
  lemma OneWorker(steps: seq<Step>, a: Run, b: Run)
    requires IsRun(START, steps)
    ensures var s := After(START, steps);
            && (a < |s.workers| && b < |s.workers| && s.workers[a] != Finished && s.workers[b] != Finished ==> a == b)
            && (a < |s.workers| && s.workers[a] != Finished ==> if s.proxy.stopping then a in s.told else s.proxy.shutdown == Some(a))
            && forall step: Step :: step.Start? && Answered(s, step) == Accepted ==> forall r :: 0 <= r < |s.workers| ==> s.workers[r] == Finished
  {
    RunKeepsInv(START, steps);
    hide IsRun, After, CallbackInv;
  }

  /** While the shim says it is running, every start is refused. */
  lemma RunningRefuses(s: State, step: Step)
    requires IsRunning(s.proxy, Done(s)) && step.Start?
    ensures Answered(s, step) == AlreadyRunning && Do(s, step) == s
  {
    hide Done;
  }

  /** The callbacks of successive runs never interleave, and a run reports at most once, last of all. */
  lemma CallbacksInOrder(steps: seq<Step>, i: nat, j: nat)
    requires IsRun(START, steps) && i < j < |After(START, steps).callbacks|
    ensures var c := After(START, steps).callbacks;
            c[i].run <= c[j].run && (c[i].run == c[j].run ==> !Reports(c[i]))
  {
    RunKeepsInv(START, steps);
    hide IsRun, After, WorkerInv;
  }

  /** A run that has exited has made its report. */
  lemma ExitedHasReported(steps: seq<Step>, r: Run)
    requires IsRun(START, steps) && AtStage(After(START, steps), r, Finished)
    ensures exists i :: ReportAt(After(START, steps), i, r)
  {
    RunKeepsInv(START, steps);
    var s := After(START, steps);
    assert Closed(s, r);
  }

  // ----- After a stop -----------------------------------------------------

  ghost predicate AcceptsNone(s: State, steps: seq<Step>)
    requires IsRun(s, steps)
    decreases |steps|
  {
    steps == [] || ((steps[0].Start? ==> Answered(s, steps[0]) != Accepted) && AcceptsNone(Do(s, steps[0]), steps[1..]))
  }

  lemma {:induction false} StaysDown(s: State, steps: seq<Step>)
    requires IsRun(s, steps) && AcceptsNone(s, steps) && (s.proxy.stopping || s.proxy.thread.None?)
    ensures !IsRunning(After(s, steps).proxy, Done(After(s, steps)))
    decreases |steps|
  {
    if steps != [] {
      hide Done, AtStage;
      var t := Do(s, steps[0]);
      assert t.proxy.stopping || t.proxy.thread.None?;
      hide Do;
      StaysDown(t, steps[1..]);
    }
  }

  /** From a stop until the next accepted start, whatever the worker does, the shim says it is not running. */
  lemma StopHolds(s: State, steps: seq<Step>)
    requires IsRun(Do(s, Stop), steps) && AcceptsNone(Do(s, Stop), steps)
    ensures !IsRunning(After(Do(s, Stop), steps).proxy, Done(After(Do(s, Stop), steps)))
  {
    StaysDown(Do(s, Stop), steps);
  }

  /** A start with good arguments is accepted exactly when the last worker has exited... */
  lemma StartableIff(steps: seq<Step>)
    requires IsRun(START, steps)
    ensures var s := After(START, steps);
            Answered(s, Start(true, true)) == Accepted <==> forall r :: 0 <= r < |s.workers| ==> s.workers[r] == Finished
  {
    RunKeepsInv(START, steps);
    hide IsRun, After, CallbackInv;
  }

  /** ... so not yet when it has only reported: a start made from the callback itself can be refused. */
  lemma ReportedYetRefused() returns (steps: seq<Step>)
    ensures IsRun(START, steps)
    ensures var s := After(START, steps);
            s.callbacks == [Listening(0), Stopped(0)] && Answered(s, Start(true, true)) == StillStopping
  {
    var s1 := Do(START, Start(true, true));
    var s2 := Do(s1, Build(0));
    var s3 := Do(s2, Listen(0));
    var s4 := Do(s3, Stop);
    var s5 := Do(s4, Return(0, true));
    var s6 := Do(s5, Report(0));
    assert s6.workers == [Reported] && s6.proxy == Proxy(None, Some(0), true);
    hide Do, Enabled, IsRun, After;
    RunOne(s5, Report(0));
    RunCons(s4, Return(0, true), [Report(0)]);
    RunCons(s3, Stop, [Return(0, true)] + [Report(0)]);
    RunCons(s2, Listen(0), [Stop] + ([Return(0, true)] + [Report(0)]));
    RunCons(s1, Build(0), [Listen(0)] + ([Stop] + ([Return(0, true)] + [Report(0)])));
    steps := [Build(0)] + ([Listen(0)] + ([Stop] + ([Return(0, true)] + [Report(0)])));
    RunCons(START, Start(true, true), steps);
    steps := [Start(true, true)] + steps;
  }

  lemma RunOne(s: State, step: Step)
    requires Enabled(s, step)
    ensures IsRun(s, [step]) && After(s, [step]) == Do(s, step)
  {
    assert [step][1..] == [];
  }

  lemma RunCons(s: State, step: Step, steps: seq<Step>)
    requires Enabled(s, step) && IsRun(Do(s, step), steps)
    ensures IsRun(s, [step] + steps) && After(s, [step] + steps) == After(Do(s, step), steps)
  {
    assert ([step] + steps)[1..] == steps;
  }

  // ----- The object carries out the machine -------------------------------

  /** Every run of the machine is carried out by one object: its starts and stops do all that happens behind the lock. */
  method CarryOut(steps: seq<Step>) returns (shim: ProxyState, t: State)
    requires IsRun(START, steps)
    ensures fresh(shim) && t == After(START, steps) && shim.View() == t.proxy
  {
    shim := new ProxyState();
    t := START;
    var i := 0;
    assert steps[0..] == steps;
    while i < |steps|
      invariant i <= |steps| && fresh(shim) && shim.View() == t.proxy
      invariant IsRun(t, steps[i..]) && After(t, steps[i..]) == After(START, steps)
    {
      assert steps[i..][1..] == steps[i + 1..];
      t := Perform(shim, t, steps[i]);
      i := i + 1;
    }
  }

  method Perform(shim: ProxyState, s: State, step: Step) returns (t: State)
    requires shim.View() == s.proxy && Enabled(s, step)
    modifies shim
    ensures t == Do(s, step) && shim.View() == t.proxy
  {
    match step {
      case Start(argsOk, spawnOk) =>
        var a := shim.StartProxy(Done(s), argsOk, spawnOk, |s.workers|);
        t := s.(proxy := Proxy(shim.shutdown, shim.thread, shim.stopping),
                workers := if a == Accepted then s.workers + [Building] else s.workers);
      case Stop =>
        var told := shim.StopProxy();
        t := s.(proxy := Proxy(shim.shutdown, shim.thread, shim.stopping),
                told := if told.Some? then s.told + {told.value} else s.told);
      case _ => t := Do(s, step);
    }
  }
}
