/**
  What a refill does for its bucket, and that the pool object carries out every
  run of the pool machine (src/pool.rs, src/server.rs).
 */
module PoolWork {
  import opened Bytes
  import opened Pool
  import opened PoolRun

  // ----- One look, one batch, one push ------------------------------------

  /** A refill gives up exactly if its bucket is full, and otherwise sets out to open what is missing; warm-up opens a full pool. */
  lemma LookDecides(c: Config, s: State, j: nat)
    requires Enabled(c, s, Look(j))
    ensures var job, have, stage := s.jobs[j], |Idle(s.idle, s.jobs[j].key)|, Do(c, s, Look(j)).jobs[j].stage;
            && (!job.warm ==> (stage == Ending <==> have >= c.poolSize))
            && (!job.warm && have < c.poolSize ==>
                  stage.Filling? && stage.count + have == c.poolSize && stage.dialing == {} && stage.held == [])
            && (job.warm ==> stage == Filling(c.poolSize, {}, []))
  {
  }

  /** A failed dial ends the batch with the connections opened before it. */
  lemma FailKeepsHeld(c: Config, s: State, j: nat, conn: Conn)
    requires Enabled(c, s, DialFail(j, conn))
    ensures var t := Do(c, s, DialFail(j, conn));
            t == s.(jobs := s.jobs[j := Job(s.jobs[j].key, s.jobs[j].warm, Pushing(s.jobs[j].stage.held))])
  {
  }

  /** `after` is `before` with the first `n` of `conns` on top, in order, each with its own time. */
  ghost predicate AddsOnTop(before: seq<Entry>, after: seq<Entry>, conns: seq<Conn>, times: seq<nat>, n: int) {
    && 0 <= n <= |conns| <= |times| && |after| == |before| + n && before <= after
    && forall i :: 0 <= i < n ==> after[|before| + i].conn == conns[i] && after[|before| + i].created == times[i]
  }

  lemma StampedOnTop(before: seq<Entry>, conns: seq<Conn>, times: seq<nat>, n: nat)
    requires n <= |conns| <= |times|
    ensures AddsOnTop(before, before + Stamped(conns[..n], times), conns, times, n)
  {
  }

  /** How many connections of a batch are stored: all by warm-up, by a refill as many as there is room for. */
  function StoredCount(c: Config, warm: bool, have: nat, n: nat): nat {
    if warm || have + n <= c.poolSize then n else if have >= c.poolSize then 0 else c.poolSize - have
  }

  lemma BatchStored(c: Config, s: State, job: Job, times: seq<nat>)
    requires job.stage.Pushing? && |times| == |job.stage.held|
    ensures var before, held := Idle(s.idle, job.key), job.stage.held;
            Idle(PushTo(c, s, job, times), job.key) == before + Stamped(held[..StoredCount(c, job.warm, |before|, |held|)], times)
    ensures forall k :: k != job.key ==> Idle(PushTo(c, s, job, times), k) == Idle(s.idle, k)
  {
    var before, held := Idle(s.idle, job.key), job.stage.held;
    hide Stamped;
    assert held[..|held|] == held;
    if !job.warm && held == [] {
      assert before + Stamped(held[..0], times) == before;
    }
  }

  /** A refill stores what still fits, warm-up everything; no other bucket changes. */
  lemma PushStores(c: Config, s: State, j: nat, times: seq<nat>)
    requires Enabled(c, s, Push(j, times))
    ensures var job, t := s.jobs[j], Do(c, s, Push(j, times));
            var before, after, held := Idle(s.idle, job.key), Idle(t.idle, job.key), job.stage.held;
            && t.jobs[j].stage == Ending
            && AddsOnTop(before, after, held, times,
                         if job.warm || |before| + |held| <= c.poolSize then |held|
                         else if |before| >= c.poolSize then 0 else c.poolSize - |before|)
            && forall k :: k != job.key ==> Idle(t.idle, k) == Idle(s.idle, k)
  {
    var job := s.jobs[j];
    var before, held := Idle(s.idle, job.key), job.stage.held;
    BatchStored(c, s, job, times);
    StampedOnTop(before, held, times, StoredCount(c, job.warm, |before|, |held|));
    hide Idle, Stamped, PushTo, AddsOnTop, TakeFresh;
  }

  // ----- Whose connections they are ---------------------------------------

  /** The connections whose dials for job `j` succeeded, in order. */
  function Opened(steps: seq<Step>, j: nat): seq<Conn> {
    if steps == [] then []
    else (if steps[0].DialOk? && steps[0].j == j then [steps[0].c] else []) + Opened(steps[1..], j)
  }

  ghost predicate Agrees(stage: Stage, conns: seq<Conn>) {
    match stage
    case Filling(_, _, held) => held == conns
    case Pushing(held) => held == conns
    case _ => conns == []
  }

  ghost predicate JobAgrees(s: State, j: nat, conns: seq<Conn>) {
    j < s.nextJob && (j in s.jobs ==> Agrees(s.jobs[j].stage, conns))
  }

  predicate About(step: Step, j: nat) { StageStep(step) && step.j == j }

  lemma OwnStageAgrees(c: Config, s: State, step: Step, j: nat, conns: seq<Conn>)
    requires Enabled(c, s, step) && About(step, j) && JobAgrees(s, j, conns)
    ensures JobAgrees(Do(c, s, step), j, conns + Opened([step], j))
  {
    hide Idle, TakeFresh, Stamped, PushTo;
    assert [step][1..] == [] && Opened([], j) == [];
    assert Opened([step], j) == if step.DialOk? then [step.c] else [];
    if !step.DialOk? {
      assert conns + [] == conns;
    }
  }

  lemma OtherJobKept(c: Config, s: State, step: Step, j: nat)
    requires Enabled(c, s, step) && !About(step, j) && !(step.Push? && step.j == j) && j < s.nextJob
    ensures var t := Do(c, s, step); j < t.nextJob && (j in t.jobs ==> j in s.jobs && t.jobs[j] == s.jobs[j])
    ensures j in s.jobs && !(step.Finish? && step.j == j) ==> j in Do(c, s, step).jobs
  {
    hide Idle, TakeFresh, Stamped, PushTo;
    if StageStep(step) {
      StageEffect(c, s, step);
      StageKeepsNumber(c, s, step);
      hide Do, Enabled;
    }
  }

  lemma StageKeepsNumber(c: Config, s: State, step: Step)
    requires Enabled(c, s, step) && StageStep(step)
    ensures Do(c, s, step).nextJob == s.nextJob
  {
    hide Idle, TakeFresh, Stamped, PushTo;
  }

  lemma {:induction false} RunAgrees(c: Config, s: State, steps: seq<Step>, j: nat, conns: seq<Conn>)
    requires IsRun(c, s, steps) && JobAgrees(s, j, conns)
    requires forall i :: 0 <= i < |steps| ==> !(steps[i].Push? && steps[i].j == j)
    ensures JobAgrees(After(c, s, steps), j, conns + Opened(steps, j))
    decreases |steps|
  {
    if steps == [] {
      assert conns + [] == conns;
    } else {
      var step, rest := steps[0], steps[1..];
      assert [step][1..] == [] && Opened([], j) == [];
      var first := Opened([step], j);
      assert Opened(steps, j) == first + Opened(rest, j);
      assert !(step.Push? && step.j == j);
      if About(step, j) {
        OwnStageAgrees(c, s, step, j, conns);
      } else {
        OtherJobKept(c, s, step, j);
        assert first == [] && conns + [] == conns;
      }
      hide Do, Enabled, Agrees;
      RunAgrees(c, Do(c, s, step), rest, j, conns + first);
      Assoc(conns, first, Opened(rest, j));
    }
  }

  /**
    Whatever else happens meanwhile: a job that was waiting in `s` puts into its
    bucket exactly the connections its successful dials opened, in that order and
    as far as they fit, whether its batch was completed or broken off by a failed
    dial.
   */
  lemma StoresWhatItOpened(c: Config, s: State, steps: seq<Step>, j: nat, times: seq<nat>)
    requires IsRun(c, s, steps) && j in s.jobs && j < s.nextJob && s.jobs[j].stage == Waiting
    requires forall i :: 0 <= i < |steps| ==> !(steps[i].Push? && steps[i].j == j)
    requires Enabled(c, After(c, s, steps), Push(j, times))
    ensures var t, conns := After(c, s, steps), Opened(steps, j); var key := t.jobs[j].key;
            var before, after := Idle(t.idle, key), Idle(Do(c, t, Push(j, times)).idle, key);
            AddsOnTop(before, after, conns, times,
                      if t.jobs[j].warm || |before| + |conns| <= c.poolSize then |conns|
                      else if |before| >= c.poolSize then 0 else c.poolSize - |before|)
  {
    hide Do, IsRun, After, Idle, AddsOnTop, Opened;
    var t := After(c, s, steps);
    RunAgrees(c, s, steps, j, []);
    assert [] + Opened(steps, j) == Opened(steps, j);
    assert t.jobs[j].stage.held == Opened(steps, j);
    PushStores(c, t, j, times);
  }

  // ----- A refill refills -------------------------------------------------

  /** Nothing but job `j` touches the bucket, and none of its dials fails. */
  predicate Undisturbed(s: State, step: Step, j: nat, key: Key) {
    && !(step.DialFail? && step.j == j)
    && !(step.ClientGet? && step.key == key)
    && !(step.Push? && step.j != j && step.j in s.jobs && s.jobs[step.j].key == key)
  }

  ghost predicate UndisturbedRun(c: Config, s: State, steps: seq<Step>, j: nat, key: Key)
    requires IsRun(c, s, steps)
    decreases |steps|
  {
    steps == [] || (Undisturbed(s, steps[0], j, key) && UndisturbedRun(c, Do(c, s, steps[0]), steps[1..], j, key))
  }

  /** How far a refill has come that found `bucket` below the pool size. */
  ghost predicate OnItsWay(c: Config, s: State, j: nat, key: Key, bucket: seq<Entry>) {
    && j < s.nextJob && |bucket| < c.poolSize
    && if j !in s.jobs || s.jobs[j].stage.Ending? then |Idle(s.idle, key)| == c.poolSize && bucket <= Idle(s.idle, key)
       else
         && s.jobs[j].key == key && !s.jobs[j].warm && Idle(s.idle, key) == bucket
         && (s.jobs[j].stage.Filling? ==> s.jobs[j].stage.count + |bucket| == c.poolSize)
         && (s.jobs[j].stage.Pushing? ==> |s.jobs[j].stage.held| + |bucket| == c.poolSize)
  }

  lemma OwnStage(c: Config, s: State, step: Step, j: nat, key: Key, bucket: seq<Entry>)
    requires Enabled(c, s, step) && About(step, j) && !step.DialFail? && OnItsWay(c, s, j, key, bucket)
    ensures OnItsWay(c, Do(c, s, step), j, key, bucket)
  {
    StageEffect(c, s, step);
    StageKeepsNumber(c, s, step);
    hide TakeFresh, Stamped, PushTo;
    if step.Look? {
      LookDecides(c, s, j);
      hide Do, Idle;
    }
  }

  lemma OwnPush(c: Config, s: State, times: seq<nat>, j: nat, key: Key, bucket: seq<Entry>)
    requires Enabled(c, s, Push(j, times)) && OnItsWay(c, s, j, key, bucket)
    ensures OnItsWay(c, Do(c, s, Push(j, times)), j, key, bucket)
  {
    PushStores(c, s, j, times);
    assert Do(c, s, Push(j, times)).nextJob == s.nextJob;
    hide Idle, Do, TakeFresh, Stamped, PushTo;
  }

  lemma BucketKept(c: Config, s: State, step: Step, j: nat, key: Key)
    requires Enabled(c, s, step) && Undisturbed(s, step, j, key) && !(step.Push? && step.j == j)
    ensures Idle(Do(c, s, step).idle, key) == Idle(s.idle, key)
  {
    if step.Push? {
      PushStores(c, s, step.j, step.times);
    } else if !step.ClientGet? {
      OtherStepsKeepIdle(c, s, step);
      hide Do;
    }
  }

  lemma OnItsWayStep(c: Config, s: State, step: Step, j: nat, key: Key, bucket: seq<Entry>)
    requires Enabled(c, s, step) && Undisturbed(s, step, j, key) && OnItsWay(c, s, j, key, bucket)
    ensures OnItsWay(c, Do(c, s, step), j, key, bucket)
  {
    if About(step, j) {
      OwnStage(c, s, step, j, key, bucket);
    } else if step.Push? && step.j == j {
      OwnPush(c, s, step.times, j, key, bucket);
    } else {
      BucketKept(c, s, step, j, key);
      OtherJobKept(c, s, step, j);
      assert step.Finish? && step.j == j ==> s.jobs[j].stage.Ending?;
      hide Do, Enabled, Idle;
    }
  }

  lemma {:induction false} RunOnItsWay(c: Config, s: State, steps: seq<Step>, j: nat, key: Key, bucket: seq<Entry>)
    requires IsRun(c, s, steps) && UndisturbedRun(c, s, steps, j, key) && OnItsWay(c, s, j, key, bucket)
    ensures OnItsWay(c, After(c, s, steps), j, key, bucket)
    decreases |steps|
  {
    if steps != [] {
      OnItsWayStep(c, s, steps[0], j, key, bucket);
      hide Do, Enabled, OnItsWay, Undisturbed;
      RunOnItsWay(c, Do(c, s, steps[0]), steps[1..], j, key, bucket);
    }
  }

  /** A refill that waits for its first look at a bucket below the pool size. */
  ghost predicate WaitingRefill(c: Config, s: State, j: nat) {
    j in s.jobs && j < s.nextJob && !s.jobs[j].warm && s.jobs[j].stage == Waiting && |Idle(s.idle, s.jobs[j].key)| < c.poolSize
  }

  /**
    In every run in which its dials succeed and nothing else touches the bucket,
    whatever happens elsewhere: when a refill is through, the bucket holds
    exactly the pool size, the old connections first.
   */
  lemma RefillRefills(c: Config, s: State, steps: seq<Step>, j: nat)
    requires IsRun(c, s, steps) && WaitingRefill(c, s, j) && UndisturbedRun(c, s, steps, j, s.jobs[j].key)
    ensures var key, t := s.jobs[j].key, After(c, s, steps);
            j !in t.jobs || t.jobs[j].stage == Ending ==>
              |Idle(t.idle, key)| == c.poolSize && Idle(s.idle, key) <= Idle(t.idle, key)
  {
    RunOnItsWay(c, s, steps, j, s.jobs[j].key, Idle(s.idle, s.jobs[j].key));
  }

  /** And from every such state there is such a run, to the end of the refill. */
  lemma RefillCanFinish(c: Config, s: State, j: nat) returns (steps: seq<Step>)
    requires WaitingRefill(c, s, j)
    ensures IsRun(c, s, steps) && j !in After(c, s, steps).jobs
    ensures var key, t := s.jobs[j].key, After(c, s, steps);
            |Idle(t.idle, key)| == c.poolSize && Idle(s.idle, key) <= Idle(t.idle, key)
  {
    var key, looked := s.jobs[j].key, Do(c, s, Look(j));
    LookDecides(c, s, j);
    StageEffect(c, s, Look(j));
    RunOne(c, s, Look(j));
    hide Do, Enabled, IsRun, After, Idle;
    var batch, held, n := FillBatch(c, looked, j);
    RunAppend(c, s, [Look(j)], batch);
    var full := After(c, s, [Look(j)] + batch);
    var times := Repeat(full.clock, |held|);
    assert Enabled(c, full, Push(j, times)) by { ReadyToPush(c, full, j, times); }
    PushStores(c, full, j, times);
    RunPush(c, s, [Look(j)] + batch, Push(j, times));
    var pushed := Do(c, full, Push(j, times));
    FinishIt(c, pushed, j);
    RunPush(c, s, [Look(j)] + batch + [Push(j, times)], Finish(j));
    steps := [Look(j)] + batch + [Push(j, times)] + [Finish(j)];
  }

  lemma ReadyToPush(c: Config, s: State, j: nat, times: seq<nat>)
    requires j in s.jobs && s.jobs[j].stage.Pushing? && times == Repeat(s.clock, |s.jobs[j].stage.held|)
    ensures Enabled(c, s, Push(j, times))
  {
  }

  lemma FinishIt(c: Config, s: State, j: nat)
    requires j in s.jobs && s.jobs[j].stage == Ending
    ensures Enabled(c, s, Finish(j)) && j !in Do(c, s, Finish(j)).jobs && Do(c, s, Finish(j)).idle == s.idle
  {
  }

  /** Every reachable waiting job has a number that is not handed out again. */
  lemma Reachable(c: Config, steps: seq<Step>, j: nat)
    requires IsRun(c, START, steps) && j in After(c, START, steps).jobs
    ensures j < After(c, START, steps).nextJob
  {
    StartInv(c);
    RunKeepsInv(c, START, steps);
    hide IsRun, After;
  }

  // ----- The pool object carries out the machine --------------------------

  /** The pool object is in the state of the machine. */
  ghost predicate Holds(pool: WsPool, c: Config, s: State)
    reads pool
  {
    pool.poolSize == c.poolSize && pool.maxAge == c.maxAge && pool.idle == s.idle && pool.refilling == s.refilling
  }

  predicate UsesPool(step: Step) { step.ClientGet? || step.Schedule? || step.Look? || step.Push? || step.Finish? }

  /** A client takes a connection. */
  method PerformGet(pool: WsPool, c: Config, s: State, step: Step) returns (t: State)
    requires Holds(pool, c, s) && Enabled(c, s, step) && step.ClientGet?
    modifies pool
    ensures t == Do(c, s, step) && Holds(pool, c, t)
  {
    hide TakeFresh;
    var hit := pool.Take(step.key, step.now, step.dead);
    t := s.(idle := pool.idle, clients := s.clients[step.cid := hit]);
  }

  /** A refill is reserved and spawned; the machine's guard is the pool's own answer. */
  method PerformSchedule(pool: WsPool, c: Config, s: State, key: Key) returns (t: State)
    requires Holds(pool, c, s) && key in c.keys
    modifies pool
    ensures Holds(pool, c, t)
    ensures t == if Enabled(c, s, Schedule(key)) then Do(c, s, Schedule(key)) else s
  {
    var reserved := pool.ReserveRefill(key);
    t := s;
    if reserved {
      t := s.(refilling := pool.refilling, nextJob := s.nextJob + 1, jobs := s.jobs[s.nextJob := Job(key, false, Waiting)]);
    }
  }

  /** A job looks at its bucket: a refill opens what the pool says is needed, or gives up. */
  method PerformLook(pool: WsPool, c: Config, s: State, j: nat) returns (t: State)
    requires Holds(pool, c, s) && Enabled(c, s, Look(j))
    ensures t == Do(c, s, Look(j)) && Holds(pool, c, t)
  {
    var job := s.jobs[j];
    if job.warm {
      return SetStage(s, j, Filling(c.poolSize, {}, []));
    }
    var needed := pool.Needed(job.key);
    t := SetStage(s, j, if needed == 0 then Ending else Filling(needed, {}, []));
  }

  method PerformPush(pool: WsPool, c: Config, s: State, j: nat, times: seq<nat>) returns (t: State)
    requires Holds(pool, c, s) && Enabled(c, s, Push(j, times))
    modifies pool
    ensures t == Do(c, s, Push(j, times)) && Holds(pool, c, t)
  {
    hide Stamped, Room, Idle;
    var job := s.jobs[j];
    if job.warm {
      pool.PushWarmed(job.key, job.stage.held, times);
    } else {
      pool.PushRefilled(job.key, job.stage.held, times);
    }
    t := SetStage(s, j, Ending).(clock := Latest(s.clock, times), idle := pool.idle,
                                 warmed := if job.warm then s.warmed + {job.key} else s.warmed);
  }

  /** A refill releases its reservation. */
  method PerformFinish(pool: WsPool, c: Config, s: State, j: nat) returns (t: State)
    requires Holds(pool, c, s) && Enabled(c, s, Finish(j))
    modifies pool
    ensures t == Do(c, s, Finish(j)) && Holds(pool, c, t)
  {
    if !s.jobs[j].warm {
      pool.ReleaseRefill(s.jobs[j].key);
    }
    t := s.(jobs := s.jobs - {j}, refilling := pool.refilling);
  }

  lemma PoolUnused(c: Config, s: State, step: Step)
    requires Enabled(c, s, step) && !UsesPool(step)
    ensures Do(c, s, step).idle == s.idle && Do(c, s, step).refilling == s.refilling
  {
    hide Idle, TakeFresh, Stamped, PushTo;
  }

  /** One step, with everything that is done to the pool done by its own operations. */
  method Perform(pool: WsPool, c: Config, s: State, step: Step) returns (t: State)
    requires Holds(pool, c, s) && Enabled(c, s, step)
    modifies pool
    ensures t == Do(c, s, step) && Holds(pool, c, t)
  {
    match step {
      case ClientGet(_, _, _, _) => t := PerformGet(pool, c, s, step);
      case Schedule(key) => t := PerformSchedule(pool, c, s, key);
      case Look(j) => t := PerformLook(pool, c, s, j);
      case Push(j, times) => t := PerformPush(pool, c, s, j, times);
      case Finish(j) => t := PerformFinish(pool, c, s, j);
      case _ =>
        PoolUnused(c, s, step);
        t := Do(c, s, step);
    }
  }

  /** Every run of the machine is carried out by one pool, step by step. */
  method CarryOut(c: Config, steps: seq<Step>) returns (pool: WsPool, t: State)
    requires IsRun(c, START, steps)
    ensures fresh(pool) && t == After(c, START, steps) && Holds(pool, c, t)
  {
    hide Do, Enabled;
    pool := new WsPool(c.poolSize, c.maxAge);
    t := START;
    var i := 0;
    assert steps[0..] == steps;
    while i < |steps|
      invariant i <= |steps| && fresh(pool) && Holds(pool, c, t)
      invariant IsRun(c, t, steps[i..]) && After(c, t, steps[i..]) == After(c, START, steps)
    {
      assert steps[i..][1..] == steps[i + 1..];
      t := Perform(pool, c, t, steps[i]);
      i := i + 1;
    }
  }

  // ----- Limits that are reached ------------------------------------------

  /** No batch ever dials more than two connections at a time. */
  ghost predicate TwoAtATime(s: State) { forall j :: j in s.jobs && s.jobs[j].stage.Filling? ==> |s.jobs[j].stage.dialing| <= 2 }

  lemma OwnDialing(c: Config, s: State, step: Step)
    requires Enabled(c, s, step) && StageStep(step)
    requires s.jobs[step.j].stage.Filling? ==> |s.jobs[step.j].stage.dialing| <= 2
    ensures var t := Do(c, s, step); t.jobs[step.j].stage.Filling? ==> |t.jobs[step.j].stage.dialing| <= 2
  {
    hide Idle, TakeFresh, Stamped, PushTo;
    if step.StartDial? {
      var d := s.jobs[step.j].stage.dialing;
      assert |d + {s.nextConn}| <= |d| + 1;
    } else if step.DialOk? {
      var d := s.jobs[step.j].stage.dialing;
      assert d == (d - {step.c}) + {step.c};
    }
  }

  lemma OtherDialing(c: Config, s: State, step: Step, j: nat)
    requires Enabled(c, s, step) && !StageStep(step) && j in Do(c, s, step).jobs && Do(c, s, step).jobs[j].stage.Filling?
    ensures j in s.jobs && s.jobs[j] == Do(c, s, step).jobs[j]
  {
    hide Idle, TakeFresh, Stamped, PushTo;
  }

  lemma TwoAtATimeStep(c: Config, s: State, step: Step)
    requires TwoAtATime(s) && Enabled(c, s, step)
    ensures TwoAtATime(Do(c, s, step))
  {
    hide Do, Enabled;
    var t := Do(c, s, step);
    if StageStep(step) {
      StageEffect(c, s, step);
      OwnDialing(c, s, step);
    } else {
      forall j | j in t.jobs && t.jobs[j].stage.Filling? ensures |t.jobs[j].stage.dialing| <= 2 {
        OtherDialing(c, s, step, j);
      }
    }
  }

  lemma {:induction false} RunTwoAtATime(c: Config, s: State, steps: seq<Step>)
    requires IsRun(c, s, steps) && TwoAtATime(s)
    ensures TwoAtATime(After(c, s, steps))
    decreases |steps|
  {
    if steps != [] {
      TwoAtATimeStep(c, s, steps[0]);
      hide Do, Enabled, TwoAtATime;
      RunTwoAtATime(c, Do(c, s, steps[0]), steps[1..]);
    }
  }

  /** `n` clients are connected, and no permit is outstanding. */
  ghost predicate Serving(s: State, n: nat) {
    !s.permitHeld && |s.clients| == n && forall cid :: cid in s.clients <==> 0 <= cid < n
  }

  lemma OneClient(c: Config, s: State, n: nat)
    requires Serving(s, n) && n < c.maxConnections
    ensures Enabled(c, s, AcquirePermit) && Enabled(c, Do(c, s, AcquirePermit), Accepted(n))
    ensures Serving(Do(c, Do(c, s, AcquirePermit), Accepted(n)), n + 1)
  {
    var more := s.clients[n := None];
    assert more.Keys == s.clients.Keys + {n} && |more.Keys| == |more| && |s.clients.Keys| == |s.clients|;
  }

  /** The accept loop really lets in as many clients as the cap allows. */
  lemma {:induction false} CapIsReached(c: Config, n: nat) returns (steps: seq<Step>)
    requires n <= c.maxConnections
    ensures IsRun(c, START, steps) && Serving(After(c, START, steps), n)
    decreases n
  {
    if n == 0 {
      steps := [];
    } else {
      hide Do, Enabled, IsRun, After, Serving, START;
      var before := CapIsReached(c, n - 1);
      OneClient(c, After(c, START, before), n - 1);
      RunPush(c, START, before, AcquirePermit);
      RunPush(c, START, before + [AcquirePermit], Accepted(n - 1));
      steps := before + [AcquirePermit] + [Accepted(n - 1)];
    }
  }
}
