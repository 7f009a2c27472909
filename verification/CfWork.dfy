/**
  What a prefetch does for its bucket, and that the store carries out every run
  of the spare-connection machine (src/pool.rs).
 */
module CfWork {
  import opened Bytes
  import opened CfPool

  /** A prefetch dials exactly if there is a pool and no spare yet. */
  lemma CfLookDecides(c: Config, s: State, j: nat)
    requires Enabled(c, s, Look(j))
    ensures Do(c, s, Look(j)).tasks[j].stage == if c.poolSize > 0 && Idle(s.idle, s.tasks[j].target.key) == [] then Dialing else Ending
  {
    hide Served;
  }

  /** Nothing but task `j` touches the bucket, and its dial does not fail. */
  predicate Undisturbed(s: State, step: Step, j: nat, key: Key) {
    && step != Dialed(j, false)
    && !(step.Get? && step.key == key)
    && !(step.Store? && step.j != j && step.j in s.tasks && s.tasks[step.j].target.key == key)
  }

  ghost predicate UndisturbedRun(c: Config, s: State, steps: seq<Step>, j: nat, key: Key)
    requires IsRun(c, s, steps)
    decreases |steps|
  {
    steps == [] || (Undisturbed(s, steps[0], j, key) && UndisturbedRun(c, Do(c, s, steps[0]), steps[1..], j, key))
  }

  /** How far a prefetch has come that found no spare. */
  ghost predicate OnItsWay(c: Config, s: State, j: nat, target: Target) {
    && c.poolSize > 0 && j < s.nextTask
    && var bucket := Idle(s.idle, target.key);
       if j !in s.tasks || s.tasks[j].stage.Ending? then |bucket| == 1 && bucket[0].target == target
       else s.tasks[j].target == target && bucket == []
  }

  lemma OwnStep(c: Config, s: State, step: Step, j: nat, target: Target)
    requires Enabled(c, s, step) && Undisturbed(s, step, j, target.key) && OnItsWay(c, s, j, target)
    requires (step.Look? || step.Dialed? || step.Store?) && step.j == j
    ensures OnItsWay(c, Do(c, s, step), j, target)
  {
    hide Served, Take;
    if step.Look? {
      CfLookDecides(c, s, j);
    }
  }

  lemma OtherStep(c: Config, s: State, step: Step, j: nat, target: Target)
    requires Enabled(c, s, step) && Undisturbed(s, step, j, target.key) && OnItsWay(c, s, j, target)
    requires !((step.Look? || step.Dialed? || step.Store?) && step.j == j)
    ensures OnItsWay(c, Do(c, s, step), j, target)
  {
    hide Served, Take;
  }

  lemma {:induction false} RunOnItsWay(c: Config, s: State, steps: seq<Step>, j: nat, target: Target)
    requires IsRun(c, s, steps) && UndisturbedRun(c, s, steps, j, target.key) && OnItsWay(c, s, j, target)
    ensures OnItsWay(c, After(c, s, steps), j, target)
    decreases |steps|
  {
    if steps != [] {
      var step := steps[0];
      if (step.Look? || step.Dialed? || step.Store?) && step.j == j {
        OwnStep(c, s, step, j, target);
      } else {
        OtherStep(c, s, step, j, target);
      }
      hide Do, Enabled, OnItsWay, Undisturbed;
      RunOnItsWay(c, Do(c, s, step), steps[1..], j, target);
    }
  }

  /**
    In every run in which its dial succeeds and nothing else touches the bucket:
    when a prefetch is through, the bucket holds one spare, for the target that
    was asked for.
   */
  lemma PrefetchLeavesSpare(c: Config, s: State, steps: seq<Step>, j: nat)
    requires IsRun(c, s, steps) && j in s.tasks && j < s.nextTask && s.tasks[j].stage == Waiting
    requires c.poolSize > 0 && Idle(s.idle, s.tasks[j].target.key) == [] && UndisturbedRun(c, s, steps, j, s.tasks[j].target.key)
    ensures var t, target := After(c, s, steps), s.tasks[j].target;
            j !in t.tasks || t.tasks[j].stage == Ending ==>
              |Idle(t.idle, target.key)| == 1 && Idle(t.idle, target.key)[0].target == target
  {
    RunOnItsWay(c, s, steps, j, s.tasks[j].target);
  }

  // ----- The store carries out the machine --------------------------------

  ghost predicate Holds(store: CfStore, c: Config, s: State)
    reads store
  {
    store.config == c && store.idle == s.idle && store.refilling == s.refilling
  }

  /** The guard of a prefetch: a target that was served, or one handed out with a spare; the rest is the store's answer. */
  method PerformPrefetch(store: CfStore, c: Config, s: State, target: Target) returns (t: State)
    requires Holds(store, c, s) && (target in s.taken || Served(c, target))
    modifies store
    ensures Holds(store, c, t)
    ensures t == if Enabled(c, s, Prefetch(target)) then Do(c, s, Prefetch(target)) else s
  {
    hide Served;
    var reserved := store.Reserve(target.key);
    t := s;
    if reserved {
      t := s.(refilling := store.refilling, nextTask := s.nextTask + 1, tasks := s.tasks[s.nextTask := Task(target, Waiting)]);
    }
  }

  /** One step, with everything that is done to the spares done by the store's operations. */
  method Perform(store: CfStore, c: Config, s: State, step: Step) returns (t: State)
    requires Holds(store, c, s) && Enabled(c, s, step)
    modifies store
    ensures t == Do(c, s, step) && Holds(store, c, t)
  {
    hide Served, Take, Stored;
    match step {
      case Tick(d) => t := s.(clock := s.clock + d);
      case Get(key, now, dead) =>
        var hit := store.Get(key, now, dead);
        MissingIsEmpty(s.idle, key, now, c.maxAge, dead);
        t := s.(idle := store.idle, taken := if hit.Some? then s.taken + {hit.value.target} else s.taken);
      case Prefetch(target) => t := PerformPrefetch(store, c, s, target);
      case Look(j) =>
        var wanted := store.Wanted(s.tasks[j].target.key);
        CfLookDecides(c, s, j);
        t := SetStage(s, j, if wanted then Dialing else Ending);
      case Dialed(j, ok) => t := SetStage(s, j, if ok then Holding(s.nextConn) else Ending).(nextConn := s.nextConn + 1);
      case Store(j) =>
        store.Store(s.tasks[j].target, s.tasks[j].stage.conn, s.clock);
        t := SetStage(s, j, Ending).(idle := store.idle);
      case Finish(j) =>
        store.Release(s.tasks[j].target.key);
        t := s.(tasks := s.tasks - {j}, refilling := store.refilling);
    }
  }

  lemma MissingIsEmpty(idle: Buckets, key: Key, now: nat, maxAge: nat, dead: set<nat>)
    ensures key !in idle ==> Take(Idle(idle, key), now, maxAge, dead) == (None, [])
  {
  }

  /** Every run of the machine is carried out by one store, step by step. */
  method CarryOut(c: Config, steps: seq<Step>) returns (store: CfStore, t: State)
    requires IsRun(c, START, steps)
    ensures fresh(store) && t == After(c, START, steps) && Holds(store, c, t)
  {
    hide Do, Enabled;
    store := new CfStore(c);
    t := START;
    var i := 0;
    assert steps[0..] == steps;
    while i < |steps|
      invariant i <= |steps| && fresh(store) && Holds(store, c, t)
      invariant IsRun(c, t, steps[i..]) && After(c, t, steps[i..]) == After(c, START, steps)
    {
      assert steps[i..][1..] == steps[i + 1..];
      t := Perform(store, c, t, steps[i]);
      i := i + 1;
    }
  }
}
