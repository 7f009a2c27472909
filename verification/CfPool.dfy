/**
  The pool of spare Cloudflare connections, under every interleaving of gets,
  prefetches and refill tasks (src/pool.rs, `cf_target` in src/proxy.rs).
 */
module CfPool {
  import opened Bytes
  import opened CfDial
  import Pool

  datatype CfTier = WorkerTier | ProxyTier

  datatype Key = Key(tier: CfTier, dc: nat, media: bool)

  /** What a refill re-opens. */
  datatype Target = Target(key: Key, domain: string, dst: string)

  datatype Entry = Entry(conn: nat, created: nat, target: Target)

  type Buckets = map<Key, seq<Entry>>

  const CF_POOL_MAX := 1

  datatype Config = Config(poolSize: nat, maxAge: nat, balance: bool, workers: seq<string>, cfDomains: seq<string>)

  function CfBudget(c: Config): nat { Min(CF_POOL_MAX, c.poolSize) }

  function Idle(idle: Buckets, key: Key): seq<Entry> { if key in idle then idle[key] else [] }

  predicate Usable(e: Entry, now: nat, maxAge: nat, dead: set<nat>) {
    Pool.Usable(Pool.Entry(e.conn, e.created), now, maxAge, dead)
  }

  function Take(bucket: seq<Entry>, now: nat, maxAge: nat, dead: set<nat>): (Option<Entry>, seq<Entry>) {
    Pool.TakeLast(bucket, (e: Entry) => Usable(e, now, maxAge, dead))
  }

  /** What is left is older, a hit was there and usable, and a miss means that nothing was. */
  lemma TakeMeaning(bucket: seq<Entry>, now: nat, maxAge: nat, dead: set<nat>)
    ensures var (hit, rest) := Take(bucket, now, maxAge, dead);
            && rest <= bucket
            && (hit.Some? ==> rest + [hit.value] <= bucket && Usable(hit.value, now, maxAge, dead))
            && (hit.None? <==> forall e :: e in bucket ==> !Usable(e, now, maxAge, dead))
  {
    var usable := (e: Entry) => Usable(e, now, maxAge, dead);
    assert forall e :: usable(e) == Usable(e, now, maxAge, dead);
    Pool.TakeLastMeaning(bucket, usable);
    hide Usable, Pool.TakeLast;
    var (hit, rest) := Take(bucket, now, maxAge, dead);
    if hit.Some? {
      assert hit.value in bucket && rest + [hit.value] == bucket[..|rest| + 1];
    }
  }

  class CfStore {
    const config: Config
    var idle: Buckets
    var refilling: set<Key>

    constructor (config: Config)
      ensures this.config == config && idle == map[] && refilling == {}
    {
      this.config := config;
      idle, refilling := map[], {};
    }

    /** The locked part of `cf_get`. */
    method Get(key: Key, now: nat, dead: set<nat>) returns (hit: Option<Entry>)
      modifies this`idle
      ensures var (e, rest) := Take(Idle(old(idle), key), now, config.maxAge, dead);
              hit == e && idle == if key in old(idle) then old(idle)[key := rest] else old(idle)
    {
      if key !in idle {
        return None;
      }
      var bucket := idle[key];
      while bucket != []
        invariant Take(bucket, now, config.maxAge, dead) == Take(Idle(old(idle), key), now, config.maxAge, dead)
        invariant idle == old(idle)
        decreases |bucket|
      {
        var entry := bucket[|bucket| - 1];
        bucket := bucket[..|bucket| - 1];
        if (now > entry.created && now - entry.created > config.maxAge) || entry.conn in dead {
          continue;
        }
        idle := idle[key := bucket];
        return Some(entry);
      }
      idle := idle[key := []];
      hit := None;
    }

    /**
      A refill stores its connection unless the bucket has been filled meanwhile:
      a bucket within the budget stays within it, and a get made at once yields
      the connection exactly if it was stored.
     */
    method Store(target: Target, conn: nat, now: nat)
      modifies this`idle
      ensures idle == Stored(config, old(idle), target, conn, now)
      ensures |Idle(old(idle), target.key)| <= CfBudget(config) ==> |Idle(idle, target.key)| <= CfBudget(config)
      ensures |Idle(old(idle), target.key)| < CfBudget(config)
              <==> Take(Idle(idle, target.key), now, config.maxAge, {}) == (Some(Entry(conn, now, target)), Idle(old(idle), target.key))
    {
      var bucket := if target.key in idle then idle[target.key] else [];
      if |bucket| < CfBudget(config) {
        TakesStored(bucket, Entry(conn, now, target), config.maxAge);
        bucket := bucket + [Entry(conn, now, target)];
      } else {
        TakesLess(bucket, now, config.maxAge);
      }
      idle := idle[target.key := bucket];
    }

    /** Only the caller that inserts the key may spawn a refill, and nothing is ever spawned without a pool. */
    method Reserve(key: Key) returns (reserved: bool)
      modifies this`refilling
      ensures reserved <==> config.poolSize != 0 && key !in old(refilling)
      ensures refilling == if reserved then old(refilling) + {key} else old(refilling)
    {
      if config.poolSize == 0 || key in refilling {
        return false;
      }
      refilling := refilling + {key};
      reserved := true;
    }

    /** A refill dials only while its bucket has no spare. */
    method Wanted(key: Key) returns (wanted: bool)
      ensures wanted <==> config.poolSize > 0 && Idle(idle, key) == []
    {
      var have := if key in idle then |idle[key]| else 0;
      wanted := have < CfBudget(config);
    }

    method Release(key: Key)
      modifies this`refilling
      ensures key !in refilling && refilling == old(refilling) - {key}
    {
      refilling := refilling - {key};
    }
  }

  lemma TakesStored(bucket: seq<Entry>, e: Entry, maxAge: nat)
    ensures Take(bucket + [e], e.created, maxAge, {}) == (Some(e), bucket)
  {
    assert (bucket + [e])[..|bucket|] == bucket;
  }

  lemma TakesLess(bucket: seq<Entry>, now: nat, maxAge: nat)
    ensures var (hit, rest) := Take(bucket, now, maxAge, {}); hit.Some? ==> rest != bucket
  {
    TakeMeaning(bucket, now, maxAge, {});
    hide Take, Usable;
    var (hit, rest) := Take(bucket, now, maxAge, {});
    if hit.Some? {
      assert |rest + [hit.value]| <= |bucket|;
    }
  }

  function Stored(c: Config, idle: Buckets, target: Target, conn: nat, now: nat): Buckets {
    var bucket := Idle(idle, target.key);
    idle[target.key := if |bucket| < CfBudget(c) then bucket + [Entry(conn, now, target)] else bucket]
  }

  // ----- Where spares come from -------------------------------------------

  /** The record of a DC in one of the configured zones. */
  ghost predicate Tagged(domains: seq<string>, dc: nat, domain: string) {
    exists d :: d in domains && domain == Record(dc, d)
  }

  /** What the routing path may ask the pool to re-open: the domain that answered, or the next in the rotation. */
  ghost predicate Served(c: Config, t: Target) {
    match t.key.tier
    case WorkerTier => t.domain in c.workers
    case ProxyTier => if c.balance then t.domain in c.cfDomains else Tagged(c.cfDomains, t.key.dc, t.domain)
  }

  // ----- The machine ------------------------------------------------------

  datatype Stage = Waiting | Dialing | Holding(conn: nat) | Ending

  datatype Task = Task(target: Target, stage: Stage)

  /** `taken` are the targets of connections handed out, which their takers may prefetch again. */
  datatype State = State(
    clock: nat, nextConn: nat, nextTask: nat, idle: Buckets, refilling: set<Key>, tasks: map<nat, Task>, taken: set<Target>)

  const START := State(0, 0, 0, map[], {}, map[], {})

  datatype Step =
    | Tick(d: nat)
    | Get(key: Key, now: nat, dead: set<nat>)
    | Prefetch(target: Target)
    | Look(j: nat)
    | Dialed(j: nat, ok: bool)
    | Store(j: nat)
    | Finish(j: nat)

  predicate AtStage(s: State, j: nat, stage: Stage) { j in s.tasks && s.tasks[j].stage == stage }

  ghost predicate Enabled(c: Config, s: State, step: Step) {
    match step
    case Tick(_) => true
    case Get(_, now, _) => now <= s.clock
    case Prefetch(t) => (t in s.taken || Served(c, t)) && c.poolSize != 0 && t.key !in s.refilling
    case Look(j) => AtStage(s, j, Waiting)
    case Dialed(j, _) => AtStage(s, j, Dialing)
    case Store(j) => j in s.tasks && s.tasks[j].stage.Holding?
    case Finish(j) => AtStage(s, j, Ending)
  }

  function SetStage(s: State, j: nat, stage: Stage): State
    requires j in s.tasks
  {
    s.(tasks := s.tasks[j := s.tasks[j].(stage := stage)])
  }

  ghost function Do(c: Config, s: State, step: Step): State
    requires Enabled(c, s, step)
  {
    match step
    case Tick(d) => s.(clock := s.clock + d)
    case Get(key, now, dead) =>
      if key !in s.idle then s
      else
        var (hit, rest) := Take(s.idle[key], now, c.maxAge, dead);
        s.(idle := s.idle[key := rest], taken := if hit.Some? then s.taken + {hit.value.target} else s.taken)
    case Prefetch(t) =>
      s.(refilling := s.refilling + {t.key}, nextTask := s.nextTask + 1, tasks := s.tasks[s.nextTask := Task(t, Waiting)])
    case Look(j) =>
      SetStage(s, j, if |Idle(s.idle, s.tasks[j].target.key)| >= CfBudget(c) then Ending else Dialing)
    case Dialed(j, ok) =>
      SetStage(s, j, if ok then Holding(s.nextConn) else Ending).(nextConn := s.nextConn + 1)
    case Store(j) =>
      SetStage(s, j, Ending).(idle := Stored(c, s.idle, s.tasks[j].target, s.tasks[j].stage.conn, s.clock))
    case Finish(j) =>
      s.(tasks := s.tasks - {j}, refilling := s.refilling - {s.tasks[j].target.key})
  }

  ghost predicate IsRun(c: Config, s: State, steps: seq<Step>)
    decreases |steps|
  {
    steps == [] || (Enabled(c, s, steps[0]) && IsRun(c, Do(c, s, steps[0]), steps[1..]))
  }

  ghost function After(c: Config, s: State, steps: seq<Step>): State
    requires IsRun(c, s, steps)
    decreases |steps|
  {
    if steps == [] then s else After(c, Do(c, s, steps[0]), steps[1..])
  }

  // ----- What every run keeps ---------------------------------------------

  ghost predicate CapInv(c: Config, s: State) { forall k :: k in s.idle ==> |s.idle[k]| <= CfBudget(c) }

  /** One refill per key, and a key is reserved exactly while its refill lives. */
  ghost predicate TaskInv(s: State) {
    && (forall j :: j in s.tasks ==> j < s.nextTask && s.tasks[j].target.key in s.refilling)
    && (forall i, j :: i in s.tasks && j in s.tasks && s.tasks[i].target.key == s.tasks[j].target.key ==> i == j)
    && (forall k :: k in s.refilling ==> exists j :: Refills(s, j, k))
  }

  ghost predicate Refills(s: State, j: nat, k: Key) { j in s.tasks && s.tasks[j].target.key == k }

  /** Every target in the system was once served by the routing path, and sits in its own bucket. */
  ghost predicate ServedInv(c: Config, s: State) {
    && (c.poolSize == 0 ==> s.tasks == map[] && s.idle == map[])
    && (forall t :: t in s.taken ==> Served(c, t))
    && (forall j :: j in s.tasks ==> Served(c, s.tasks[j].target))
    && (forall k, i :: k in s.idle && 0 <= i < |s.idle[k]| ==> s.idle[k][i].target.key == k && Served(c, s.idle[k][i].target))
  }

  ghost predicate Inv(c: Config, s: State) { CapInv(c, s) && TaskInv(s) && ServedInv(c, s) }

  lemma GetKeeps(c: Config, s: State, key: Key, now: nat, dead: set<nat>)
    requires Inv(c, s) && now <= s.clock
    ensures Inv(c, Do(c, s, Get(key, now, dead)))
  {
    if key in s.idle {
      TakeMeaning(s.idle[key], now, c.maxAge, dead);
      SameTasksKept(s, Do(c, s, Get(key, now, dead)));
      hide Served, Usable, Take, TaskInv;
      var (hit, rest) := Take(s.idle[key], now, c.maxAge, dead);
      if hit.Some? {
        assert (rest + [hit.value])[|rest|] == s.idle[key][|rest|];
      }
    }
  }

  lemma StepKeeps(c: Config, s: State, step: Step)
    requires Inv(c, s) && Enabled(c, s, step) && !step.Get?
    ensures CapInv(c, Do(c, s, step)) && ServedInv(c, Do(c, s, step))
  {
    hide Served, Take, TaskInv;
  }

  /** The same tasks for the same targets; only their stages may differ. */
  ghost predicate SameTasks(s: State, t: State) {
    && t.tasks.Keys == s.tasks.Keys && t.nextTask == s.nextTask && t.refilling == s.refilling
    && forall j :: j in s.tasks ==> t.tasks[j].target == s.tasks[j].target
  }

  lemma StageStep(c: Config, s: State, step: Step)
    requires Enabled(c, s, step) && !step.Get? && !step.Prefetch? && !step.Finish?
    ensures SameTasks(s, Do(c, s, step))
  {
    hide Served, Take, Idle, Stored;
  }

  lemma SameTasksKept(s: State, t: State)
    requires TaskInv(s) && SameTasks(s, t)
    ensures TaskInv(t)
  {
    forall k | k in t.refilling ensures exists j :: Refills(t, j, k) {
      var j :| Refills(s, j, k);
      assert Refills(t, j, k);
    }
  }

  lemma Spawned(c: Config, s: State, target: Target)
    requires TaskInv(s) && Enabled(c, s, Prefetch(target))
    ensures TaskInv(Do(c, s, Prefetch(target)))
  {
    hide Served;
    var t := Do(c, s, Prefetch(target));
    forall k | k in t.refilling ensures exists j :: Refills(t, j, k) {
      if target.key == k {
        assert Refills(t, s.nextTask, k);
      } else {
        var j :| Refills(s, j, k);
        assert Refills(t, j, k);
      }
    }
  }

  lemma Finished(c: Config, s: State, i: nat)
    requires TaskInv(s) && Enabled(c, s, Finish(i))
    ensures TaskInv(Do(c, s, Finish(i)))
  {
    hide Served;
    var t := Do(c, s, Finish(i));
    forall k | k in t.refilling ensures exists j :: Refills(t, j, k) {
      var j :| Refills(s, j, k);
      assert Refills(t, j, k);
    }
  }

  lemma TasksKept(c: Config, s: State, step: Step)
    requires TaskInv(s) && Enabled(c, s, step) && !step.Get?
    ensures TaskInv(Do(c, s, step))
  {
    hide Do, Enabled, TaskInv;
    if step.Prefetch? {
      Spawned(c, s, step.target);
    } else if step.Finish? {
      Finished(c, s, step.j);
    } else {
      StageStep(c, s, step);
      SameTasksKept(s, Do(c, s, step));
    }
  }

  lemma {:induction false} RunKeepsInv(c: Config, s: State, steps: seq<Step>)
    requires IsRun(c, s, steps) && Inv(c, s)
    ensures Inv(c, After(c, s, steps))
    decreases |steps|
  {
    if steps != [] {
      if steps[0].Get? {
        GetKeeps(c, s, steps[0].key, steps[0].now, steps[0].dead);
      } else {
        StepKeeps(c, s, steps[0]);
        TasksKept(c, s, steps[0]);
      }
      hide CapInv, TaskInv, ServedInv, Do, Enabled;
      RunKeepsInv(c, Do(c, s, steps[0]), steps[1..]);
    }
  }

  /** Over every run: at most one spare per key (none with an empty pool), and at most one refill of it. */
  lemma CfPoolSafety(c: Config, steps: seq<Step>, k: Key)
    requires IsRun(c, START, steps)
    ensures var s := After(c, START, steps);
            && |Idle(s.idle, k)| <= Min(1, c.poolSize)
            && |set j | j in s.tasks && s.tasks[j].target.key == k| == if k in s.refilling then 1 else 0
  {
    RunKeepsInv(c, START, steps);
    var s := After(c, START, steps);
    hide IsRun, After, ServedInv;
    var mine := set j | j in s.tasks && s.tasks[j].target.key == k;
    if k in s.refilling {
      var j :| Refills(s, j, k);
      assert mine == {j};
    } else {
      assert mine == {};
    }
  }

  /** Every spare of the proxy tier came from the record of its DC in a configured zone. */
  ghost predicate AllTagged(c: Config, s: State) {
    forall k, i :: k in s.idle && 0 <= i < |s.idle[k]| && k.tier.ProxyTier? ==> Tagged(c.cfDomains, k.dc, s.idle[k][i].target.domain)
  }

  /** The balancer rotates over no zone at all, or is off, or nothing is pooled. */
  predicate TagsSafe(c: Config) { !c.balance || c.cfDomains == [] || c.poolSize == 0 }

  lemma TagsHold(c: Config, steps: seq<Step>)
    requires TagsSafe(c) && IsRun(c, START, steps)
    ensures AllTagged(c, After(c, START, steps))
  {
    RunKeepsInv(c, START, steps);
    var s := After(c, START, steps);
    hide IsRun, After, TaskInv, CapInv;
    forall k, i | k in s.idle && 0 <= i < |s.idle[k]| && k.tier.ProxyTier?
      ensures Tagged(c.cfDomains, k.dc, s.idle[k][i].target.domain)
    {
      assert Served(c, s.idle[k][i].target);
    }
  }

  /** The shortest configured zone is no record of another one. */
  lemma {:induction false} SomeBare(domains: seq<string>, dc: nat) returns (d: string)
    requires domains != []
    ensures d in domains && !Tagged(domains, dc, d)
    ensures forall x :: x in domains ==> |d| <= |x|
  {
    if |domains| == 1 {
      d := domains[0];
    } else {
      var r := SomeBare(domains[1..], dc);
      d := if |domains[0]| < |r| then domains[0] else r;
      assert forall x :: x in domains ==> x == domains[0] || x in domains[1..];
    }
    assert forall x :: |Record(dc, x)| > |x|;
  }

  /** With balancing on, any other setup has a run that stores a bare zone, so the condition is exact. */
  lemma TagsFail(c: Config, dc: nat, media: bool) returns (steps: seq<Step>)
    requires !TagsSafe(c)
    ensures IsRun(c, START, steps) && !AllTagged(c, After(c, START, steps))
  {
    var d := SomeBare(c.cfDomains, dc);
    var k := Key(ProxyTier, dc, media);
    var t := Target(k, d, "");
    var s1 := Do(c, START, Prefetch(t));
    var s2 := Do(c, s1, Look(0));
    var s3 := Do(c, s2, Dialed(0, true));
    var s4 := Do(c, s3, Store(0));
    assert s4.idle[k] == [] + [Entry(0, 0, t)];
    hide Tagged;
    assert s4.idle[k][0].target.domain == d;
    assert !AllTagged(c, s4);
    hide Do, Enabled, IsRun, After, AllTagged;
    RunOne(c, s3, Store(0));
    RunCons(c, s2, Dialed(0, true), [Store(0)]);
    RunCons(c, s1, Look(0), [Dialed(0, true)] + [Store(0)]);
    RunCons(c, START, Prefetch(t), [Look(0)] + ([Dialed(0, true)] + [Store(0)]));
    steps := [Prefetch(t)] + ([Look(0)] + ([Dialed(0, true)] + [Store(0)]));
  }

  lemma RunOne(c: Config, s: State, step: Step)
    requires Enabled(c, s, step)
    ensures IsRun(c, s, [step]) && After(c, s, [step]) == Do(c, s, step)
  {
    assert [step][1..] == [];
  }

  lemma RunCons(c: Config, s: State, step: Step, steps: seq<Step>)
    requires Enabled(c, s, step) && IsRun(c, Do(c, s, step), steps)
    ensures IsRun(c, s, [step] + steps) && After(c, s, [step] + steps) == After(c, Do(c, s, step), steps)
  {
    assert ([step] + steps)[1..] == steps;
  }
}
