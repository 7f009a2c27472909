/**
  Every interleaving of the accept loop, its clients, pool refills and the one
  warm-up (src/server.rs, src/pool.rs).  Each lock region, dial and task ending
  is one atomic step; which step comes next is arbitrary.
 */
module PoolRun {
  import opened Bytes
  import opened Limits
  import opened Pool

  /** `keys` are the buckets of the configured DCs. */
  datatype Config = Config(poolSize: nat, maxAge: nat, keys: set<Key>, maxConnections: nat)

  /** Dials of one batch that run at the same time. */
  const POOL_CONNECT_CONCURRENCY := 2

  /** A task that opens connections: not yet looked at the pool, connecting, about to store them, or done. */
  datatype Stage =
    | Waiting
    | Filling(count: nat, dialing: set<Conn>, held: seq<Conn>)
    | Pushing(held: seq<Conn>)
    | Ending

  /** A refill of one bucket, or the warm-up's share of it. */
  datatype Job = Job(key: Key, warm: bool, stage: Stage)

  datatype State = State(
    clock: nat, nextConn: Conn, nextJob: nat,
    idle: Buckets, refilling: set<Key>, jobs: map<nat, Job>,
    warmStarted: set<Key>, warmed: set<Key>,
    clients: map<nat, Option<Conn>>, permitHeld: bool)

  const START := State(0, 0, 0, map[], {}, map[], {}, {}, map[], false)

  datatype Step =
    | Tick(d: nat)
    | AcquirePermit
    | Accepted(cid: nat)
    | AcceptFailed
    | ClientGet(cid: nat, key: Key, now: nat, dead: set<Conn>)
    | ClientDial(cid: nat)
    | ClientDrop(cid: nat)
    | ClientEnd(cid: nat)
    | Schedule(key: Key)
    | WarmStart(key: Key)
    | Look(j: nat)
    | StartDial(j: nat)
    | DialOk(j: nat, c: Conn)
    | DialFail(j: nat, c: Conn)
    | BatchDone(j: nat)
    | Push(j: nat, times: seq<nat>)
    | Finish(j: nat)

  predicate IsFilling(s: State, j: nat) { j in s.jobs && s.jobs[j].stage.Filling? }

  predicate Enabled(c: Config, s: State, step: Step) {
    match step
    case Tick(_) => true
    case AcquirePermit => !s.permitHeld && |s.clients| < c.maxConnections
    case Accepted(cid) => s.permitHeld && cid !in s.clients
    case AcceptFailed => s.permitHeld
    case ClientGet(cid, key, now, _) => cid in s.clients && s.clients[cid].None? && key in c.keys && now <= s.clock
    case ClientDial(cid) => cid in s.clients && s.clients[cid].None?
    case ClientDrop(cid) => cid in s.clients
    case ClientEnd(cid) => cid in s.clients
    case Schedule(key) => key in c.keys && c.poolSize != 0 && key !in s.refilling
    case WarmStart(key) => key in c.keys && key !in s.warmStarted
    case Look(j) => j in s.jobs && s.jobs[j].stage.Waiting?
    case StartDial(j) =>
      IsFilling(s, j) && |s.jobs[j].stage.dialing| < POOL_CONNECT_CONCURRENCY
      && |s.jobs[j].stage.dialing| + |s.jobs[j].stage.held| < s.jobs[j].stage.count
    case DialOk(j, conn) => IsFilling(s, j) && conn in s.jobs[j].stage.dialing
    case DialFail(j, conn) => IsFilling(s, j) && conn in s.jobs[j].stage.dialing
    case BatchDone(j) => IsFilling(s, j) && |s.jobs[j].stage.held| == s.jobs[j].stage.count && s.jobs[j].stage.dialing == {}
    case Push(j, times) => j in s.jobs && s.jobs[j].stage.Pushing? && Ticks(s.clock, |s.jobs[j].stage.held|, times)
    case Finish(j) => j in s.jobs && s.jobs[j].stage.Ending?
  }

  /** `n` clock readings from now on. */
  predicate Ticks(from: nat, n: nat, times: seq<nat>) {
    |times| == n && (forall i :: 0 <= i < n ==> from <= times[i]) && forall i, j :: 0 <= i <= j < n ==> times[i] <= times[j]
  }

  function Latest(from: nat, times: seq<nat>): nat { if times == [] then from else times[|times| - 1] }

  function SetStage(s: State, j: nat, stage: Stage): State
    requires j in s.jobs
  {
    s.(jobs := s.jobs[j := s.jobs[j].(stage := stage)])
  }

  /** What a refill or the warm-up does with a finished batch. */
  function PushTo(c: Config, s: State, job: Job, times: seq<nat>): Buckets
    requires job.stage.Pushing? && |times| == |job.stage.held|
  {
    var bucket, held := Idle(s.idle, job.key), job.stage.held;
    if job.warm then s.idle[job.key := bucket + Stamped(held, times)]
    else if held == [] then s.idle
    else s.idle[job.key := bucket + Stamped(held[..Room(c.poolSize, |bucket|, |held|)], times)]
  }

  function Do(c: Config, s: State, step: Step): State
    requires Enabled(c, s, step)
  {
    match step
    case Tick(d) => s.(clock := s.clock + d)
    case AcquirePermit => s.(permitHeld := true)
    case Accepted(cid) => s.(permitHeld := false, clients := s.clients[cid := None])
    case AcceptFailed => s.(permitHeld := false)
    case ClientGet(cid, key, now, dead) =>
      var (hit, rest) := TakeFresh(Idle(s.idle, key), now, c.maxAge, dead);
      s.(idle := s.idle[key := rest],
         clients := s.clients[cid := if hit.Some? then Some(hit.value.conn) else None])
    case ClientDial(cid) => s.(nextConn := s.nextConn + 1, clients := s.clients[cid := Some(s.nextConn)])
    case ClientDrop(cid) => s.(clients := s.clients[cid := None])
    case ClientEnd(cid) => s.(clients := s.clients - {cid})
    case Schedule(key) =>
      s.(refilling := s.refilling + {key}, nextJob := s.nextJob + 1, jobs := s.jobs[s.nextJob := Job(key, false, Waiting)])
    case WarmStart(key) =>
      s.(warmStarted := s.warmStarted + {key}, nextJob := s.nextJob + 1, jobs := s.jobs[s.nextJob := Job(key, true, Waiting)])
    case Look(j) =>
      var job := s.jobs[j];
      var have := |Idle(s.idle, job.key)|;
      if job.warm then SetStage(s, j, Filling(c.poolSize, {}, []))
      else if have >= c.poolSize then SetStage(s, j, Ending)
      else SetStage(s, j, Filling(c.poolSize - have, {}, []))
    case StartDial(j) =>
      var st := s.jobs[j].stage;
      SetStage(s, j, st.(dialing := st.dialing + {s.nextConn})).(nextConn := s.nextConn + 1)
    case DialOk(j, conn) =>
      var st := s.jobs[j].stage;
      SetStage(s, j, st.(dialing := st.dialing - {conn}, held := st.held + [conn]))
    case DialFail(j, conn) => SetStage(s, j, Pushing(s.jobs[j].stage.held))
    case BatchDone(j) => SetStage(s, j, Pushing(s.jobs[j].stage.held))
    case Push(j, times) =>
      var job := s.jobs[j];
      SetStage(s, j, Ending).(clock := Latest(s.clock, times), idle := PushTo(c, s, job, times), warmed := if job.warm then s.warmed + {job.key} else s.warmed)
    case Finish(j) =>
      s.(jobs := s.jobs - {j},
         refilling := if s.jobs[j].warm then s.refilling else s.refilling - {s.jobs[j].key})
  }

  /** The states a run goes through, if every step of it is enabled. */
  ghost predicate IsRun(c: Config, s: State, steps: seq<Step>)
    decreases |steps|
  {
    steps == [] || (Enabled(c, s, steps[0]) && IsRun(c, Do(c, s, steps[0]), steps[1..]))
  }

  ghost function After(c: Config, s: State, steps: seq<Step>): State
    requires IsRun(c, s, steps)
    decreases |steps|
  {
    if steps == [] then s else After(c, Do(c, s, steps[0]), steps[1..])
  }

  // ----- Tasks and reservations -------------------------------------------

  /** Known buckets, numbered jobs, one refill and one warm-up job per bucket at most. */
  ghost predicate JobsInv(c: Config, s: State) {
    && s.idle.Keys <= c.keys
    && (forall j :: j in s.jobs ==> j < s.nextJob && s.jobs[j].key in c.keys)
    && (forall i, j :: i in s.jobs && j in s.jobs && s.jobs[i].key == s.jobs[j].key && s.jobs[i].warm == s.jobs[j].warm ==> i == j)
    && (forall j :: j in s.jobs ==> if s.jobs[j].warm then s.jobs[j].key in s.warmStarted else s.jobs[j].key in s.refilling)
  }

  /** Same tasks for the same buckets; only their stages may differ. */
  ghost predicate SameJobs(s: State, t: State) {
    && t.jobs.Keys == s.jobs.Keys && t.nextJob == s.nextJob
    && t.refilling == s.refilling && t.warmStarted == s.warmStarted
    && forall j :: j in s.jobs ==> t.jobs[j].key == s.jobs[j].key && t.jobs[j].warm == s.jobs[j].warm
  }

  predicate SpawnsOrEnds(step: Step) { step.Schedule? || step.WarmStart? || step.Finish? }

  lemma OtherStepsKeepJobs(c: Config, s: State, step: Step)
    requires Enabled(c, s, step) && !SpawnsOrEnds(step)
    ensures SameJobs(s, Do(c, s, step))
  {
    hide TakeFresh, Stamped, Idle, Room;
  }

  lemma BucketsKnown(c: Config, s: State, step: Step)
    requires JobsInv(c, s) && Enabled(c, s, step)
    ensures Do(c, s, step).idle.Keys <= c.keys
  {
    hide TakeFresh, Stamped, Idle, Room;
  }

  /** A new job, and the reservation it holds. */
  ghost predicate Spawns(s: State, t: State, job: Job) {
    && t.idle == s.idle && t.jobs == s.jobs[s.nextJob := job] && t.nextJob == s.nextJob + 1
    && t.refilling == (if job.warm then s.refilling else s.refilling + {job.key})
    && t.warmStarted == (if job.warm then s.warmStarted + {job.key} else s.warmStarted)
    && job.key !in (if job.warm then s.warmStarted else s.refilling)
  }

  function SpawnedBy(step: Step): Job
    requires step.Schedule? || step.WarmStart?
  {
    Job(step.key, step.WarmStart?, Waiting)
  }

  lemma SpawnStep(c: Config, s: State, step: Step)
    requires Enabled(c, s, step) && (step.Schedule? || step.WarmStart?)
    ensures Spawns(s, Do(c, s, step), SpawnedBy(step)) && step.key in c.keys
  {
  }

  lemma JobSpawned(c: Config, s: State, t: State, job: Job)
    requires JobsInv(c, s) && job.key in c.keys && Spawns(s, t, job)
    ensures JobsInv(c, t)
  {
  }

  lemma JobEnded(c: Config, s: State, j: nat)
    requires JobsInv(c, s) && Enabled(c, s, Finish(j))
    ensures JobsInv(c, Do(c, s, Finish(j)))
  {
    var t := Do(c, s, Finish(j));
    assert t.jobs == s.jobs - {j};
    hide Do, Enabled;
  }

  lemma JobsKept(c: Config, s: State, t: State)
    requires JobsInv(c, s) && SameJobs(s, t) && t.idle.Keys <= c.keys
    ensures JobsInv(c, t)
  {
  }

  lemma JobsStep(c: Config, s: State, step: Step)
    requires JobsInv(c, s) && Enabled(c, s, step)
    ensures JobsInv(c, Do(c, s, step))
  {
    hide Do, Enabled, JobsInv, SameJobs;
    if step.Schedule? || step.WarmStart? {
      SpawnStep(c, s, step);
      JobSpawned(c, s, Do(c, s, step), SpawnedBy(step));
    } else if step.Finish? {
      JobEnded(c, s, step.j);
    } else {
      BucketsKnown(c, s, step);
      OtherStepsKeepJobs(c, s, step);
      JobsKept(c, s, Do(c, s, step));
    }
  }

  /** No reservation leaks: a reserved bucket has a refill that will release it. */
  ghost predicate Releases(s: State, k: Key, j: nat) { j in s.jobs && !s.jobs[j].warm && s.jobs[j].key == k }

  ghost predicate ReservedInv(s: State) {
    forall k :: k in s.refilling ==> exists j :: Releases(s, k, j)
  }

  lemma StillReleases(c: Config, s: State, step: Step, k: Key, j: nat)
    requires JobsInv(c, s) && Enabled(c, s, step) && Releases(s, k, j) && k in Do(c, s, step).refilling
    ensures Releases(Do(c, s, step), k, j)
  {
    if !SpawnsOrEnds(step) {
      OtherStepsKeepJobs(c, s, step);
      hide Do, Enabled;
    }
  }

  lemma OnlyScheduleReserves(c: Config, s: State, step: Step, k: Key)
    requires Enabled(c, s, step) && k in Do(c, s, step).refilling
    ensures k in s.refilling || (step == Schedule(k) && Releases(Do(c, s, step), k, s.nextJob))
  {
    hide TakeFresh, Stamped, Idle, PushTo;
  }

  lemma ReservedStep(c: Config, s: State, step: Step)
    requires JobsInv(c, s) && ReservedInv(s) && Enabled(c, s, step)
    ensures ReservedInv(Do(c, s, step))
  {
    hide Do, Enabled, JobsInv, Releases;
    var t := Do(c, s, step);
    forall k | k in t.refilling ensures exists j :: Releases(t, k, j) {
      OnlyScheduleReserves(c, s, step, k);
      if k in s.refilling {
        var j :| Releases(s, k, j);
        StillReleases(c, s, step, k, j);
      }
    }
  }

  // ----- The per-bucket budget --------------------------------------------

  /** Connections a job holds or may still open. */
  function Size(job: Job): nat {
    match job.stage
    case Filling(count, _, _) => count
    case Pushing(held) => |held|
    case _ => 0
  }

  /** Idle connections a bucket may reach: warm-up adds a second helping. */
  function Allowance(c: Config, s: State, k: Key): nat { c.poolSize + if k in s.warmed then c.poolSize else 0 }

  /** What one job may hold next to the idle connections of its bucket. */
  predicate JobFits(c: Config, s: State, job: Job) {
    && (job.stage.Filling? ==> |job.stage.dialing| + |job.stage.held| <= job.stage.count)
    && if job.warm then Size(job) <= c.poolSize && (job.key in s.warmed ==> job.stage.Ending?)
       else |Idle(s.idle, job.key)| + Size(job) <= Allowance(c, s, job.key)
  }

  ghost predicate BudgetInv(c: Config, s: State) {
    && (forall k :: |Idle(s.idle, k)| <= Allowance(c, s, k))
    && (forall j :: j in s.jobs ==> JobFits(c, s, s.jobs[j]))
    && s.warmed <= s.warmStarted
  }

  /** Steps after which no bucket is larger and no job but `j` has changed. */
  ghost predicate OnlyJob(s: State, t: State, j: nat) {
    && t.warmed == s.warmed <= t.warmStarted
    && (forall k :: |Idle(t.idle, k)| <= |Idle(s.idle, k)|)
    && (forall i :: i in t.jobs && i != j ==> i in s.jobs && t.jobs[i] == s.jobs[i])
  }

  lemma OnlyJobFits(c: Config, s: State, t: State, j: nat)
    requires BudgetInv(c, s) && OnlyJob(s, t, j) && (j in t.jobs ==> JobFits(c, t, t.jobs[j]))
    ensures BudgetInv(c, t)
  {
    forall k ensures |Idle(t.idle, k)| <= Allowance(c, t, k) {
      assert |Idle(s.idle, k)| <= Allowance(c, s, k);
    }
  }

  lemma TakenShrinks(bucket: seq<Entry>, now: nat, maxAge: nat, dead: set<Conn>)
    ensures |TakeFresh(bucket, now, maxAge, dead).1| <= |bucket|
  {
    TakeFreshMeaning(bucket, now, maxAge, dead);
  }

  /** A pushed batch: a refill only up to the pool size, warm-up without a cap. */
  lemma PushedSize(c: Config, s: State, job: Job, times: seq<nat>)
    requires job.stage.Pushing? && |times| == |job.stage.held|
    ensures var before, after := |Idle(s.idle, job.key)|, |Idle(PushTo(c, s, job, times), job.key)|;
            after <= before + |job.stage.held| && (!job.warm ==> after <= c.poolSize || after == before)
    ensures forall k :: k != job.key ==> Idle(PushTo(c, s, job, times), k) == Idle(s.idle, k)
  {
    hide Stamped;
  }

  /** Job `j` has stored its batch. */
  ghost predicate Pushed(c: Config, s: State, t: State, j: nat) {
    && j in s.jobs && t.jobs == s.jobs[j := s.jobs[j].(stage := Ending)] && t.warmStarted == s.warmStarted
    && t.warmed == if s.jobs[j].warm then s.warmed + {s.jobs[j].key} else s.warmed
  }

  lemma PushedBudget(c: Config, s: State, t: State, j: nat)
    requires JobsInv(c, s) && BudgetInv(c, s) && Pushed(c, s, t, j) && s.jobs[j].stage.Pushing?
    requires var before, after, job := |Idle(s.idle, s.jobs[j].key)|, |Idle(t.idle, s.jobs[j].key)|, s.jobs[j];
             after <= before + |job.stage.held| && (!job.warm ==> after <= c.poolSize || after == before)
    requires forall k :: k != s.jobs[j].key ==> Idle(t.idle, k) == Idle(s.idle, k)
    ensures BudgetInv(c, t)
  {
    hide Idle;
    var job := s.jobs[j];
    var k := job.key;
    assert JobFits(c, s, job) && |Idle(s.idle, k)| <= Allowance(c, s, k);
    assert |Idle(t.idle, k)| <= Allowance(c, t, k);
    forall i | i in t.jobs ensures JobFits(c, t, t.jobs[i]) {
      assert JobFits(c, s, s.jobs[i]);
      if i != j && t.jobs[i].key == k {
        assert t.jobs[i] == s.jobs[i] && t.jobs[i].warm != job.warm;
      }
    }
  }

  lemma BudgetPush(c: Config, s: State, j: nat, times: seq<nat>)
    requires JobsInv(c, s) && BudgetInv(c, s) && Enabled(c, s, Push(j, times))
    ensures BudgetInv(c, Do(c, s, Push(j, times)))
  {
    hide JobsInv, BudgetInv, Idle;
    PushedSize(c, s, s.jobs[j], times);
    hide PushTo, Ticks, Latest;
    PushedBudget(c, s, Do(c, s, Push(j, times)), j);
  }

  predicate StageStep(step: Step) { step.Look? || step.StartDial? || step.BatchDone? || step.DialOk? || step.DialFail? }

  lemma StageEffect(c: Config, s: State, step: Step)
    requires Enabled(c, s, step) && StageStep(step)
    ensures step.j in s.jobs
    ensures var t := Do(c, s, step);
            && t.idle == s.idle && t.warmed == s.warmed && t.warmStarted == s.warmStarted && t.clock == s.clock
            && step.j in t.jobs && t.jobs == s.jobs[step.j := t.jobs[step.j]]
            && t.jobs[step.j].key == s.jobs[step.j].key && t.jobs[step.j].warm == s.jobs[step.j].warm
  {
    hide Idle, TakeFresh, Stamped, PushTo;
  }

  lemma StageFits(c: Config, s: State, step: Step)
    requires Enabled(c, s, step) && StageStep(step) && step.j in s.jobs && JobFits(c, s, s.jobs[step.j])
    requires !s.jobs[step.j].stage.Ending?
    ensures step.j in Do(c, s, step).jobs && JobFits(c, s, Do(c, s, step).jobs[step.j])
  {
    hide Idle, TakeFresh, Stamped, PushTo;
  }

  lemma BudgetStage(c: Config, s: State, step: Step)
    requires BudgetInv(c, s) && Enabled(c, s, step) && StageStep(step)
    ensures BudgetInv(c, Do(c, s, step))
  {
    StageEffect(c, s, step);
    assert JobFits(c, s, s.jobs[step.j]);
    StageFits(c, s, step);
    var t := Do(c, s, step);
    hide Do, Idle, Enabled;
    OnlyJobFits(c, s, t, step.j);
  }

  lemma BudgetGet(c: Config, s: State, step: Step)
    requires BudgetInv(c, s) && Enabled(c, s, step) && step.ClientGet?
    ensures BudgetInv(c, Do(c, s, step))
  {
    TakenShrinks(Idle(s.idle, step.key), step.now, c.maxAge, step.dead);
    hide TakeFresh;
    OnlyJobFits(c, s, Do(c, s, step), s.nextJob);
  }

  lemma BudgetOther(c: Config, s: State, step: Step)
    requires BudgetInv(c, s) && Enabled(c, s, step) && !step.ClientGet? && !step.Push? && !StageStep(step)
    ensures BudgetInv(c, Do(c, s, step))
  {
    hide Idle, TakeFresh, Stamped, PushTo;
    OnlyJobFits(c, s, Do(c, s, step), s.nextJob);
  }

  lemma BudgetStep(c: Config, s: State, step: Step)
    requires JobsInv(c, s) && BudgetInv(c, s) && Enabled(c, s, step)
    ensures BudgetInv(c, Do(c, s, step))
  {
    hide Do, Enabled, JobsInv, BudgetInv;
    if step.Push? {
      BudgetPush(c, s, step.j, step.times);
    } else if step.ClientGet? {
      BudgetGet(c, s, step);
    } else if StageStep(step) {
      BudgetStage(c, s, step);
    } else {
      BudgetOther(c, s, step);
    }
  }

  // ----- Counting descriptors ---------------------------------------------

  /** Sockets a job has open. */
  function JobFds(job: Job): set<Conn> {
    match job.stage
    case Filling(_, dialing, held) => dialing + set c | c in held
    case Pushing(held) => set c | c in held
    case _ => {}
  }

  function BucketFds(bucket: seq<Entry>): set<Conn> { set e | e in bucket :: e.conn }

  /** All sockets opened on behalf of one bucket. */
  ghost function KeyFds(s: State, k: Key): set<Conn> {
    BucketFds(Idle(s.idle, k)) + set j, c | j in s.jobs && s.jobs[j].key == k && c in JobFds(s.jobs[j]) :: c
  }

  /** All sockets of the direct pool. */
  ghost function PoolFds(s: State): set<Conn> {
    (set k, e | k in s.idle && e in s.idle[k] :: e.conn) + (set j, c | j in s.jobs && c in JobFds(s.jobs[j]) :: c)
  }

  /** The outbound sockets of clients. */
  ghost function Outbound(clients: map<nat, Option<Conn>>): set<Conn> {
    set cid | cid in clients && clients[cid].Some? :: clients[cid].value
  }

  /** Listener, pool, and one or two sockets per client. */
  ghost function OpenFds(s: State): nat { 1 + |PoolFds(s)| + |s.clients| + |Outbound(s.clients)| }

  lemma {:induction false} SetOfSeq<T>(q: seq<T>)
    ensures |set x | x in q| <= |q|
  {
    if q != [] {
      SetOfSeq(q[1..]);
      assert (set x | x in q) == {q[0]} + set x | x in q[1..];
    }
  }

  lemma {:induction false} BucketFdsSize(bucket: seq<Entry>)
    ensures |BucketFds(bucket)| <= |bucket|
  {
    if bucket != [] {
      BucketFdsSize(bucket[1..]);
      assert BucketFds(bucket) == {bucket[0].conn} + BucketFds(bucket[1..]);
    }
  }

  lemma SubsetSize<T>(a: set<T>, b: set<T>)
    requires a <= b
    ensures |a| <= |b|
  {
    assert b == a + (b - a);
  }

  lemma UnionSize<T>(a: set<T>, b: set<T>)
    ensures |a + b| <= |a| + |b|
  {
    assert a + b == a + (b - a);
    SubsetSize(b - a, b);
  }

  lemma JobFdsSize(c: Config, s: State, job: Job)
    requires JobFits(c, s, job)
    ensures |JobFds(job)| <= Size(job)
  {
    match job.stage {
      case Filling(_, dialing, held) =>
        SetOfSeq(held);
        UnionSize(dialing, set c | c in held);
      case Pushing(held) => SetOfSeq(held);
      case _ =>
    }
  }

  /** The sockets of the one refill (or the one warm-up job) of a bucket, if there is one. */
  ghost function KindFds(s: State, k: Key, warm: bool): set<Conn> {
    set j, c | j in s.jobs && s.jobs[j].key == k && s.jobs[j].warm == warm && c in JobFds(s.jobs[j]) :: c
  }

  lemma KindFdsOf(c: Config, s: State, k: Key, warm: bool)
    requires JobsInv(c, s)
    ensures KindFds(s, k, warm) == {}
         || exists j :: j in s.jobs && s.jobs[j].key == k && s.jobs[j].warm == warm && KindFds(s, k, warm) == JobFds(s.jobs[j])
  {
    if x :| x in KindFds(s, k, warm) {
      var j :| j in s.jobs && s.jobs[j].key == k && s.jobs[j].warm == warm && x in JobFds(s.jobs[j]);
      assert KindFds(s, k, warm) == JobFds(s.jobs[j]);
    }
  }

  /** Idle, refilling and warming together: at most twice the pool size per bucket. */
  lemma KeyFdsBound(c: Config, s: State, k: Key)
    requires JobsInv(c, s) && BudgetInv(c, s)
    ensures |KeyFds(s, k)| <= 2 * c.poolSize
  {
    var idle, refill, warm := BucketFds(Idle(s.idle, k)), KindFds(s, k, false), KindFds(s, k, true);
    BucketFdsSize(Idle(s.idle, k));
    assert |Idle(s.idle, k)| <= Allowance(c, s, k);
    assert |idle| + |refill| <= Allowance(c, s, k) by {
      KindFdsOf(c, s, k, false);
      if refill != {} {
        var j :| j in s.jobs && s.jobs[j].key == k && !s.jobs[j].warm && refill == JobFds(s.jobs[j]);
        assert JobFits(c, s, s.jobs[j]);
        JobFdsSize(c, s, s.jobs[j]);
      }
    }
    assert |warm| <= c.poolSize && (k in s.warmed ==> warm == {}) by {
      KindFdsOf(c, s, k, true);
      if warm != {} {
        var j :| j in s.jobs && s.jobs[j].key == k && s.jobs[j].warm && warm == JobFds(s.jobs[j]);
        assert JobFits(c, s, s.jobs[j]);
        JobFdsSize(c, s, s.jobs[j]);
      }
    }
    assert KeyFds(s, k) == idle + refill + warm;
    UnionSize(idle + refill, warm);
    UnionSize(idle, refill);
  }

  lemma {:induction false} FibreBound(s: State, keys: set<Key>, all: set<Conn>, m: nat)
    requires forall c :: c in all ==> exists k :: k in keys && c in KeyFds(s, k)
    requires forall k :: k in keys ==> |KeyFds(s, k)| <= m
    ensures |all| <= m * |keys|
    decreases |keys|
  {
    hide KeyFds;
    if keys == {} {
      assert all == {};
    } else {
      var k :| k in keys;
      var rest := all - KeyFds(s, k);
      FibreBound(s, keys - {k}, rest, m);
      SubsetSize(all, rest + KeyFds(s, k));
      UnionSize(rest, KeyFds(s, k));
      assert |keys| == |keys - {k}| + 1;
      assert m * |keys| == m * |keys - {k}| + m;
    }
  }

  lemma PoolFdsCovered(c: Config, s: State, x: Conn)
    requires JobsInv(c, s) && x in PoolFds(s)
    ensures exists k :: k in c.keys && x in KeyFds(s, k)
  {
    hide JobFds;
    if k, e :| k in s.idle && e in s.idle[k] && e.conn == x {
      assert x in KeyFds(s, k);
    } else {
      var j :| j in s.jobs && x in JobFds(s.jobs[j]);
      assert x in KeyFds(s, s.jobs[j].key);
    }
  }

  lemma PoolFdsBound(c: Config, s: State)
    requires JobsInv(c, s) && BudgetInv(c, s)
    ensures |PoolFds(s)| <= FDS_PER_POOL_SLOT * c.poolSize * |c.keys|
  {
    hide PoolFds, KeyFds, JobsInv, BudgetInv;
    forall k | k in c.keys ensures |KeyFds(s, k)| <= FDS_PER_POOL_SLOT * c.poolSize {
      KeyFdsBound(c, s, k);
    }
    forall x | x in PoolFds(s) ensures exists k :: k in c.keys && x in KeyFds(s, k) {
      PoolFdsCovered(c, s, x);
    }
    FibreBound(s, c.keys, PoolFds(s), FDS_PER_POOL_SLOT * c.poolSize);
  }

  lemma {:induction false} OutboundBound(clients: map<nat, Option<Conn>>)
    ensures |Outbound(clients)| <= |clients|
    decreases |clients|
  {
    if clients.Keys == {} {
      assert Outbound(clients) == {};
    } else {
      var cid :| cid in clients;
      var fewer := clients - {cid};
      assert fewer.Keys == clients.Keys - {cid};
      OutboundBound(fewer);
      var one := if clients[cid].Some? then {clients[cid].value} else {};
      forall x | x in Outbound(clients) ensures x in Outbound(fewer) + one {
        var i :| i in clients && clients[i].Some? && clients[i].value == x;
        if i != cid {
          assert i in fewer && fewer[i] == clients[i];
        }
      }
      SubsetSize(Outbound(clients), Outbound(fewer) + one);
      UnionSize(Outbound(fewer), one);
    }
  }

  // ----- Permits ----------------------------------------------------------

  /** The accept loop's own permit included, never more than the semaphore gave out. */
  ghost predicate PermitInv(c: Config, s: State) {
    |s.clients| + (if s.permitHeld then 1 else 0) <= c.maxConnections
  }

  predicate TouchesClients(step: Step) {
    step.Accepted? || step.ClientGet? || step.ClientDial? || step.ClientDrop? || step.ClientEnd?
  }

  lemma OtherStepsKeepClients(c: Config, s: State, step: Step)
    requires Enabled(c, s, step) && !TouchesClients(step)
    ensures Do(c, s, step).clients == s.clients
    ensures Do(c, s, step).permitHeld ==> s.permitHeld || step.AcquirePermit?
  {
    hide TakeFresh, Idle, Stamped;
  }

  lemma PermitStep(c: Config, s: State, step: Step)
    requires PermitInv(c, s) && Enabled(c, s, step)
    ensures PermitInv(c, Do(c, s, step))
  {
    hide TakeFresh, Idle, Stamped;
    if !TouchesClients(step) {
      OtherStepsKeepClients(c, s, step);
    } else {
      var t, cid := Do(c, s, step), step.cid;
      if step.ClientEnd? {
        assert t.clients.Keys == s.clients.Keys - {cid};
        SubsetSize(t.clients.Keys, s.clients.Keys);
      } else {
        assert t.clients.Keys == s.clients.Keys + {cid};
      }
    }
  }

  // ----- Whole runs -------------------------------------------------------

  ghost predicate Inv(c: Config, s: State) {
    JobsInv(c, s) && ReservedInv(s) && BudgetInv(c, s) && PermitInv(c, s)
  }

  lemma {:induction false} RunKeepsInv(c: Config, s: State, steps: seq<Step>)
    requires Inv(c, s) && IsRun(c, s, steps)
    ensures Inv(c, After(c, s, steps))
    decreases |steps|
  {
    if steps != [] {
      JobsStep(c, s, steps[0]);
      ReservedStep(c, s, steps[0]);
      BudgetStep(c, s, steps[0]);
      PermitStep(c, s, steps[0]);
      hide Do, Enabled, JobsInv, ReservedInv, BudgetInv, PermitInv;
      RunKeepsInv(c, Do(c, s, steps[0]), steps[1..]);
    }
  }

  lemma InvWithinBudget(c: Config, s: State)
    requires Inv(c, s)
    ensures OpenFds(s) <= Budget(c.poolSize, |c.keys|, c.maxConnections)
  {
    hide PoolFds, Outbound, JobsInv, ReservedInv, BudgetInv;
    PoolFdsBound(c, s);
    OutboundBound(s.clients);
    assert FDS_PER_POOL_SLOT * c.poolSize * |c.keys| == FDS_PER_POOL_SLOT * (c.poolSize * |c.keys|);
  }

  lemma StartInv(c: Config)
    ensures Inv(c, START)
  {
  }

  /**
    Descriptor safety over every run.  Per bucket, idle, refilling and warming
    connections stay within twice the pool size, and all descriptors the formula
    accounts for stay within its budget.
   */
  lemma DescriptorSafety(c: Config, steps: seq<Step>)
    requires IsRun(c, START, steps)
    ensures var s := After(c, START, steps);
            && (forall k :: |KeyFds(s, k)| <= 2 * c.poolSize)
            && OpenFds(s) <= 1 + 2 * (c.poolSize * |c.keys|) + 2 * c.maxConnections
  {
    StartInv(c);
    hide JobsInv, ReservedInv, BudgetInv, PermitInv, KeyFds, OpenFds, Do, Enabled, IsRun, After;
    RunKeepsInv(c, START, steps);
    var s := After(c, START, steps);
    forall k ensures |KeyFds(s, k)| <= 2 * c.poolSize {
      KeyFdsBound(c, s, k);
    }
    InvWithinBudget(c, s);
  }

  /**
    With the automatic connection cap and a finite limit that has room for the
    floor of four, no run ever uses more than the limit less the reserve.
   */
  lemma WithinLimit(c: Config, fdLimit: usize, steps: seq<Step>)
    requires IsRun(c, START, steps)
    requires c.poolSize <= USIZE_MAX && |c.keys| <= USIZE_MAX && fdLimit != USIZE_MAX
    requires c.maxConnections == AutoMaxConnections(fdLimit, c.poolSize, |c.keys|)
    requires 1 + 2 * (c.poolSize * |c.keys|) + 2 * 4 + 32 <= fdLimit
    ensures OpenFds(After(c, START, steps)) + 32 <= fdLimit
  {
    DescriptorSafety(c, steps);
    BudgetIff(fdLimit, c.poolSize, |c.keys|);
  }

  /** At most one refill per bucket is ever in flight, and a reserved bucket always has one. */
  lemma OneRefillPerBucket(c: Config, steps: seq<Step>, k: Key)
    requires IsRun(c, START, steps)
    ensures var s := After(c, START, steps);
            var refills := set j | j in s.jobs && !s.jobs[j].warm && s.jobs[j].key == k;
            |refills| == if k in s.refilling then 1 else 0
  {
    StartInv(c);
    RunKeepsInv(c, START, steps);
    hide Do, Enabled, IsRun, After, BudgetInv, PermitInv;
    var s := After(c, START, steps);
    var refills := set j | j in s.jobs && !s.jobs[j].warm && s.jobs[j].key == k;
    if k in s.refilling {
      var j :| j in s.jobs && !s.jobs[j].warm && s.jobs[j].key == k;
      assert refills == {j};
    } else {
      assert refills == {};
    }
  }

  // ----- The bound is exact -----------------------------------------------

  lemma {:induction false} RunAppend(c: Config, s: State, a: seq<Step>, b: seq<Step>)
    requires IsRun(c, s, a) && IsRun(c, After(c, s, a), b)
    ensures IsRun(c, s, a + b) && After(c, s, a + b) == After(c, After(c, s, a), b)
    decreases |a|
  {
    hide Do, Enabled;
    if a == [] {
      assert a + b == b;
    } else {
      RunAppend(c, Do(c, s, a[0]), a[1..], b);
      assert (a + b)[1..] == a[1..] + b;
    }
  }

  lemma RunOne(c: Config, s: State, step: Step)
    requires Enabled(c, s, step)
    ensures IsRun(c, s, [step]) && After(c, s, [step]) == Do(c, s, step)
  {
    hide Do, Enabled;
    assert [step][1..] == [];
  }

  lemma RunPush(c: Config, s: State, steps: seq<Step>, step: Step)
    requires IsRun(c, s, steps) && Enabled(c, After(c, s, steps), step)
    ensures IsRun(c, s, steps + [step]) && After(c, s, steps + [step]) == Do(c, After(c, s, steps), step)
  {
    RunOne(c, After(c, s, steps), step);
    RunAppend(c, s, steps, [step]);
  }

  /** One more dial of a batch succeeds. */
  lemma FillOne(c: Config, s: State, j: nat)
    requires IsFilling(s, j) && s.jobs[j].stage.dialing == {} && |s.jobs[j].stage.held| < s.jobs[j].stage.count
    ensures Enabled(c, s, StartDial(j)) && Enabled(c, Do(c, s, StartDial(j)), DialOk(j, s.nextConn))
    ensures var st := s.jobs[j].stage;
            Do(c, Do(c, s, StartDial(j)), DialOk(j, s.nextConn))
            == SetStage(s, j, Filling(st.count, {}, st.held + [s.nextConn])).(nextConn := s.nextConn + 1)
  {
    assert {} + {s.nextConn} - {s.nextConn} == {};
  }

  lemma FillLast(c: Config, s: State, j: nat)
    requires IsFilling(s, j) && s.jobs[j].stage.dialing == {} && |s.jobs[j].stage.held| == s.jobs[j].stage.count
    ensures Enabled(c, s, BatchDone(j))
    ensures Do(c, s, BatchDone(j)) == SetStage(s, j, Pushing(s.jobs[j].stage.held)).(nextConn := s.nextConn)
  {
  }

  /** Every dial of a batch succeeds; the batch is then ready to be stored. */
  lemma {:induction false} FillBatch(c: Config, s: State, j: nat) returns (steps: seq<Step>, held: seq<Conn>, n: Conn)
    requires IsFilling(s, j) && s.jobs[j].stage.dialing == {} && |s.jobs[j].stage.held| <= s.jobs[j].stage.count
    ensures IsRun(c, s, steps) && |held| == s.jobs[j].stage.count
    ensures After(c, s, steps) == SetStage(s, j, Pushing(held)).(nextConn := n)
    decreases s.jobs[j].stage.count - |s.jobs[j].stage.held|
  {
    hide Do, Enabled, IsRun, After;
    var st := s.jobs[j].stage;
    if |st.held| == st.count {
      FillLast(c, s, j);
      RunOne(c, s, BatchDone(j));
      return [BatchDone(j)], st.held, s.nextConn;
    }
    FillOne(c, s, j);
    var t := Do(c, Do(c, s, StartDial(j)), DialOk(j, s.nextConn));
    RunOne(c, s, StartDial(j));
    RunPush(c, s, [StartDial(j)], DialOk(j, s.nextConn));
    var more;
    more, held, n := FillBatch(c, t, j);
    RunAppend(c, s, [StartDial(j)] + [DialOk(j, s.nextConn)], more);
    steps := [StartDial(j)] + [DialOk(j, s.nextConn)] + more;
    assert SetStage(t, j, Pushing(held)).(nextConn := n) == SetStage(s, j, Pushing(held)).(nextConn := n);
  }

  /** A job is spawned for an empty bucket and sets out to open a full pool. */
  lemma SpawnAndLook(c: Config, s: State, spawn: Step, k: Key, warm: bool)
    requires Enabled(c, s, spawn) && spawn == (if warm then WarmStart(k) else Schedule(k))
    requires c.poolSize > 0 && Idle(s.idle, k) == []
    ensures var j, spawned := s.nextJob, Do(c, s, spawn);
            && Enabled(c, spawned, Look(j))
            && var t := Do(c, spawned, Look(j));
               && t.jobs == s.jobs[j := Job(k, warm, Filling(c.poolSize, {}, []))]
               && t.nextJob == j + 1 && t.idle == s.idle && t.refilling == s.refilling + (if warm then {} else {k})
  {
    var spawned := Do(c, s, spawn);
    assert spawned.jobs[s.nextJob] == Job(k, warm, Waiting) && spawned.idle == s.idle;
    hide Idle, TakeFresh, Stamped, PushTo;
  }

  /** Open a job for an empty bucket and let all its dials succeed. */
  lemma OpenFull(c: Config, s: State, spawn: Step, k: Key, warm: bool) returns (steps: seq<Step>, held: seq<Conn>)
    requires Enabled(c, s, spawn) && spawn == (if warm then WarmStart(k) else Schedule(k))
    requires c.poolSize > 0 && Idle(s.idle, k) == []
    ensures IsRun(c, s, steps) && |held| == c.poolSize
    ensures var t := After(c, s, steps);
            && t.jobs == s.jobs[s.nextJob := Job(k, warm, Pushing(held))] && t.nextJob == s.nextJob + 1
            && t.idle == s.idle && t.refilling == s.refilling + (if warm then {} else {k})
  {
    hide Do, Enabled, IsRun, After, Idle;
    var j := s.nextJob;
    SpawnAndLook(c, s, spawn, k, warm);
    var looked := Do(c, Do(c, s, spawn), Look(j));
    RunOne(c, s, spawn);
    RunPush(c, s, [spawn], Look(j));
    var more, n;
    more, held, n := FillBatch(c, looked, j);
    RunAppend(c, s, [spawn] + [Look(j)], more);
    steps := [spawn] + [Look(j)] + more;
  }

  /** Warm-up and a refill each hold a full pool for the same empty bucket. */
  lemma BothFull(c: Config, k: Key) returns (steps: seq<Step>, warm: seq<Conn>, refill: seq<Conn>)
    requires c.poolSize > 0 && k in c.keys
    ensures IsRun(c, START, steps) && |warm| == |refill| == c.poolSize
    ensures var t := After(c, START, steps);
            && Idle(t.idle, k) == [] && 0 in t.jobs && 1 in t.jobs
            && t.jobs[0] == Job(k, true, Pushing(warm)) && t.jobs[1] == Job(k, false, Pushing(refill))
  {
    hide IsRun, After, Do;
    var warming, filling;
    warming, warm := OpenFull(c, START, WarmStart(k), k, true);
    var s := After(c, START, warming);
    assert s.refilling == {} && s.nextJob == 1;
    filling, refill := OpenFull(c, s, Schedule(k), k, false);
    RunAppend(c, START, warming, filling);
    steps := warming + filling;
  }

  /**
    For every pool size, the bound of twice that size is reached: warm-up stores
    its connections on top of a refill's without looking.  A cap of one pool
    size per bucket is therefore not a property of the code.
   */
  lemma BoundIsReached(c: Config, k: Key) returns (steps: seq<Step>)
    requires c.poolSize > 0 && k in c.keys
    ensures IsRun(c, START, steps) && |Idle(After(c, START, steps).idle, k)| == 2 * c.poolSize
  {
    hide Do, Enabled, IsRun, After, Idle, START;
    var both, warm, refill := BothFull(c, k);
    var t := After(c, START, both);
    var now := Repeat(t.clock, c.poolSize);
    TwoPushes(c, t, k, warm, refill, now);
    RunPush(c, START, both, Push(1, now));
    RunPush(c, START, both + [Push(1, now)], Push(0, now));
    steps := both + [Push(1, now)] + [Push(0, now)];
  }

  function Repeat(x: nat, n: nat): seq<nat> { seq(n, i => x) }

  lemma TwoPushes(c: Config, s: State, k: Key, warm: seq<Conn>, refill: seq<Conn>, now: seq<nat>)
    requires Idle(s.idle, k) == [] && 0 in s.jobs && 1 in s.jobs && |warm| == |refill| == c.poolSize > 0
    requires s.jobs[0] == Job(k, true, Pushing(warm)) && s.jobs[1] == Job(k, false, Pushing(refill)) && now == Repeat(s.clock, c.poolSize)
    ensures Enabled(c, s, Push(1, now)) && Enabled(c, Do(c, s, Push(1, now)), Push(0, now))
    ensures |Idle(Do(c, Do(c, s, Push(1, now)), Push(0, now)).idle, k)| == 2 * c.poolSize
  {
    var t := Do(c, s, Push(1, now));
    assert t.idle == s.idle[k := [] + Stamped(refill[..c.poolSize], now)];
    assert t.jobs[0] == s.jobs[0] && t.clock == s.clock;
  }

  // ----- Ownership --------------------------------------------------------

  /** Where an open connection can be. */
  datatype Place = InBucket(k: Key, i: nat) | Dialing(j: nat) | HeldBy(j: nat, i: nat) | WithClient(cid: nat)

  ghost predicate At(s: State, c: Conn, p: Place) {
    match p
    case InBucket(k, i) => k in s.idle && i < |s.idle[k]| && s.idle[k][i].conn == c
    case Dialing(j) => j in s.jobs && s.jobs[j].stage.Filling? && c in s.jobs[j].stage.dialing
    case HeldBy(j, i) =>
      j in s.jobs && (s.jobs[j].stage.Filling? || s.jobs[j].stage.Pushing?) && i < |s.jobs[j].stage.held| && s.jobs[j].stage.held[i] == c
    case WithClient(cid) => cid in s.clients && s.clients[cid] == Some(c)
  }

  /** Every connection was opened once and is in one place at most (in none once dropped). */
  ghost predicate OwnInv(s: State) {
    && (forall c: Conn, p :: At(s, c, p) ==> c < s.nextConn)
    && (forall c: Conn, p, q :: At(s, c, p) && At(s, c, q) ==> p == q)
  }

  /** The place a connection came from in one step. */
  function Origin(c: Config, s: State, step: Step, p: Place): Place
    requires Enabled(c, s, step)
  {
    match step
    case ClientGet(cid, key, now, dead) =>
      if p == WithClient(cid) then InBucket(key, |TakeFresh(Idle(s.idle, key), now, c.maxAge, dead).1|) else p
    case DialOk(j, conn) => if p == HeldBy(j, |s.jobs[j].stage.held|) then Dialing(j) else p
    case Push(j, _) =>
      var k := s.jobs[j].key;
      var n := |Idle(s.idle, k)|;
      if p.InBucket? && p.k == k && p.i >= n then HeldBy(j, p.i - n) else p
    case _ => p
  }

  /** The place a new connection starts in. */
  function Birthplace(step: Step): Option<Place> {
    match step
    case ClientDial(cid) => Some(WithClient(cid))
    case StartDial(j) => Some(Dialing(j))
    case _ => None
  }

  lemma TraceableGet(c: Config, s: State, cid: nat, key: Key, now: nat, dead: set<Conn>, x: Conn, p: Place)
    requires Enabled(c, s, ClientGet(cid, key, now, dead)) && At(Do(c, s, ClientGet(cid, key, now, dead)), x, p)
    ensures At(s, x, Origin(c, s, ClientGet(cid, key, now, dead), p))
  {
    var bucket := Idle(s.idle, key);
    TakeFreshMeaning(bucket, now, c.maxAge, dead);
    hide TakeFresh, Usable, Sorted;
    var (hit, rest) := TakeFresh(bucket, now, c.maxAge, dead);
    assert rest <= bucket;
    if hit.Some? {
      assert bucket[|rest|] == (rest + [hit.value])[|rest|] == hit.value;
    }
  }

  /** What is behind the old entries of a bucket was held by the job; all else is as before. */
  lemma PushedEntries(c: Config, s: State, job: Job, times: seq<nat>)
    requires job.stage.Pushing? && |times| == |job.stage.held|
    ensures var n, after := |Idle(s.idle, job.key)|, Idle(PushTo(c, s, job, times), job.key);
            && Idle(s.idle, job.key) <= after
            && forall i :: n <= i < |after| ==> i - n < |job.stage.held| && after[i].conn == job.stage.held[i - n]
    ensures forall k :: k != job.key && k in PushTo(c, s, job, times) ==> k in s.idle && PushTo(c, s, job, times)[k] == s.idle[k]
  {
  }

  lemma TraceablePush(c: Config, s: State, j: nat, times: seq<nat>, x: Conn, p: Place)
    requires Enabled(c, s, Push(j, times)) && At(Do(c, s, Push(j, times)), x, p)
    ensures At(s, x, Origin(c, s, Push(j, times), p))
  {
    var job, t := s.jobs[j], Do(c, s, Push(j, times));
    PushedEntries(c, s, job, times);
    hide PushTo, Stamped, Room, TakeFresh;
    if p.InBucket? && p.k == job.key {
      assert t.idle[p.k] == Idle(PushTo(c, s, job, times), p.k);
    }
  }

  lemma TraceableOther(c: Config, s: State, step: Step, x: Conn, p: Place)
    requires Enabled(c, s, step) && !step.ClientGet? && !step.Push? && At(Do(c, s, step), x, p)
    ensures At(s, x, Origin(c, s, step, p)) || (x == s.nextConn && Birthplace(step) == Some(p))
  {
    hide Idle, TakeFresh, PushTo, Stamped, Room;
  }

  /** Nothing appears from nowhere: a connection was somewhere before, or has just been dialled. */
  lemma Traceable(c: Config, s: State, step: Step, x: Conn, p: Place)
    requires Enabled(c, s, step) && At(Do(c, s, step), x, p)
    ensures At(s, x, Origin(c, s, step, p)) || (x == s.nextConn && Birthplace(step) == Some(p))
  {
    hide At, Do, Origin;
    match step {
      case ClientGet(cid, key, now, dead) => TraceableGet(c, s, cid, key, now, dead, x, p);
      case Push(j, times) => TraceablePush(c, s, j, times, x, p);
      case _ => TraceableOther(c, s, step, x, p);
    }
  }

  /** Two places of the same new state never come from one old place. */
  lemma OriginInjective(c: Config, s: State, step: Step, x: Conn, p: Place, q: Place)
    requires Enabled(c, s, step) && At(Do(c, s, step), x, p) && At(Do(c, s, step), x, q)
    requires Origin(c, s, step, p) == Origin(c, s, step, q)
    ensures p == q
  {
    hide TakeFresh;
  }

  lemma OwnStep(c: Config, s: State, step: Step)
    requires OwnInv(s) && Enabled(c, s, step)
    ensures OwnInv(Do(c, s, step))
  {
    var t := Do(c, s, step);
    CountersStep(c, s, step);
    hide Do, Enabled, At, Origin;
    forall x: Conn, p | At(t, x, p) ensures x < t.nextConn {
      Traceable(c, s, step, x, p);
    }
    forall x: Conn, p, q | At(t, x, p) && At(t, x, q) ensures p == q {
      Traceable(c, s, step, x, p);
      Traceable(c, s, step, x, q);
      if Origin(c, s, step, p) == Origin(c, s, step, q) {
        OriginInjective(c, s, step, x, p, q);
      }
    }
  }

  lemma CountersStep(c: Config, s: State, step: Step)
    requires Enabled(c, s, step)
    ensures Do(c, s, step).nextConn == s.nextConn + (if Birthplace(step).Some? then 1 else 0)
  {
    hide TakeFresh, Idle;
  }

  // ----- Freshness --------------------------------------------------------

  /** Buckets are sorted by creation time, and nothing is from the future. */
  ghost predicate FreshInv(s: State) {
    forall k :: k in s.idle ==> Sorted(s.idle[k]) && forall e :: e in s.idle[k] ==> e.created <= s.clock
  }

  /** The new entries of a bucket carry the readings made while they were stored. */
  lemma PushedTimes(c: Config, s: State, job: Job, times: seq<nat>)
    requires job.stage.Pushing? && |times| == |job.stage.held|
    ensures var n, after := |Idle(s.idle, job.key)|, Idle(PushTo(c, s, job, times), job.key);
            && Idle(s.idle, job.key) <= after && |after| <= n + |times|
            && forall i :: n <= i < |after| ==> after[i].created == times[i - n]
    ensures forall k :: k != job.key && k in PushTo(c, s, job, times) ==> k in s.idle && PushTo(c, s, job, times)[k] == s.idle[k]
  {
  }

  lemma SortedMore(bucket: seq<Entry>, after: seq<Entry>, clock: nat, times: seq<nat>)
    requires Sorted(bucket) && (forall e :: e in bucket ==> e.created <= clock) && Ticks(clock, |times|, times)
    requires bucket <= after && |after| <= |bucket| + |times|
    requires forall i :: |bucket| <= i < |after| ==> after[i].created == times[i - |bucket|]
    ensures Sorted(after) && forall e :: e in after ==> e.created <= Latest(clock, times)
  {
    assert forall i :: 0 <= i < |bucket| ==> after[i] == bucket[i] && bucket[i] in bucket;
    if times != [] {
      assert clock <= times[0] <= times[|times| - 1];
    }
  }

  lemma FreshPush(c: Config, s: State, job: Job, times: seq<nat>)
    requires FreshInv(s) && job.stage.Pushing? && Ticks(s.clock, |job.stage.held|, times)
    ensures FreshInv(s.(idle := PushTo(c, s, job, times), clock := Latest(s.clock, times)))
  {
    PushedTimes(c, s, job, times);
    SortedMore(Idle(s.idle, job.key), Idle(PushTo(c, s, job, times), job.key), s.clock, times);
    assert s.clock <= Latest(s.clock, times);
    hide PushTo, Sorted, Latest, Ticks;
  }

  lemma OtherStepsKeepIdle(c: Config, s: State, step: Step)
    requires Enabled(c, s, step) && !step.ClientGet? && !step.Push?
    ensures Do(c, s, step).idle == s.idle && Do(c, s, step).clock >= s.clock
  {
    hide Idle, TakeFresh, Stamped, PushTo, SetStage, IsFilling;
    if StageStep(step) {
      StageEffect(c, s, step);
      hide Do, Enabled;
    }
  }

  lemma FreshGet(c: Config, s: State, cid: nat, key: Key, now: nat, dead: set<Conn>)
    requires FreshInv(s) && Enabled(c, s, ClientGet(cid, key, now, dead))
    ensures FreshInv(Do(c, s, ClientGet(cid, key, now, dead)))
  {
    TakeFreshMeaning(Idle(s.idle, key), now, c.maxAge, dead);
    hide TakeFresh, Usable;
    var bucket, rest := Idle(s.idle, key), TakeFresh(Idle(s.idle, key), now, c.maxAge, dead).1;
    assert rest <= bucket;
    assert Sorted(rest) && forall e :: e in rest ==> e in bucket;
  }

  lemma FreshStep(c: Config, s: State, step: Step)
    requires FreshInv(s) && Enabled(c, s, step)
    ensures FreshInv(Do(c, s, step))
  {
    hide Sorted;
    match step {
      case ClientGet(cid, key, now, dead) => FreshGet(c, s, cid, key, now, dead);
      case Push(j, times) => FreshPush(c, s, s.jobs[j], times);
      case _ =>
        OtherStepsKeepIdle(c, s, step);
        hide Do, Enabled;
    }
  }

  lemma {:induction false} RunKeepsOwnership(c: Config, s: State, steps: seq<Step>)
    requires OwnInv(s) && FreshInv(s) && IsRun(c, s, steps)
    ensures OwnInv(After(c, s, steps)) && FreshInv(After(c, s, steps))
    decreases |steps|
  {
    if steps != [] {
      OwnStep(c, s, steps[0]);
      FreshStep(c, s, steps[0]);
      hide Do, Enabled, OwnInv, FreshInv;
      RunKeepsOwnership(c, Do(c, s, steps[0]), steps[1..]);
    }
  }

  /** Over every run, a connection is in one bucket, one task or with one client, or nowhere. */
  lemma OneOwner(c: Config, steps: seq<Step>, x: Conn, p: Place, q: Place)
    requires IsRun(c, START, steps)
    requires At(After(c, START, steps), x, p) && At(After(c, START, steps), x, q)
    ensures p == q && x < After(c, START, steps).nextConn
  {
    assert OwnInv(START) && FreshInv(START);
    RunKeepsOwnership(c, START, steps);
  }

  /**
    In every reachable state a client that asks a bucket gets its newest usable
    connection, and gets none only if all of them are stale or dead.  Ages are
    taken at `now`, read before waiting for the lock, so a connection may have
    passed the limit by that wait when it is handed out, and by no more.
   */
  lemma GetIsFreshest(c: Config, steps: seq<Step>, key: Key, now: nat, dead: set<Conn>)
    requires IsRun(c, START, steps) && now <= After(c, START, steps).clock
    ensures var s := After(c, START, steps);
            var bucket := Idle(s.idle, key);
            var hit := TakeFresh(bucket, now, c.maxAge, dead).0;
            if hit.None? then forall e :: e in bucket ==> now - e.created > c.maxAge || e.conn in dead
            else
              && hit.value in bucket && now - hit.value.created <= c.maxAge && hit.value.conn !in dead
              && 0 <= s.clock - hit.value.created <= c.maxAge + (s.clock - now)
              && forall e :: e in bucket && now - e.created <= c.maxAge && e.conn !in dead ==> e.created <= hit.value.created
  {
    assert OwnInv(START) && FreshInv(START);
    RunKeepsOwnership(c, START, steps);
    hide IsRun, After, OwnInv;
    var s := After(c, START, steps);
    var bucket := Idle(s.idle, key);
    TakeFreshMeaning(bucket, now, c.maxAge, dead);
    hide TakeFresh;
    var (hit, rest) := TakeFresh(bucket, now, c.maxAge, dead);
    if hit.Some? {
      assert bucket[|rest|] == (rest + [hit.value])[|rest|];
    }
  }
}
