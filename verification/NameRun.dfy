/**
  Every interleaving of attempts on Workers and upstream proxies: when a name is
  stepped over (src/proxy.rs, `cf_worker` and `upstream_proxies`).
 */
module NameRun {
  import opened Cooldowns
  import opened Network

  /** An attempt under way, with the number of attempts that had ended when it began. */
  datatype Begun = Begun(worker: bool, name: string, force: bool, at: nat, mark: nat)

  datatype Ended = Ended(worker: bool, name: string, at: nat, won: bool)

  datatype State = State(clock: nat, entries: map<Subject, nat>, attempts: map<nat, Begun>, begins: seq<Begun>, ends: seq<Ended>)

  const START := State(0, map[], map[], [], [])

  /** `Begin` is a connection that looks at a name's cooldown, or forces its way, and dials. */
  datatype Step =
    | Tick(d: nat)
    | Begin(cid: nat, worker: bool, name: string, force: bool)
    | End(cid: nat, won: bool)
    | Other(note: Note)

  function Subj(worker: bool, name: string): Subject { if worker then Worker(name) else Upstream(name) }

  predicate Enabled(s: State, step: Step) {
    match step
    case Tick(_) => true
    case Begin(cid, worker, name, force) => cid !in s.attempts && (force || !Cooling(s.entries, Subj(worker, name), s.clock))
    case End(cid, _) => cid in s.attempts
    case Other(n) => !n.subject.Worker? && !n.subject.Upstream?
  }

  function Do(t: Timeouts, s: State, step: Step): State
    requires Enabled(s, step)
  {
    match step
    case Tick(d) => s.(clock := s.clock + d)
    case Begin(cid, worker, name, force) =>
      var b := Begun(worker, name, force, s.clock, |s.ends|);
      s.(attempts := s.attempts[cid := b], begins := s.begins + [b])
    case End(cid, won) =>
      var a := s.attempts[cid];
      s.(entries := Redone(s.entries, NoteOp(NameNote(t, a.worker, a.name, won), s.clock)),
         attempts := s.attempts - {cid},
         ends := s.ends + [Ended(a.worker, a.name, s.clock, won)])
    case Other(n) => s.(entries := Redone(s.entries, NoteOp(n, s.clock)))
  }

  ghost predicate IsRun(t: Timeouts, s: State, steps: seq<Step>)
    decreases |steps|
  {
    steps == [] || (Enabled(s, steps[0]) && IsRun(t, Do(t, s, steps[0]), steps[1..]))
  }

  ghost function After(t: Timeouts, s: State, steps: seq<Step>): State
    requires IsRun(t, s, steps)
    decreases |steps|
  {
    if steps == [] then s else After(t, Do(t, s, steps[0]), steps[1..])
  }

  // ----- When a name is cooling -------------------------------------------

  /** `j` is the last attempt on this name that has ended. */
  ghost predicate LastEnd(ends: seq<Ended>, worker: bool, name: string, j: int) {
    && 0 <= j < |ends| && ends[j].worker == worker && ends[j].name == name
    && forall i :: j < i < |ends| ==> !(ends[i].worker == worker && ends[i].name == name)
  }

  /** It failed, and its window is still open. */
  ghost predicate Holds(t: Timeouts, ends: seq<Ended>, worker: bool, name: string, now: nat, j: int) {
    && LastEnd(ends, worker, name, j) && !ends[j].won
    && now < ends[j].at + if worker then t.cfFail else t.upstreamFail
  }

  /** The entry of a name is what its last ended attempt left, whatever the time. */
  ghost predicate Inv(t: Timeouts, s: State) {
    forall worker, name, now: nat ::
      Cooling(s.entries, Subj(worker, name), now) <==> exists j :: Holds(t, s.ends, worker, name, now, j)
  }

  lemma LastEndAfter(ends: seq<Ended>, e: Ended, worker: bool, name: string, j: int)
    ensures LastEnd(ends + [e], worker, name, j)
            <==> if e.worker == worker && e.name == name then j == |ends| else LastEnd(ends, worker, name, j)
  {
    var all := ends + [e];
    assert all[|ends|] == e && forall i :: 0 <= i < |ends| ==> all[i] == ends[i];
  }

  /** What one more end does to a name. */
  lemma HoldsAfter(t: Timeouts, ends: seq<Ended>, e: Ended, worker: bool, name: string, now: nat)
    ensures (exists j :: Holds(t, ends + [e], worker, name, now, j))
            <==> if e.worker == worker && e.name == name
                 then !e.won && now < e.at + (if worker then t.cfFail else t.upstreamFail)
                 else exists j :: Holds(t, ends, worker, name, now, j)
  {
    var all := ends + [e];
    forall j ensures LastEnd(all, worker, name, j)
                     <==> if e.worker == worker && e.name == name then j == |ends| else LastEnd(ends, worker, name, j)
    {
      LastEndAfter(ends, e, worker, name, j);
    }
    LastIndex(all, worker, name);
    LastIndex(ends, worker, name);
    hide LastEnd;
    if e.worker == worker && e.name == name {
      assert Holds(t, all, worker, name, now, |ends|) <==> !e.won && now < e.at + (if worker then t.cfFail else t.upstreamFail);
    } else {
      assert forall j :: Holds(t, all, worker, name, now, j) <==> Holds(t, ends, worker, name, now, j);
    }
  }

  lemma LastIndex(ends: seq<Ended>, worker: bool, name: string)
    ensures forall j :: LastEnd(ends, worker, name, j) ==> 0 <= j < |ends|
  {
  }

  lemma EndStep(t: Timeouts, s: State, cid: nat, won: bool)
    requires Inv(t, s) && Enabled(s, End(cid, won))
    ensures Inv(t, Do(t, s, End(cid, won)))
  {
    var u, a := Do(t, s, End(cid, won)), s.attempts[cid];
    var e := Ended(a.worker, a.name, s.clock, won);
    forall worker, name, now: nat
      ensures Cooling(u.entries, Subj(worker, name), now) <==> exists j :: Holds(t, u.ends, worker, name, now, j)
    {
      HoldsAfter(t, s.ends, e, worker, name, now);
      hide Holds;
      assert u.ends == s.ends + [e];
      if worker == a.worker && name == a.name {
        assert Cooling(u.entries, Subj(worker, name), now) <==> !won && now < s.clock + if worker then t.cfFail else t.upstreamFail;
      } else {
        assert Subj(worker, name) != Subj(a.worker, a.name);
        assert Cooling(u.entries, Subj(worker, name), now) <==> Cooling(s.entries, Subj(worker, name), now);
      }
    }
  }

  lemma OtherSteps(t: Timeouts, s: State, step: Step)
    requires Inv(t, s) && Enabled(s, step) && !step.End?
    ensures Inv(t, Do(t, s, step))
  {
    var u := Do(t, s, step);
    assert u.ends == s.ends;
    assert forall worker, name, now: nat :: Cooling(u.entries, Subj(worker, name), now) <==> Cooling(s.entries, Subj(worker, name), now);
    hide Do, Enabled, Holds, Cooling;
  }

  lemma InvStep(t: Timeouts, s: State, step: Step)
    requires Inv(t, s) && Enabled(s, step)
    ensures Inv(t, Do(t, s, step))
  {
    hide Inv, Do, Enabled;
    if step.End? {
      EndStep(t, s, step.cid, step.won);
    } else {
      OtherSteps(t, s, step);
    }
  }

  lemma InvStart(t: Timeouts)
    ensures Inv(t, START)
  {
  }

  lemma {:induction false} RunKeepsInv(t: Timeouts, s: State, steps: seq<Step>)
    requires IsRun(t, s, steps) && Inv(t, s)
    ensures Inv(t, After(t, s, steps))
    decreases |steps|
  {
    if steps != [] {
      InvStep(t, s, steps[0]);
      hide Inv, Do, Enabled;
      RunKeepsInv(t, Do(t, s, steps[0]), steps[1..]);
    }
  }

  /**
    Over every run: a Worker is stepped over exactly while the last attempt on it
    that has ended failed, and lies within the Worker window; an upstream proxy
    likewise within its own.
   */
  lemma NameCooldownIff(t: Timeouts, steps: seq<Step>, name: string)
    requires IsRun(t, START, steps)
    ensures var s := After(t, START, steps);
            Cooling(s.entries, Worker(name), s.clock)
            <==> exists j :: LastEnd(s.ends, true, name, j) && !s.ends[j].won && s.clock < s.ends[j].at + t.cfFail
    ensures var s := After(t, START, steps);
            Cooling(s.entries, Upstream(name), s.clock)
            <==> exists j :: LastEnd(s.ends, false, name, j) && !s.ends[j].won && s.clock < s.ends[j].at + t.upstreamFail
  {
    InvStart(t);
    RunKeepsInv(t, START, steps);
    var s := After(t, START, steps);
    hide IsRun, After, Cooling, LastEnd;
    assert Worker(name) == Subj(true, name) && Upstream(name) == Subj(false, name);
    LastIndex(s.ends, true, name);
    LastIndex(s.ends, false, name);
    assert forall j :: Holds(t, s.ends, true, name, s.clock, j) <==>
                       LastEnd(s.ends, true, name, j) && !s.ends[j].won && s.clock < s.ends[j].at + t.cfFail;
    assert forall j :: Holds(t, s.ends, false, name, s.clock, j) <==>
                       LastEnd(s.ends, false, name, j) && !s.ends[j].won && s.clock < s.ends[j].at + t.upstreamFail;
  }

  // ----- When a name is tried ---------------------------------------------

  /** Attempt `b` came upon no open window: the last attempt that had ended before it won, or failed long enough ago. */
  ghost predicate Waited(t: Timeouts, ends: seq<Ended>, b: Begun) {
    && b.mark <= |ends|
    && (!b.force ==> forall j :: !Holds(t, ends[..b.mark], b.worker, b.name, b.at, j))
  }

  ghost predicate AllWaited(t: Timeouts, s: State) {
    forall i :: 0 <= i < |s.begins| ==> Waited(t, s.ends, s.begins[i])
  }

  lemma WaitedStep(t: Timeouts, s: State, step: Step)
    requires Inv(t, s) && AllWaited(t, s) && Enabled(s, step)
    ensures AllWaited(t, Do(t, s, step))
  {
    hide Holds, Cooling;
    var u := Do(t, s, step);
    assert forall k :: 0 <= k <= |s.ends| ==> u.ends[..k] == s.ends[..k];
    if step.Begin? {
      assert s.ends[..|s.ends|] == s.ends;
      var b := u.begins[|s.begins|];
      assert Waited(t, u.ends, b);
    }
    forall i | 0 <= i < |s.begins| ensures Waited(t, u.ends, u.begins[i]) {
      assert u.begins[i] == s.begins[i] && Waited(t, s.ends, s.begins[i]);
    }
  }

  lemma {:induction false} RunWaits(t: Timeouts, s: State, steps: seq<Step>)
    requires IsRun(t, s, steps) && Inv(t, s) && AllWaited(t, s)
    ensures AllWaited(t, After(t, s, steps))
    decreases |steps|
  {
    if steps != [] {
      InvStep(t, s, steps[0]);
      WaitedStep(t, s, steps[0]);
      hide Inv, Do, Enabled, AllWaited;
      RunWaits(t, Do(t, s, steps[0]), steps[1..]);
    }
  }

  /**
    Over every run: a connection that respects cooldowns never begins an attempt
    on a name within the window of that name's last failure, unless an attempt on
    it has ended well since.
   */
  lemma UnforcedWaits(t: Timeouts, steps: seq<Step>, i: nat, j: int)
    requires IsRun(t, START, steps)
    requires var s := After(t, START, steps); i < |s.begins| && !s.begins[i].force
    ensures var s := After(t, START, steps); var b := s.begins[i];
            && b.mark <= |s.ends|
            && (LastEnd(s.ends[..b.mark], b.worker, b.name, j) && !s.ends[j].won ==>
                  s.ends[j].at + (if b.worker then t.cfFail else t.upstreamFail) <= b.at)
  {
    InvStart(t);
    RunWaits(t, START, steps);
    var s := After(t, START, steps);
    var b := s.begins[i];
    hide IsRun, After;
    assert Waited(t, s.ends, b);
    assert !Holds(t, s.ends[..b.mark], b.worker, b.name, b.at, j);
  }
}
