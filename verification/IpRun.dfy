/**
  Every interleaving of direct WebSocket attempts: when an address is stepped
  over (src/proxy.rs, `direct_ws` and its callees).
 */
module IpRun {
  import opened Cooldowns
  import opened Network

  /**
    One connection's attempt: after the first look at the DC's cooldown, dialling,
    then with one map updated.  `mark` counts the attempts that had ended by the
    first look.
   */
  datatype Attempt =
    | Probed(dc: nat, media: bool, ip: string, probing: bool, mark: nat)
    | Dialling(dc: nat, media: bool, ip: string, probing: bool, short: bool)
    | Ending(dc: nat, media: bool, ip: string, probing: bool, short: bool, end: WsAttempt)

  /** An attempt that has ended and left its note about the DC. */
  datatype Ended = Ended(cid: nat, dc: nat, media: bool, at: nat, end: WsAttempt)

  /** An attempt that has settled its note about the address as well. */
  datatype Done = Done(ip: string, at: nat, probing: bool, short: bool, end: WsAttempt)

  datatype State = State(clock: nat, entries: map<Subject, nat>, attempts: map<nat, Attempt>, ends: seq<Ended>, history: seq<Done>)

  const START := State(0, map[], map[], [], [])

  datatype Step =
    | Tick(d: nat)
    | Probe(cid: nat, dc: nat, media: bool, ip: string)
    | Budget(cid: nat)
    | End(cid: nat, end: WsAttempt)
    | Settle(cid: nat)
    | Other(note: Note)

  /** All redirected and timed out are never reported together. */
  predicate Reported(a: WsAttempt) { a.connectTimedOut ==> !a.connected && !a.allRedirects }

  predicate Enabled(s: State, step: Step) {
    match step
    case Tick(_) => true
    case Probe(cid, _, _, _) => cid !in s.attempts
    case Budget(cid) => cid in s.attempts && s.attempts[cid].Probed?
    case End(cid, end) => cid in s.attempts && s.attempts[cid].Dialling? && Reported(end)
    case Settle(cid) => cid in s.attempts && s.attempts[cid].Ending?
    case Other(n) => !n.subject.DcIp? && !n.subject.WsDc?
  }

  function Recorded(entries: map<Subject, nat>, n: Note, now: nat): map<Subject, nat> { Redone(entries, NoteOp(n, now)) }

  function RecordAll(entries: map<Subject, nat>, notes: seq<Note>, now: nat): map<Subject, nat>
    decreases |notes|
  {
    if notes == [] then entries else RecordAll(Recorded(entries, notes[0], now), notes[1..], now)
  }

  function Do(t: Timeouts, s: State, step: Step): State
    requires Enabled(s, step)
  {
    match step
    case Tick(d) => s.(clock := s.clock + d)
    case Probe(cid, dc, media, ip) =>
      s.(attempts := s.attempts[cid := Probed(dc, media, ip, Cooling(s.entries, WsDc(dc, media), s.clock), |s.ends|)])
    case Budget(cid) =>
      var a := s.attempts[cid];
      var short := Cooling(s.entries, WsDc(a.dc, a.media), s.clock);
      s.(attempts := s.attempts[cid := Dialling(a.dc, a.media, a.ip, a.probing, short)])
    case End(cid, end) =>
      var a := s.attempts[cid];
      s.(entries := Recorded(s.entries, DcNote(t, a.dc, a.media, end), s.clock),
         attempts := s.attempts[cid := Ending(a.dc, a.media, a.ip, a.probing, a.short, end)],
         ends := s.ends + [Ended(cid, a.dc, a.media, s.clock, end)])
    case Settle(cid) =>
      var a := s.attempts[cid];
      s.(entries := RecordAll(s.entries, IpNotes(t, a.ip, a.probing, a.end), s.clock),
         attempts := s.attempts - {cid},
         history := s.history + [Done(a.ip, s.clock, a.probing, a.short, a.end)])
    case Other(n) => s.(entries := Recorded(s.entries, n, s.clock))
  }

  ghost predicate IsRun(t: Timeouts, s: State, steps: seq<Step>)
    decreases |steps|
  {
    steps == [] || (Enabled(s, steps[0]) && IsRun(t, Do(t, s, steps[0]), steps[1..]))
  }

  ghost function After(t: Timeouts, s: State, steps: seq<Step>): State
    requires IsRun(t, s, steps)
    decreases |steps|
  {
    if steps == [] then s else After(t, Do(t, s, steps[0]), steps[1..])
  }

  // ----- When an address is cooling ----------------------------------------

  /** Attempt `i` timed out connecting, outside its DC's cooldown, and no fresh connect has succeeded since. */
  ghost predicate Blames(h: seq<Done>, ip: string, i: int) {
    && 0 <= i < |h| && h[i].ip == ip && h[i].end.connectTimedOut && !h[i].probing
    && forall j :: i < j < |h| && h[j].ip == ip ==> !h[j].end.connected
  }

  ghost predicate Inv(t: Timeouts, s: State) {
    && (forall i :: 0 <= i < |s.history| ==> s.history[i].at <= s.clock && Reported(s.history[i].end))
    && (forall cid :: cid in s.attempts && s.attempts[cid].Ending? ==> Reported(s.attempts[cid].end))
    && (forall ip :: DcIp(ip) in s.entries ==> exists i :: Blames(s.history, ip, i) && s.entries[DcIp(ip)] == s.history[i].at + t.ipFail)
    && (forall ip, i :: Blames(s.history, ip, i) ==> DcIp(ip) in s.entries && s.history[i].at + t.ipFail <= s.entries[DcIp(ip)])
  }

  /** What a finished attempt does to the blame of an address. */
  lemma BlameAfter(h: seq<Done>, d: Done, ip: string, i: int)
    requires Reported(d.end)
    ensures Blames(h + [d], ip, i) <==>
            if i == |h| then d.ip == ip && d.end.connectTimedOut && !d.probing
            else Blames(h, ip, i) && !(d.ip == ip && d.end.connected)
  {
    var g := h + [d];
    if 0 <= i < |h| && Blames(g, ip, i) {
      assert g[i] == h[i] && g[|h|] == d;
      assert forall j :: i < j < |h| ==> g[j] == h[j];
    }
  }

  lemma RecordOne(entries: map<Subject, nat>, n: Note, now: nat)
    ensures RecordAll(entries, [n], now) == Recorded(entries, n, now)
  {
    assert [n][1..] == [];
  }

  lemma SettledEntries(t: Timeouts, s: State, cid: nat)
    requires Enabled(s, Settle(cid))
    ensures var a := s.attempts[cid];
            Do(t, s, Settle(cid)).entries == if a.end.connected then s.entries - {DcIp(a.ip)}
                                             else if a.end.connectTimedOut && !a.probing then s.entries[DcIp(a.ip) := s.clock + t.ipFail]
                                             else s.entries
  {
    var a := s.attempts[cid];
    RecordOne(s.entries, Clear(DcIp(a.ip)), s.clock);
    RecordOne(s.entries, Cool(DcIp(a.ip), t.ipFail), s.clock);
  }

  lemma SettleStep(t: Timeouts, s: State, cid: nat)
    requires Inv(t, s) && Enabled(s, Settle(cid))
    ensures Inv(t, Do(t, s, Settle(cid)))
  {
    var u, a := Do(t, s, Settle(cid)), s.attempts[cid];
    var d := Done(a.ip, s.clock, a.probing, a.short, a.end);
    var h := s.history;
    assert u.history == h + [d];
    SettledEntries(t, s, cid);
    assert u.entries == if a.end.connected then s.entries - {DcIp(a.ip)}
                        else if a.end.connectTimedOut && !a.probing then s.entries[DcIp(a.ip) := s.clock + t.ipFail]
                        else s.entries;
    forall ip, i ensures Blames(u.history, ip, i) <==>
                         if i == |h| then d.ip == ip && d.end.connectTimedOut && !d.probing
                         else Blames(h, ip, i) && !(d.ip == ip && d.end.connected)
    {
      BlameAfter(h, d, ip, i);
    }
    hide Do, Enabled, Blames;
    forall ip | DcIp(ip) in u.entries
      ensures exists i :: Blames(u.history, ip, i) && u.entries[DcIp(ip)] == u.history[i].at + t.ipFail
    {
      if ip == a.ip && a.end.connectTimedOut && !a.probing {
        assert Blames(u.history, ip, |h|);
      } else {
        var i :| Blames(h, ip, i) && s.entries[DcIp(ip)] == h[i].at + t.ipFail;
        BlamedIndex(h, ip, i);
        assert Blames(u.history, ip, i);
      }
    }
    forall ip, i | Blames(u.history, ip, i)
      ensures DcIp(ip) in u.entries && u.history[i].at + t.ipFail <= u.entries[DcIp(ip)]
    {
      BlamedIndex(u.history, ip, i);
    }
  }

  lemma BlamedIndex(h: seq<Done>, ip: string, i: int)
    requires Blames(h, ip, i)
    ensures 0 <= i < |h| && h[i].ip == ip
  {
  }

  lemma OtherSteps(t: Timeouts, s: State, step: Step)
    requires Inv(t, s) && Enabled(s, step) && !step.Settle?
    ensures Inv(t, Do(t, s, step))
  {
    var u := Do(t, s, step);
    assert u.history == s.history && u.clock >= s.clock;
    assert forall ip :: DcIp(ip) in u.entries <==> DcIp(ip) in s.entries;
    assert forall ip :: DcIp(ip) in u.entries ==> u.entries[DcIp(ip)] == s.entries[DcIp(ip)];
    assert forall cid :: cid in u.attempts && u.attempts[cid].Ending? ==> Reported(u.attempts[cid].end);
    hide Do, Enabled, Blames, Reported;
  }

  lemma {:induction false} RunKeepsInv(t: Timeouts, s: State, steps: seq<Step>)
    requires IsRun(t, s, steps) && Inv(t, s)
    ensures Inv(t, After(t, s, steps))
    decreases |steps|
  {
    if steps != [] {
      if steps[0].Settle? {
        SettleStep(t, s, steps[0].cid);
      } else {
        OtherSteps(t, s, steps[0]);
      }
      hide Inv, Do, Enabled;
      RunKeepsInv(t, Do(t, s, steps[0]), steps[1..]);
    }
  }

  /**
    Over every run: an address is stepped over exactly while some attempt that
    timed out connecting to it, outside its DC's own cooldown, lies within the
    window and no fresh direct connect to it has succeeded since.
   */
  lemma IpCooldownIff(t: Timeouts, steps: seq<Step>, ip: string)
    requires IsRun(t, START, steps)
    ensures var s := After(t, START, steps);
            Cooling(s.entries, DcIp(ip), s.clock)
            <==> exists i :: Blames(s.history, ip, i) && s.clock < s.history[i].at + t.ipFail
  {
    assert Inv(t, START);
    RunKeepsInv(t, START, steps);
    hide Blames, IsRun, After;
  }

  // ----- When the second look differs -------------------------------------

  /** How long a failed attempt keeps its DC cooling. */
  function DcCooldown(t: Timeouts, a: WsAttempt): nat { if a.allRedirects then t.wsRedirect else t.wsFail }

  /** `j` is the last attempt of this DC that has ended. */
  ghost predicate LastEnd(ends: seq<Ended>, dc: nat, media: bool, j: int) {
    && 0 <= j < |ends| && ends[j].dc == dc && ends[j].media == media
    && forall i :: j < i < |ends| ==> !(ends[i].dc == dc && ends[i].media == media)
  }

  /** It failed, and its cooldown is still running. */
  ghost predicate Holds(t: Timeouts, ends: seq<Ended>, dc: nat, media: bool, now: nat, j: int) {
    LastEnd(ends, dc, media, j) && !ends[j].end.connected && now < ends[j].at + DcCooldown(t, ends[j].end)
  }

  /** The cooldown of a DC is what its last ended attempt left. */
  ghost predicate DcInv(t: Timeouts, s: State) {
    && (forall dc, media :: WsDc(dc, media) in s.entries ==>
          exists j :: LastEnd(s.ends, dc, media, j) && !s.ends[j].end.connected
                      && s.entries[WsDc(dc, media)] == s.ends[j].at + DcCooldown(t, s.ends[j].end))
    && (forall dc, media, j :: LastEnd(s.ends, dc, media, j) && !s.ends[j].end.connected ==>
          WsDc(dc, media) in s.entries && s.entries[WsDc(dc, media)] == s.ends[j].at + DcCooldown(t, s.ends[j].end))
  }

  lemma LastEndAfter(ends: seq<Ended>, e: Ended, dc: nat, media: bool, j: int)
    ensures LastEnd(ends + [e], dc, media, j)
            <==> if e.dc == dc && e.media == media then j == |ends| else LastEnd(ends, dc, media, j)
  {
    var all := ends + [e];
    assert all[|ends|] == e && forall i :: 0 <= i < |ends| ==> all[i] == ends[i];
  }

  lemma EndKeepsDc(t: Timeouts, s: State, cid: nat, end: WsAttempt)
    requires DcInv(t, s) && Enabled(s, End(cid, end))
    ensures DcInv(t, Do(t, s, End(cid, end)))
  {
    var u, a := Do(t, s, End(cid, end)), s.attempts[cid];
    var e := Ended(cid, a.dc, a.media, s.clock, end);
    assert u.ends == s.ends + [e];
    assert u.entries == if end.connected then s.entries - {WsDc(a.dc, a.media)}
                        else s.entries[WsDc(a.dc, a.media) := s.clock + DcCooldown(t, end)];
    forall dc, media, j ensures LastEnd(u.ends, dc, media, j)
                                <==> if e.dc == dc && e.media == media then j == |s.ends| else LastEnd(s.ends, dc, media, j)
    {
      LastEndAfter(s.ends, e, dc, media, j);
    }
    hide Do, Enabled;
    forall dc, media | WsDc(dc, media) in u.entries
      ensures exists j :: LastEnd(u.ends, dc, media, j) && !u.ends[j].end.connected
                          && u.entries[WsDc(dc, media)] == u.ends[j].at + DcCooldown(t, u.ends[j].end)
    {
      if e.dc == dc && e.media == media {
        assert LastEnd(u.ends, dc, media, |s.ends|);
      } else {
        var j :| LastEnd(s.ends, dc, media, j) && !s.ends[j].end.connected
                 && s.entries[WsDc(dc, media)] == s.ends[j].at + DcCooldown(t, s.ends[j].end);
        assert LastEnd(u.ends, dc, media, j) && u.ends[j] == s.ends[j];
      }
    }
  }

  lemma OthersKeepDc(t: Timeouts, s: State, step: Step)
    requires DcInv(t, s) && Enabled(s, step) && !step.End?
    ensures DcInv(t, Do(t, s, step))
  {
    var u := Do(t, s, step);
    if step.Settle? {
      SettledEntries(t, s, step.cid);
    }
    assert u.ends == s.ends;
    assert forall dc, media :: WsDc(dc, media) in u.entries <==> WsDc(dc, media) in s.entries;
    assert forall dc, media :: WsDc(dc, media) in u.entries ==> u.entries[WsDc(dc, media)] == s.entries[WsDc(dc, media)];
    hide Do, Enabled, LastEnd;
  }

  /** A first look that found the DC clear: what had ended by then is no longer holding it, and only others have ended since. */
  ghost predicate ClearSince(t: Timeouts, s: State, cid: nat)
    requires cid in s.attempts && s.attempts[cid].Probed?
  {
    var a := s.attempts[cid];
    && a.mark <= |s.ends|
    && (forall j :: a.mark <= j < |s.ends| ==> s.ends[j].cid != cid)
    && (!a.probing ==> forall j :: 0 <= j < a.mark ==> !Holds(t, s.ends, a.dc, a.media, s.clock, j))
  }

  ghost predicate MarkInv(t: Timeouts, s: State) {
    forall cid :: cid in s.attempts && s.attempts[cid].Probed? ==> ClearSince(t, s, cid)
  }

  lemma HoldsLater(t: Timeouts, ends: seq<Ended>, more: seq<Ended>, dc: nat, media: bool, now: nat, later: nat, j: int)
    requires Holds(t, ends + more, dc, media, later, j) && now <= later && j < |ends|
    ensures Holds(t, ends, dc, media, now, j)
  {
    var all := ends + more;
    assert forall i :: 0 <= i < |ends| ==> all[i] == ends[i];
  }

  lemma MarkStep(t: Timeouts, s: State, step: Step)
    requires DcInv(t, s) && MarkInv(t, s) && Enabled(s, step)
    ensures MarkInv(t, Do(t, s, step))
  {
    var u := Do(t, s, step);
    forall cid | cid in u.attempts && u.attempts[cid].Probed? ensures ClearSince(t, u, cid) {
      var a := u.attempts[cid];
      if step.Probe? && step.cid == cid {
        forall j | 0 <= j < |s.ends| && !a.probing ensures !Holds(t, u.ends, a.dc, a.media, u.clock, j) {
          ProbedClear(t, s, a.dc, a.media, j);
        }
      } else {
        assert ClearSince(t, s, cid) && s.attempts[cid] == a && u.clock >= s.clock;
        var more := if step.End? then [u.ends[|s.ends|]] else [];
        assert u.ends == s.ends + more;
        hide Do, Enabled;
        forall j | 0 <= j < a.mark && !a.probing ensures !Holds(t, u.ends, a.dc, a.media, u.clock, j) {
          if Holds(t, u.ends, a.dc, a.media, u.clock, j) {
            HoldsLater(t, s.ends, more, a.dc, a.media, s.clock, u.clock, j);
          }
        }
      }
    }
  }

  lemma ProbedClear(t: Timeouts, s: State, dc: nat, media: bool, j: int)
    requires DcInv(t, s) && !Cooling(s.entries, WsDc(dc, media), s.clock)
    ensures !Holds(t, s.ends, dc, media, s.clock, j)
  {
  }

  lemma {:induction false} RunKeepsDc(t: Timeouts, s: State, steps: seq<Step>)
    requires IsRun(t, s, steps) && DcInv(t, s) && MarkInv(t, s)
    ensures DcInv(t, After(t, s, steps)) && MarkInv(t, After(t, s, steps))
    decreases |steps|
  {
    if steps != [] {
      hide DcInv, MarkInv, Do, Enabled;
      MarkStep(t, s, steps[0]);
      if steps[0].End? {
        EndKeepsDc(t, s, steps[0].cid, steps[0].end);
      } else {
        OthersKeepDc(t, s, steps[0]);
      }
      RunKeepsDc(t, Do(t, s, steps[0]), steps[1..]);
    }
  }

  /**
    The second look finds cooling a DC that the first found clear exactly if
    another attempt of that DC has failed in between, none has ended since, and
    its cooldown is still running.
   */
  lemma FlipIff(t: Timeouts, steps: seq<Step>, cid: nat)
    requires IsRun(t, START, steps)
    requires cid in After(t, START, steps).attempts && After(t, START, steps).attempts[cid].Probed?
    requires !After(t, START, steps).attempts[cid].probing
    ensures var s := After(t, START, steps);
            var a := s.attempts[cid];
            Cooling(s.entries, WsDc(a.dc, a.media), s.clock)
            <==> exists j :: a.mark <= j && Holds(t, s.ends, a.dc, a.media, s.clock, j) && s.ends[j].cid != cid
  {
    assert DcInv(t, START) && MarkInv(t, START);
    RunKeepsDc(t, START, steps);
    var s := After(t, START, steps);
    hide IsRun, After;
    var a := s.attempts[cid];
    assert ClearSince(t, s, cid);
    if Cooling(s.entries, WsDc(a.dc, a.media), s.clock) {
      var j :| LastEnd(s.ends, a.dc, a.media, j) && !s.ends[j].end.connected
               && s.entries[WsDc(a.dc, a.media)] == s.ends[j].at + DcCooldown(t, s.ends[j].end);
      assert Holds(t, s.ends, a.dc, a.media, s.clock, j);
    }
  }

  // ----- Full budget ------------------------------------------------------

  /** Attempt `cid` is about to dial on the short budget although its first look was clear. */
  ghost predicate Flipped(s: State, cid: nat) {
    && cid in s.attempts && s.attempts[cid].Probed? && !s.attempts[cid].probing
    && Cooling(s.entries, WsDc(s.attempts[cid].dc, s.attempts[cid].media), s.clock)
  }

  /** No attempt of the run chose its budget in that situation. */
  ghost predicate NoFlip(t: Timeouts, s: State, steps: seq<Step>)
    requires IsRun(t, s, steps)
    decreases |steps|
  {
    steps == [] || ((steps[0].Budget? ==> !Flipped(s, steps[0].cid)) && NoFlip(t, Do(t, s, steps[0]), steps[1..]))
  }

  ghost predicate FullInv(s: State) {
    && (forall i :: 0 <= i < |s.history| ==> s.history[i].short ==> s.history[i].probing)
    && (forall cid :: cid in s.attempts && !s.attempts[cid].Probed? ==> s.attempts[cid].short ==> s.attempts[cid].probing)
  }

  lemma {:induction false} RunKeepsFull(t: Timeouts, s: State, steps: seq<Step>)
    requires IsRun(t, s, steps) && NoFlip(t, s, steps) && FullInv(s)
    ensures FullInv(After(t, s, steps))
    decreases |steps|
  {
    if steps != [] {
      assert FullInv(Do(t, s, steps[0]));
      RunKeepsFull(t, Do(t, s, steps[0]), steps[1..]);
    }
  }

  /** Some full-budget timeout on this address is still in the window, with no success since. */
  ghost predicate FullyBlamed(t: Timeouts, s: State, ip: string) {
    exists i :: Blames(s.history, ip, i) && !s.history[i].short && s.clock < s.history[i].at + t.ipFail
  }

  /** Unless some attempt's look flipped, only a timeout on the full budget makes an address cool. */
  lemma OnlyFullBudget(t: Timeouts, steps: seq<Step>, ip: string)
    requires IsRun(t, START, steps) && NoFlip(t, START, steps)
    requires Cooling(After(t, START, steps).entries, DcIp(ip), After(t, START, steps).clock)
    ensures FullyBlamed(t, After(t, START, steps), ip)
  {
    IpCooldownIff(t, steps, ip);
    RunKeepsFull(t, START, steps);
    var s := After(t, START, steps);
    hide IsRun, After, NoFlip;
    var i :| Blames(s.history, ip, i) && s.clock < s.history[i].at + t.ipFail;
    assert !s.history[i].short;
  }

  const TIMED_OUT := WsAttempt(false, false, false, true)

  /** The rest of an attempt that times out connecting. */
  function TimesOut(cid: nat): seq<Step> { [Budget(cid), End(cid, TIMED_OUT), Settle(cid)] }

  /**
    And the condition is exact.  From any state, an attempt whose first look was
    clear and which now times out cools its address; without an earlier blame,
    a full-budget timeout is to blame exactly if its second look has not flipped.
   */
  lemma FlipIsExact(t: Timeouts, s: State, cid: nat)
    requires cid in s.attempts && s.attempts[cid].Probed? && !s.attempts[cid].probing && t.ipFail > 0
    requires !FullyBlamed(t, s, s.attempts[cid].ip)
    ensures IsRun(t, s, TimesOut(cid))
    ensures var u, ip := After(t, s, TimesOut(cid)), s.attempts[cid].ip;
            Cooling(u.entries, DcIp(ip), u.clock) && (FullyBlamed(t, u, ip) <==> !Flipped(s, cid))
  {
    var a := s.attempts[cid];
    var short := Flipped(s, cid);
    var s1 := Do(t, s, Budget(cid));
    assert s1.attempts[cid] == Dialling(a.dc, a.media, a.ip, false, short);
    var s2 := Do(t, s1, End(cid, TIMED_OUT));
    assert s2.attempts[cid] == Ending(a.dc, a.media, a.ip, false, short, TIMED_OUT);
    var s3 := Do(t, s2, Settle(cid));
    SettledEntries(t, s2, cid);
    var d := Done(a.ip, s.clock, false, short, TIMED_OUT);
    assert s3.history == s.history + [d] && s3.clock == s.clock;
    assert Cooling(s3.entries, DcIp(a.ip), s3.clock);
    assert Enabled(s, Budget(cid)) && Enabled(s1, End(cid, TIMED_OUT)) && Enabled(s2, Settle(cid));
    hide Do, Enabled, IsRun, After, Flipped;
    RunOne(t, s2, Settle(cid));
    RunCons(t, s1, End(cid, TIMED_OUT), [Settle(cid)]);
    RunCons(t, s, Budget(cid), [End(cid, TIMED_OUT)] + [Settle(cid)]);
    assert TimesOut(cid) == [Budget(cid)] + ([End(cid, TIMED_OUT)] + [Settle(cid)]);
    NewBlame(t, s, s3, a.ip, d);
  }

  lemma NewBlame(t: Timeouts, s: State, u: State, ip: string, d: Done)
    requires u.history == s.history + [d] && u.clock == s.clock == d.at && t.ipFail > 0
    requires d.ip == ip && d.end == TIMED_OUT && !d.probing && !FullyBlamed(t, s, ip)
    ensures FullyBlamed(t, u, ip) <==> !d.short
  {
    forall i ensures Blames(u.history, ip, i) <==> i == |s.history| || Blames(s.history, ip, i) {
      BlameAfter(s.history, d, ip, i);
    }
    hide Blames;
    if FullyBlamed(t, u, ip) {
      var i :| Blames(u.history, ip, i) && !u.history[i].short && u.clock < u.history[i].at + t.ipFail;
      if i != |s.history| {
        BlamedIndex(s.history, ip, i);
      }
    }
    if !d.short {
      assert Blames(u.history, ip, |s.history|);
    }
  }

  /** Two looks with nothing in between never flip. */
  lemma AdjacentLooksAgree(t: Timeouts, s: State, cid: nat, dc: nat, media: bool, ip: string)
    requires Enabled(s, Probe(cid, dc, media, ip))
    ensures !Flipped(Do(t, s, Probe(cid, dc, media, ip)), cid)
  {
  }

  /** A flip does happen: another connection of the same DC fails between the two looks. */
  lemma FlipHappens(t: Timeouts, dc: nat, media: bool, ip: string) returns (steps: seq<Step>)
    requires t.wsFail > 0
    ensures IsRun(t, START, steps) && Flipped(After(t, START, steps), 1) && After(t, START, steps).history == []
  {
    var failed := WsAttempt(false, false, false, false);
    var first, second := Probe(1, dc, media, ip), Probe(2, dc, media, ip);
    var s1 := Do(t, START, first);
    var s2 := Do(t, s1, second);
    var s3 := Do(t, s2, Budget(2));
    assert s3.attempts[2] == Dialling(dc, media, ip, false, false);
    var s4 := Do(t, s3, End(2, failed));
    assert Flipped(s4, 1) && s4.history == [];
    assert Enabled(START, first) && Enabled(s1, second) && Enabled(s2, Budget(2)) && Enabled(s3, End(2, failed));
    hide Do, Enabled, IsRun, After, Flipped;
    RunOne(t, s3, End(2, failed));
    RunCons(t, s2, Budget(2), [End(2, failed)]);
    RunCons(t, s1, second, [Budget(2)] + [End(2, failed)]);
    steps := [second] + ([Budget(2)] + [End(2, failed)]);
    RunCons(t, START, first, steps);
    steps := [first] + steps;
  }

  lemma RunOne(t: Timeouts, s: State, step: Step)
    requires Enabled(s, step)
    ensures IsRun(t, s, [step]) && After(t, s, [step]) == Do(t, s, step)
  {
    assert [step][1..] == [];
  }

  lemma RunCons(t: Timeouts, s: State, step: Step, steps: seq<Step>)
    requires Enabled(s, step) && IsRun(t, Do(t, s, step), steps)
    ensures IsRun(t, s, [step] + steps) && After(t, s, [step] + steps) == After(t, Do(t, s, step), steps)
  {
    assert ([step] + steps)[1..] == steps;
  }
}
