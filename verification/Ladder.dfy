/** How one client connection finds its upstream: the default and the pinned ladder (src/proxy.rs). */
module Ladder {
  import opened Bytes
  import opened Cooldowns
  import opened Network
  import opened Rotation
  import opened CfDial
  import CfPool
  import Framing

  datatype Tier = Ws | Cfworker | Cfproxy | Mtproto | Tcp

  /** The upstream a connection ends up with. */
  datatype Link = ViaWs(framing: Framing.WsFraming) | ViaMtproto(address: string) | ViaTcp(dst: string)

  datatype Config = Config(
    workers: seq<string>, cfDomains: seq<string>, proxies: seq<string>,
    balance: bool, opts: Opts, timeouts: Timeouts)

  /** One connection: its DC, the DC number of its WebSocket records, and the built-in address of the DC. */
  datatype Route = Route(config: Config, dc: nat, wsDc: nat, media: bool, fallback: Option<string>)

  function OrElse<T>(a: Option<T>, b: Option<T>): Option<T> { if a.Some? then a else b }

  /** Where raw TCP and Worker tunnels go: the built-in address first. */
  function Address(route: Route, target: Option<string>): Option<string> { OrElse(route.fallback, target) }

  // ----- A list of names with cooldowns -----------------------------------

  /** Whether Workers or upstream proxies are visited, and whether through their cooldowns. */
  datatype Kind = Kind(worker: bool, force: bool, opts: Opts, timeouts: Timeouts)

  function Workers(route: Route, force: bool): Kind { Kind(true, force, route.config.opts, route.config.timeouts) }

  function Proxies(route: Route, force: bool): Kind { Kind(false, force, route.config.opts, route.config.timeouts) }

  function Named(k: Kind, name: string): Subject { if k.worker then Worker(name) else Upstream(name) }

  /** What happened to one Worker or upstream proxy. */
  datatype Visit = Skipped(name: string) | ViaCf(name: string, t: CfTry) | ViaDial(name: string, result: WsResult)

  ghost predicate VisitWon(v: Visit) {
    match v
    case Skipped(_) => false
    case ViaCf(_, t) => Won(t.results)
    case ViaDial(_, result) => result.Connected?
  }

  ghost predicate VisitOk(k: Kind, v: Visit) {
    match v
    case Skipped(_) => !k.force
    case ViaCf(name, t) => k.worker && TryOk(k.opts, name, t)
    case ViaDial(_, _) => !k.worker
  }

  /** A forced visit does not look at the cooldown. */
  function LookLog(k: Kind, name: string): seq<Event> { if k.force then [] else [Looked(Named(k, name), false)] }

  /** Success clears the cooldown, failure sets it. */
  function OutcomeLog(k: Kind, name: string, won: bool): seq<Event> {
    [Noted(NameNote(k.timeouts, k.worker, name, won))]
  }

  ghost function VisitLog(k: Kind, v: Visit): seq<Event>
    requires VisitOk(k, v)
  {
    match v
    case Skipped(name) => [Looked(Named(k, name), true)]
    case ViaCf(name, t) => LookLog(k, name) + TryLog(k.opts, name, t) + OutcomeLog(k, name, Won(t.results))
    case ViaDial(name, result) => LookLog(k, name) + [Dialled(name, name, result)] + OutcomeLog(k, name, result.Connected?)
  }

  /** A tour of the first names, in order. */
  ghost predicate Touring(k: Kind, names: seq<string>, visits: seq<Visit>) {
    && |visits| <= |names|
    && forall i :: 0 <= i < |visits| ==> visits[i].name == names[i] && VisitOk(k, visits[i])
  }

  ghost predicate Lost(visits: seq<Visit>) { forall i :: 0 <= i < |visits| ==> !VisitWon(visits[i]) }

  /** It stops at the first success, and otherwise visits every name. */
  ghost predicate Toured(k: Kind, names: seq<string>, visits: seq<Visit>, won: bool) {
    && Touring(k, names, visits)
    && if won then visits != [] && Lost(visits[..|visits| - 1]) && VisitWon(visits[|visits| - 1])
       else |visits| == |names| && Lost(visits)
  }

  ghost function TourLog(k: Kind, visits: seq<Visit>): seq<Event>
    requires forall i :: 0 <= i < |visits| ==> VisitOk(k, visits[i])
  {
    if visits == [] then []
    else
      var n := |visits| - 1;
      TourLog(k, visits[..n]) + VisitLog(k, visits[n])
  }

  lemma VisitMore(k: Kind, names: seq<string>, visits: seq<Visit>, v: Visit)
    requires Touring(k, names, visits) && |visits| < |names| && v.name == names[|visits|] && VisitOk(k, v) && Lost(visits)
    ensures Touring(k, names, visits + [v])
    ensures if VisitWon(v) then Toured(k, names, visits + [v], true) else Lost(visits + [v])
    ensures TourLog(k, visits + [v]) == TourLog(k, visits) + VisitLog(k, v)
  {
    hide VisitOk, VisitWon, VisitLog;
    assert (visits + [v])[..|visits|] == visits;
  }

  /** The most one visit may dial. */
  function KindWidth(k: Kind): nat { if k.worker then Width(k.opts) else 1 }

  lemma VisitDials(k: Kind, v: Visit)
    requires VisitOk(k, v)
    ensures v.Skipped? ==> DialCount(VisitLog(k, v)) == 0
    ensures !v.Skipped? ==> 1 <= DialCount(VisitLog(k, v)) <= KindWidth(k)
  {
    hide DialCount, TryLog, Plan;
    match v {
      case Skipped(name) => NoDials(VisitLog(k, v));
      case ViaCf(name, t) =>
        TryDials(k.opts, name, t);
        ThreeParts(LookLog(k, name), TryLog(k.opts, name, t), OutcomeLog(k, name, Won(t.results)));
      case ViaDial(name, result) =>
        OneDial([Dialled(name, name, result)]);
        ThreeParts(LookLog(k, name), [Dialled(name, name, result)], OutcomeLog(k, name, result.Connected?));
    }
  }

  /** Only the middle part dials. */
  lemma ThreeParts(a: seq<Event>, b: seq<Event>, c: seq<Event>)
    requires forall i :: 0 <= i < |a| ==> !a[i].Dialled?
    requires forall i :: 0 <= i < |c| ==> !c[i].Dialled?
    ensures DialCount(a + b + c) == DialCount(b)
  {
    NoDials(a);
    NoDials(c);
    DialCountAppend(a, b);
    DialCountAppend(a + b, c);
    hide DialCount;
  }

  /** A forced tour dials; one that did not dial has skipped every name. */
  lemma {:induction false} TourDials(k: Kind, names: seq<string>, visits: seq<Visit>)
    requires Touring(k, names, visits)
    ensures DialCount(TourLog(k, visits)) <= |visits| * KindWidth(k)
    ensures DialCount(TourLog(k, visits)) == 0 <==> forall i :: 0 <= i < |visits| ==> visits[i].Skipped?
    decreases |visits|
  {
    hide DialCount, VisitOk, VisitLog, KindWidth;
    if visits == [] {
      NoDials(TourLog(k, visits));
    } else {
      var n := |visits| - 1;
      assert TourLog(k, visits) == TourLog(k, visits[..n]) + VisitLog(k, visits[n]);
      hide TourLog;
      TourDials(k, names, visits[..n]);
      VisitDials(k, visits[n]);
      DialCountAppend(TourLog(k, visits[..n]), VisitLog(k, visits[n]));
      TimesSucc(n, KindWidth(k));
    }
  }

  /** Every name that was skipped was looked at and found cooling; unforced, every name that was tried was found clear. */
  lemma {:induction false} VisitsJustified(k: Kind, visits: seq<Visit>, i: nat)
    requires (forall j :: 0 <= j < |visits| ==> VisitOk(k, visits[j])) && i < |visits|
    ensures visits[i].Skipped? ==> !k.force && Looked(Named(k, visits[i].name), true) in TourLog(k, visits)
    ensures !visits[i].Skipped? && !k.force ==> Looked(Named(k, visits[i].name), false) in TourLog(k, visits)
    decreases |visits|
  {
    var n := |visits| - 1;
    var before, last := TourLog(k, visits[..n]), VisitLog(k, visits[n]);
    assert TourLog(k, visits) == before + last;
    if i < n {
      VisitsJustified(k, visits[..n], i);
      hide TourLog, VisitLog;
    } else {
      hide TryLog;
      assert visits[n].Skipped? ==> last[0] == Looked(Named(k, visits[n].name), true);
      assert !visits[n].Skipped? && !k.force ==> last[0] == Looked(Named(k, visits[n].name), false);
      hide TourLog, VisitLog;
    }
  }

  // ----- What an attempt leaves behind ------------------------------------

  /** Event `d` is the last dial on behalf of `name` before event `p`, which notes how it ended. */
  ghost predicate Settled(log: seq<Event>, name: string, d: int, p: int, succeeded: Note, failed: Note) {
    && 0 <= d < p < |log| && log[d].Dialled? && log[d].host == name && (forall i :: d < i < p ==> !log[i].Dialled?)
    && log[p] == Noted(if log[d].result.Connected? then succeeded else failed)
  }

  lemma SettledThen(a: seq<Event>, b: seq<Event>, name: string, d: int, p: int, succeeded: Note, failed: Note)
    requires Settled(a, name, d, p, succeeded, failed)
    ensures Settled(a + b, name, d, p, succeeded, failed)
  {
    var log := a + b;
    assert forall i :: 0 <= i < |a| ==> log[i] == a[i];
  }

  lemma SettledAfter(a: seq<Event>, b: seq<Event>, name: string, d: int, p: int, succeeded: Note, failed: Note)
    requires Settled(b, name, d, p, succeeded, failed)
    ensures Settled(a + b, name, |a| + d, |a| + p, succeeded, failed)
  {
    var log := a + b;
    assert log[|a| + d] == b[d] && log[|a| + p] == b[p];
    forall i | |a| + d < i < |a| + p ensures !log[i].Dialled? {
      assert log[i] == b[i - |a|];
    }
  }

  /** Dials, the last of them at `d`, and one note after them. */
  lemma SettledOne(look: seq<Event>, dials: seq<Event>, d: nat, name: string, succeeded: Note, failed: Note)
    requires d < |dials| && dials[d].Dialled? && dials[d].host == name && forall i :: d < i < |dials| ==> !dials[i].Dialled?
    ensures var note := if dials[d].result.Connected? then succeeded else failed;
            Settled(look + dials + [Noted(note)], name, |look| + d, |look| + |dials|, succeeded, failed)
  {
    var note := Noted(if dials[d].result.Connected? then succeeded else failed);
    assert Settled(dials + [note], name, d, |dials|, succeeded, failed);
    SettledAfter(look, dials + [note], name, d, |dials|, succeeded, failed);
    Assoc(look, dials, [note]);
  }

  function NameCleared(k: Kind, name: string): Note { if k.worker then Clear(Worker(name)) else Clear(Upstream(name)) }

  function NameCooled(k: Kind, name: string): Note {
    if k.worker then Cool(Worker(name), k.timeouts.cfFail) else Cool(Upstream(name), k.timeouts.upstreamFail)
  }

  ghost predicate VisitSettles(k: Kind, log: seq<Event>, v: Visit, d: int, p: int) {
    Settled(log, v.name, d, p, NameCleared(k, v.name), NameCooled(k, v.name))
  }

  lemma VisitSettled(k: Kind, v: Visit) returns (d: int, p: int)
    requires VisitOk(k, v) && !v.Skipped?
    ensures VisitSettles(k, VisitLog(k, v), v, d, p)
  {
    hide TryLog, TryOk, Settled;
    if v.ViaCf? {
      var last := TryLastDial(k.opts, v.name, v.t);
      SettledOne(LookLog(k, v.name), TryLog(k.opts, v.name, v.t), last, v.name, NameCleared(k, v.name), NameCooled(k, v.name));
      d, p := |LookLog(k, v.name)| + last, |LookLog(k, v.name)| + |TryLog(k.opts, v.name, v.t)|;
    } else {
      SettledOne(LookLog(k, v.name), [Dialled(v.name, v.name, v.result)], 0, v.name, NameCleared(k, v.name), NameCooled(k, v.name));
      d, p := |LookLog(k, v.name)|, |LookLog(k, v.name)| + 1;
    }
  }

  /** Visit `v` lies in the first or in the second part of a log. */
  lemma SettlesIn(k: Kind, a: seq<Event>, b: seq<Event>, v: Visit, d: int, p: int, second: bool)
    requires VisitSettles(k, if second then b else a, v, d, p)
    ensures if second then VisitSettles(k, a + b, v, |a| + d, |a| + p) else VisitSettles(k, a + b, v, d, p)
  {
    if second {
      SettledAfter(a, b, v.name, d, p, NameCleared(k, v.name), NameCooled(k, v.name));
    } else {
      SettledThen(a, b, v.name, d, p, NameCleared(k, v.name), NameCooled(k, v.name));
    }
  }

  lemma {:induction false} TourSettles(k: Kind, visits: seq<Visit>, v: Visit) returns (d: int, p: int)
    requires (forall j :: 0 <= j < |visits| ==> VisitOk(k, visits[j])) && v in visits && !v.Skipped?
    ensures VisitSettles(k, TourLog(k, visits), v, d, p)
    decreases |visits|
  {
    hide VisitLog, VisitOk, VisitSettles;
    var n := |visits| - 1;
    var before := TourLog(k, visits[..n]);
    if v == visits[n] {
      d, p := VisitSettled(k, v);
      SettlesIn(k, before, VisitLog(k, v), v, d, p, true);
      d, p := |before| + d, |before| + p;
    } else {
      d, p := TourSettles(k, visits[..n], v);
      SettlesIn(k, before, VisitLog(k, visits[n]), v, d, p, false);
    }
  }

  /** Every name that was tried has its outcome noted right after its last dial: cleared if that dial connected, cooled if not. */
  ghost predicate AllSettled(log: seq<Event>, visits: seq<Visit>, worker: bool, cooldown: nat) {
    forall i :: 0 <= i < |visits| && !visits[i].Skipped? ==>
      var name := visits[i].name;
      if worker then exists d, p :: Settled(log, name, d, p, Clear(Worker(name)), Cool(Worker(name), cooldown))
      else exists d, p :: Settled(log, name, d, p, Clear(Upstream(name)), Cool(Upstream(name), cooldown))
  }

  lemma TourSettled(k: Kind, visits: seq<Visit>)
    requires forall j :: 0 <= j < |visits| ==> VisitOk(k, visits[j])
    ensures AllSettled(TourLog(k, visits), visits, k.worker, if k.worker then k.timeouts.cfFail else k.timeouts.upstreamFail)
  {
    hide TourLog, VisitOk, Settled;
    var log, cooldown := TourLog(k, visits), if k.worker then k.timeouts.cfFail else k.timeouts.upstreamFail;
    forall i | 0 <= i < |visits| && !visits[i].Skipped?
      ensures var name := visits[i].name;
              if k.worker then exists d, p :: Settled(log, name, d, p, Clear(Worker(name)), Cool(Worker(name), cooldown))
              else exists d, p :: Settled(log, name, d, p, Clear(Upstream(name)), Cool(Upstream(name), cooldown))
    {
      var d, p := TourSettles(k, visits, visits[i]);
    }
  }

  /** The names were visited in their order, up to the first that answered or to the end. */
  ghost predicate InOrder(names: seq<string>, visits: seq<Visit>, won: bool) {
    && |visits| <= |names| && (forall i :: 0 <= i < |visits| ==> visits[i].name == names[i])
    && (forall i :: 0 <= i < |visits| ==> (Answers(visits[i]) <==> won && i == |visits| - 1))
    && (!won ==> |visits| == |names|)
  }

  /** The last dial of the visit connected. */
  ghost predicate Answers(v: Visit) {
    || (v.ViaDial? && v.result == Connected)
    || (v.ViaCf? && v.t.results != [] && v.t.results[|v.t.results| - 1] == Connected)
  }

  lemma TourInOrder(k: Kind, names: seq<string>, visits: seq<Visit>, won: bool)
    requires Toured(k, names, visits, won)
    ensures InOrder(names, visits, won)
  {
    hide VisitOk;
    forall i | 0 <= i < |visits| ensures Answers(visits[i]) <==> VisitWon(visits[i]) {
    }
    if won {
      var before := visits[..|visits| - 1];
      forall i | 0 <= i < |visits| - 1 ensures !VisitWon(visits[i]) {
        assert before[i] == visits[i];
      }
    }
    hide Answers, VisitWon;
  }

  method VisitWorkers(net: Net, route: Route, names: seq<string>, force: bool) returns (won: bool, answered: string, ghost visits: seq<Visit>)
    requires net.Valid()
    modifies net, net.cooldowns
    ensures net.Valid() && Toured(Workers(route, force), names, visits, won)
    ensures net.log == old(net.log) + TourLog(Workers(route, force), visits)
    ensures AllSettled(net.log[|old(net.log)|..], visits, true, route.config.timeouts.cfFail)
    ensures InOrder(names, visits, won)
    ensures won ==> answered == visits[|visits| - 1].name
  {
    ghost var k := Workers(route, force);
    hide TourLog, Toured, Touring, Lost, TryOk, TryLog, Verdict, Truthful, AllSettled, InOrder;
    visits, answered := [], "";
    NoVisits(k, names);
    for i := 0 to |names|
      invariant net.Valid() && |visits| == i && Touring(k, names, visits) && Lost(visits)
      invariant forall j :: 0 <= j < |visits| ==> VisitOk(k, visits[j])
      invariant net.log == old(net.log) + TourLog(k, visits)
    {
      var name := names[i];
      ghost var start := net.log;
      if !force {
        var cooling := net.Active(Worker(name));
        if cooling {
          VisitMore(k, names, visits, Skipped(name));
          Assoc(old(net.log), TourLog(k, visits), VisitLog(k, Skipped(name)));
          visits := visits + [Skipped(name)];
          continue;
        }
      }
      assert net.log == start + LookLog(k, name);
      var r, t := ConnectCf(net, name, route.config.opts);
      TryVerdict(route.config.opts, name, t);
      net.Record(if r.Connected? then Clear(Worker(name)) else Cool(Worker(name), route.config.timeouts.cfFail));
      ghost var v := ViaCf(name, t);
      Assoc(start, LookLog(k, name), TryLog(k.opts, name, t));
      Assoc(start, LookLog(k, name) + TryLog(k.opts, name, t), OutcomeLog(k, name, Won(t.results)));
      assert net.log == start + VisitLog(k, v);
      VisitMore(k, names, visits, v);
      Assoc(old(net.log), TourLog(k, visits), VisitLog(k, v));
      visits := visits + [v];
      if r.Connected? {
        TourSettled(k, visits);
        TourInOrder(k, names, visits, true);
        return true, name, visits;
      }
    }
    won := false;
    AllVisited(k, names, visits);
    TourSettled(k, visits);
    TourInOrder(k, names, visits, false);
  }

  lemma NoVisits(k: Kind, names: seq<string>)
    ensures Touring(k, names, []) && Lost([]) && TourLog(k, []) == []
  {
  }

  lemma AllVisited(k: Kind, names: seq<string>, visits: seq<Visit>)
    requires Touring(k, names, visits) && Lost(visits) && |visits| == |names|
    ensures Toured(k, names, visits, false)
  {
  }

  lemma TryVerdict(o: Opts, host: string, t: CfTry)
    requires TryOk(o, host, t)
    ensures t.results != [] && |t.dialed| == |t.results| && (Verdict(t.results).Connected? <==> Won(t.results))
  {
    VerdictConnected(t.results);
  }

  method VisitProxies(net: Net, route: Route, force: bool) returns (won: bool, answered: string, ghost visits: seq<Visit>)
    requires net.Valid()
    modifies net, net.cooldowns
    ensures net.Valid() && Toured(Proxies(route, force), route.config.proxies, visits, won)
    ensures net.log == old(net.log) + TourLog(Proxies(route, force), visits)
    ensures AllSettled(net.log[|old(net.log)|..], visits, false, route.config.timeouts.upstreamFail)
    ensures InOrder(route.config.proxies, visits, won)
    ensures won ==> answered == visits[|visits| - 1].name
  {
    ghost var k := Proxies(route, force);
    var names := route.config.proxies;
    hide TourLog, Toured, Touring, Lost, Truthful, AllSettled, InOrder;
    visits, answered := [], "";
    NoVisits(k, names);
    for i := 0 to |names|
      invariant net.Valid() && |visits| == i && Touring(k, names, visits) && Lost(visits)
      invariant forall j :: 0 <= j < |visits| ==> VisitOk(k, visits[j])
      invariant net.log == old(net.log) + TourLog(k, visits)
    {
      var name := names[i];
      ghost var start := net.log;
      if !force {
        var cooling := net.Active(Upstream(name));
        if cooling {
          VisitMore(k, names, visits, Skipped(name));
          Assoc(old(net.log), TourLog(k, visits), VisitLog(k, Skipped(name)));
          visits := visits + [Skipped(name)];
          continue;
        }
      }
      assert net.log == start + LookLog(k, name);
      var r := net.Dial(name, name);
      net.Record(if r.Connected? then Clear(Upstream(name)) else Cool(Upstream(name), route.config.timeouts.upstreamFail));
      ghost var v := ViaDial(name, r);
      Assoc(start, LookLog(k, name), [Dialled(name, name, r)]);
      Assoc(start, LookLog(k, name) + [Dialled(name, name, r)], OutcomeLog(k, name, r.Connected?));
      assert net.log == start + VisitLog(k, v);
      VisitMore(k, names, visits, v);
      Assoc(old(net.log), TourLog(k, visits), VisitLog(k, v));
      visits := visits + [v];
      if r.Connected? {
        TourSettled(k, visits);
        TourInOrder(k, names, visits, true);
        return true, name, visits;
      }
    }
    won := false;
    AllVisited(k, names, visits);
    TourSettled(k, visits);
    TourInOrder(k, names, visits, false);
  }

  // ----- Rungs ------------------------------------------------------------

  /**
    What a visit of a tier did.  `Unable` is a tier without configuration or
    destination; the others did exactly what `RungLog` lists.
   */
  datatype How =
    | Unable
    | Direct(ip: string, vetoed: bool, hit: bool, probing: bool, short: bool, tried: seq<string>, results: seq<WsResult>)
    | WorkerTour(hit: bool, count: nat, visits: seq<Visit>, next: nat)
    | RecordWalk(count: nat, hit: bool, once: seq<bool>, tried: seq<string>, tries: seq<CfTry>, winner: Option<string>, next: nat)
    | ProxyTour(visits: seq<Visit>)
    | Raw

  datatype Rung = Rung(tier: Tier, won: bool, how: How)

  /** A direct attempt: two looks at the DC's cooldown, the dials, and the notes about DC and address. */
  ghost function DirectWsLog(route: Route, ip: string, probing: bool, short: bool, tried: seq<string>, results: seq<WsResult>): seq<Event>
    requires |tried| == |results|
  {
    var key, a := WsDc(route.dc, route.media), Summary(results);
    [Looked(key, probing), Looked(key, short)] + DirectLog(ip, tried, results) + DirectNotes(route, ip, probing, a)
  }

  function NoteLog(notes: seq<Note>): (r: seq<Event>)
    ensures |r| == |notes|
  {
    seq(|notes|, i requires 0 <= i < |notes| => Noted(notes[i]))
  }

  /** The order in which Workers are visited: from the rotation's turn. */
  function WorkerOrder(route: Route, count: nat): seq<string> {
    Rotated(route.config.workers, OffsetOf(|route.config.workers|, route.config.balance, count))
  }

  /** The records to try: from the rotation's turn, without repetitions. */
  function RecordOrder(route: Route, count: nat): seq<string> {
    Records(route.dc, Distinct(Rotated(route.config.cfDomains, OffsetOf(|route.config.cfDomains|, route.config.balance, count))))
  }

  ghost predicate HowOk(route: Route, target: Option<string>, tier: Tier, force: bool, won: bool, how: How) {
    match tier
    case Ws =>
      if target.None? then how == Unable && !won
      else
        && how.Direct? && how.ip == target.value
        && if how.hit then won else Follows(how.tried, WsDomains(route.wsDc, route.media), how.results) && won == Won(how.results)
    case Cfworker =>
      if route.config.workers == [] || Address(route, target).None? then how == Unable && !won
      else how.WorkerTour? && if how.hit then won else Toured(Workers(route, force), WorkerOrder(route, how.count), how.visits, won)
    case Cfproxy =>
      if route.config.cfDomains == [] then how == Unable && !won
      else
        && how.RecordWalk?
        && if how.hit then won else WalkOk(route, how) && won == how.winner.Some?
    case Mtproto => how.ProxyTour? && Toured(Proxies(route, force), route.config.proxies, how.visits, won)
    case Tcp => if Address(route, target).None? then how == Unable && !won else how == Raw && won
  }

  ghost predicate WalkOk(route: Route, how: How)
    requires how.RecordWalk?
  {
    && TriesOk(route.config.opts, how.tried, how.tries)
    && (forall t :: t in how.tries ==> t.results != [] && |t.dialed| == |t.results|)
    && Walked(RecordOrder(route, how.count), how.once, how.tried, Verdicts(how.tries), how.winner)
  }

  ghost function RungLog(route: Route, target: Option<string>, force: bool, r: Rung): seq<Event>
    requires HowOk(route, target, r.tier, force, r.won, r.how)
  {
    match r.how
    case Unable => []
    case Direct(ip, vetoed, hit, probing, short, tried, results) =>
      [Looked(DcIp(ip), vetoed), PoolLook(hit)]
      + if hit then [] else DirectWsLog(route, ip, probing, short, tried, results)
    case WorkerTour(hit, count, visits, next) =>
      [PoolLook(hit)] + if hit then [] else WorkerLog(route, force, r.won, count, visits, next)
    case RecordWalk(count, hit, once, tried, tries, winner, next) =>
      TurnLog(route, CfCounter, count) + [PoolLook(hit)]
      + if hit then [] else TriesLog(route.config.opts, tried, tries) + if r.won then TurnLog(route, CfCounter, next) else []
    case ProxyTour(visits) => TourLog(Proxies(route, force), visits)
    case Raw => []
  }

  /** One turn of a rotation; none is taken when there is nothing to balance. */
  function TurnLog(route: Route, counter: Counter, value: nat): seq<Event> {
    CountLog(counter, if counter == WorkerCounter then |route.config.workers| else |route.config.cfDomains|, route.config.balance, value)
  }

  ghost function WorkerLog(route: Route, force: bool, won: bool, count: nat, visits: seq<Visit>, next: nat): seq<Event>
    requires forall i :: 0 <= i < |visits| ==> VisitOk(Workers(route, force), visits[i])
  {
    TurnLog(route, WorkerCounter, count) + TourLog(Workers(route, force), visits) + if won then TurnLog(route, WorkerCounter, next) else []
  }

  /** Tunnel framing exactly for Workers, and raw TCP to the preferred address. */
  ghost predicate Fits(route: Route, target: Option<string>, r: Rung, link: Link) {
    match r.tier
    case Ws => link == ViaWs(Framing.Packets)
    case Cfworker => link == ViaWs(Framing.Tunnel)
    case Cfproxy => link == ViaWs(Framing.Packets)
    case Mtproto =>
      link.ViaMtproto? && r.how.ProxyTour? && r.how.visits != [] && link.address == r.how.visits[|r.how.visits| - 1].name
    case Tcp => link.ViaTcp? && Address(route, target) == Some(link.dst)
  }

  /** Tier `tier` was visited, did what its description says, and won exactly if there is a link. */
  ghost predicate RungOk(route: Route, target: Option<string>, tier: Tier, force: bool, link: Option<Link>, r: Rung) {
    && r.tier == tier && HowOk(route, target, tier, force, r.won, r.how)
    && (link.Some? <==> r.won) && (link.Some? ==> Fits(route, target, r, link.value))
  }

  // ----- The tiers --------------------------------------------------------

  ghost function DirectNotes(route: Route, ip: string, probing: bool, a: WsAttempt): seq<Event> {
    [Noted(DcNote(route.config.timeouts, route.dc, route.media, a))] + NoteLog(IpNotes(route.config.timeouts, ip, probing, a))
  }

  /** What a direct attempt says about its DC and its address. */
  method RecordDirect(net: Net, route: Route, ip: string, probing: bool, a: WsAttempt)
    requires net.Valid()
    modifies net, net.cooldowns
    ensures net.Valid() && net.log == old(net.log) + DirectNotes(route, ip, probing, a)
  {
    hide Truthful;
    var t, key := route.config.timeouts, WsDc(route.dc, route.media);
    if a.connected {
      net.Record(Clear(key));
      net.Record(Clear(DcIp(ip)));
    } else {
      net.Record(Cool(key, if a.allRedirects then t.wsRedirect else t.wsFail));
      if a.connectTimedOut && !probing {
        net.Record(Cool(DcIp(ip), t.ipFail));
      }
    }
  }

  /** A fresh direct WebSocket.  The DC's cooldown is looked at twice: for the verdict on the address, and for the timeout. */
  method DirectWs(net: Net, route: Route, ip: string)
    returns (won: bool, ghost probing: bool, ghost short: bool, ghost tried: seq<string>, ghost results: seq<WsResult>)
    requires net.Valid()
    modifies net, net.cooldowns
    ensures net.Valid() && Follows(tried, WsDomains(route.wsDc, route.media), results) && won == Won(results)
    ensures net.log == old(net.log) + DirectWsLog(route, ip, probing, short, tried, results)
  {
    hide Truthful, WsDomains, AllRedirects, DirectNotes, DirectLog;
    var key := WsDc(route.dc, route.media);
    var inCooldown := net.Active(key);
    var shortened := net.Active(key);
    probing, short := inCooldown, shortened;
    var a;
    a, tried, results := ConnectDirect(net, ip, route.wsDc, route.media);
    RecordDirect(net, route, ip, inCooldown, a);
    won := a.connected;
    ghost var looks := [Looked(key, inCooldown), Looked(key, shortened)];
    Assoc(old(net.log), looks, DirectLog(ip, tried, results));
    Assoc(old(net.log), looks + DirectLog(ip, tried, results), DirectNotes(route, ip, inCooldown, a));
  }

  /** The direct rung: a pooled connection, or a fresh one. */
  method DirectWsTier(net: Net, route: Route, target: Option<string>, ghost force: bool) returns (link: Option<Link>, ghost r: Rung)
    requires net.Valid()
    modifies net, net.cooldowns
    ensures net.Valid() && RungOk(route, target, Ws, force, link, r)
    ensures net.log == old(net.log) + RungLog(route, target, force, r)
  {
    hide Truthful, DirectWsLog, WsDomains;
    if target.None? {
      return None, Rung(Ws, false, Unable);
    }
    var ip := target.value;
    var vetoed := net.Active(DcIp(ip));
    var hit := net.PoolGet();
    if hit {
      return Some(ViaWs(Framing.Packets)), Rung(Ws, true, Direct(ip, vetoed, true, false, false, [], []));
    }
    var won, probing, short, tried, results := DirectWs(net, route, ip);
    Assoc(old(net.log), [Looked(DcIp(ip), vetoed), PoolLook(false)], DirectWsLog(route, ip, probing, short, tried, results));
    r := Rung(Ws, won, Direct(ip, vetoed, false, probing, short, tried, results));
    link := if won then Some(ViaWs(Framing.Packets)) else None;
  }

  /** The domain of the spare: the one that answered, or the next in the rotation. */
  method NextSpare(net: Net, route: Route, counter: Counter, answered: string) returns (spare: string, ghost next: nat)
    requires net.Valid() && counter != EdgeCounter
    requires (if counter == WorkerCounter then route.config.workers else route.config.cfDomains) != []
    modifies net, net.cooldowns
    ensures net.Valid() && net.log == old(net.log) + TurnLog(route, counter, next)
    ensures var all := if counter == WorkerCounter then route.config.workers else route.config.cfDomains;
            if route.config.balance then spare == all[if |all| > 1 then next % |all| else 0] else spare == answered
  {
    hide Truthful, Rotated;
    next := 0;
    if !route.config.balance {
      return answered, 0;
    }
    var all := if counter == WorkerCounter then route.config.workers else route.config.cfDomains;
    var offset;
    offset, next := net.Offset(counter, |all|, true);
    spare := Rotated(all, offset)[0];
    RotatedAt(all, offset);
  }

  /**
    The Worker rung: a pooled tunnel, or every Worker in rotation.  `tunnel` is
    where it leads, `spare` the domain to prefetch.
   */
  method CfWorker(net: Net, route: Route, target: Option<string>, dst: Option<string>, force: bool)
    returns (link: Option<Link>, tunnel: Option<string>, spare: Option<string>, ghost r: Rung)
    requires net.Valid() && (dst.Some? <==> Address(route, target).Some?)
    modifies net, net.cooldowns
    ensures net.Valid() && RungOk(route, target, Cfworker, force, link, r)
    ensures net.log == old(net.log) + RungLog(route, target, force, r)
    ensures tunnel == if route.fallback.Some? then route.fallback else dst
    ensures spare.Some? <==> r.won && !r.how.hit
    ensures spare.Some? ==> spare.value in route.config.workers
                            && (!route.config.balance ==> spare.value == r.how.visits[|r.how.visits| - 1].name)
  {
    hide Truthful, Toured, TourLog, Rotated, AllSettled, InOrder;
    var workers := route.config.workers;
    tunnel := OrElse(route.fallback, dst);
    if workers == [] || dst.None? {
      return None, tunnel, None, Rung(Cfworker, false, Unable);
    }
    var hit := net.PoolGet();
    if hit {
      return Some(ViaWs(Framing.Tunnel)), tunnel, None, Rung(Cfworker, true, WorkerTour(true, 0, [], 0));
    }
    ghost var start := net.log;
    var offset, count := net.Offset(WorkerCounter, |workers|, route.config.balance);
    var won, answered, visits := VisitWorkers(net, route, Rotated(workers, offset), force);
    ghost var next := 0;
    spare := None;
    TourShape(Workers(route, force), Rotated(workers, offset), visits, won);
    if won {
      WorkerListed(route, offset, visits[|visits| - 1].name);
      var domain;
      domain, next := NextSpare(net, route, WorkerCounter, answered);
      spare := Some(domain);
    }
    WorkerAssoc(start, route, force, won, count, visits, next, net.log);
    Assoc(old(net.log), [PoolLook(false)], WorkerLog(route, force, won, count, visits, next));
    r := Rung(Cfworker, won, WorkerTour(false, count, visits, next));
    link := if won then Some(ViaWs(Framing.Tunnel)) else None;
  }

  lemma TourShape(k: Kind, names: seq<string>, visits: seq<Visit>, won: bool)
    requires Toured(k, names, visits, won)
    ensures forall i :: 0 <= i < |visits| ==> VisitOk(k, visits[i])
    ensures won ==> visits != [] && visits[|visits| - 1].name in names
  {
    hide VisitOk, VisitWon;
  }

  lemma WorkerListed(route: Route, offset: nat, name: string)
    requires name in Rotated(route.config.workers, offset)
    ensures name in route.config.workers
  {
    RotatedMembers(route.config.workers, offset, name);
  }

  lemma WorkerAssoc(start: seq<Event>, route: Route, force: bool, won: bool, count: nat, visits: seq<Visit>, next: nat, log: seq<Event>)
    requires forall i :: 0 <= i < |visits| ==> VisitOk(Workers(route, force), visits[i])
    requires log == start + TurnLog(route, WorkerCounter, count) + TourLog(Workers(route, force), visits)
                    + (if won then TurnLog(route, WorkerCounter, next) else [])
    ensures log == start + WorkerLog(route, force, won, count, visits, next)
  {
    hide TurnLog, TourLog, VisitOk;
    var a, b, c := TurnLog(route, WorkerCounter, count), TourLog(Workers(route, force), visits), if won then TurnLog(route, WorkerCounter, next) else [];
    Assoc(start, a, b);
    Assoc(start, a + b, c);
  }

  /** The Cloudflare proxy rung: a pooled connection, or every record of the DC, with no memory of failures. */
  method CfProxy(net: Net, route: Route, ghost target: Option<string>, ghost force: bool)
    returns (link: Option<Link>, spare: Option<string>, ghost r: Rung)
    requires net.Valid()
    modifies net, net.cooldowns
    ensures net.Valid() && RungOk(route, target, Cfproxy, force, link, r)
    ensures net.log == old(net.log) + RungLog(route, target, force, r)
    ensures spare.Some? <==> r.won && !r.how.hit
    ensures spare.Some? ==> if route.config.balance then spare.value in route.config.cfDomains
                            else spare == r.how.winner && CfPool.Tagged(route.config.cfDomains, route.dc, spare.value)
  {
    hide Truthful, Walked, Rotated, Distinct, Records, TriesLog, TryOk, Verdicts, CfPool.Tagged;
    var domains, o := route.config.cfDomains, route.config.opts;
    if domains == [] {
      return None, None, Rung(Cfproxy, false, Unable);
    }
    var offset, count := net.Offset(CfCounter, |domains|, route.config.balance);
    var hit := net.PoolGet();
    if hit {
      r := Rung(Cfproxy, true, RecordWalk(count, true, [], [], [], None, 0));
      Assoc(old(net.log), TurnLog(route, CfCounter, count), [PoolLook(true)]);
      return Some(ViaWs(Framing.Packets)), None, r;
    }
    ghost var start := net.log;
    var winner, _, tried, tries, once := ConnectCfOrdered(net, route.dc, domains, offset, o);
    ghost var next := 0;
    spare := None;
    if winner.Some? {
      WinnerTagged(route, count, once, tried, Verdicts(tries), winner);
      var domain;
      domain, next := NextSpare(net, route, CfCounter, winner.value);
      spare := Some(domain);
    }
    ghost var tail := TriesLog(o, tried, tries) + if winner.Some? then TurnLog(route, CfCounter, next) else [];
    Assoc(start, TriesLog(o, tried, tries), if winner.Some? then TurnLog(route, CfCounter, next) else []);
    Assoc(old(net.log), TurnLog(route, CfCounter, count), [PoolLook(false)]);
    Assoc(old(net.log), TurnLog(route, CfCounter, count) + [PoolLook(false)], tail);
    r := Rung(Cfproxy, winner.Some?, RecordWalk(count, false, once, tried, tries, winner, next));
    link := if winner.Some? then Some(ViaWs(Framing.Packets)) else None;
  }

  lemma WinnerTagged(route: Route, count: nat, once: seq<bool>, tried: seq<string>, results: seq<WsResult>, winner: Option<string>)
    requires Walked(RecordOrder(route, count), once, tried, results, winner) && winner.Some?
    ensures CfPool.Tagged(route.config.cfDomains, route.dc, winner.value)
  {
    var first := OffsetOf(|route.config.cfDomains|, route.config.balance, count);
    var listed := Distinct(Rotated(route.config.cfDomains, first));
    assert winner.value == Record(route.dc, listed[|once|]);
    DistinctMembers(route.config.cfDomains, first, listed[|once|]);
  }

  /** The upstream MTProto rung. */
  method UpstreamProxies(net: Net, route: Route, ghost target: Option<string>, force: bool) returns (link: Option<Link>, ghost r: Rung)
    requires net.Valid()
    modifies net, net.cooldowns
    ensures net.Valid() && RungOk(route, target, Mtproto, force, link, r)
    ensures net.log == old(net.log) + RungLog(route, target, force, r)
  {
    hide Truthful, Toured, TourLog, AllSettled, InOrder;
    var won, answered, visits := VisitProxies(net, route, force);
    TourShape(Proxies(route, force), route.config.proxies, visits, won);
    r := Rung(Mtproto, won, ProxyTour(visits));
    link := if won then Some(ViaMtproto(answered)) else None;
  }

  // ----- What a rung amounts to -------------------------------------------

  /** The most a tier may dial; raw TCP is dialled by the bridge. */
  function Cost(route: Route, tier: Tier): nat {
    match tier
    case Ws => 2
    case Cfworker => |route.config.workers| * Width(route.config.opts)
    case Cfproxy => 2 * |Elements(route.config.cfDomains)| * Width(route.config.opts)
    case Mtproto => |route.config.proxies|
    case Tcp => 0
  }

  /** Something was really tried: a dial, a pooled connection, or raw TCP for the bridge to dial. */
  ghost predicate Attempted(log: seq<Event>, link: Option<Link>) {
    DialCount(log) > 0 || PoolLook(true) in log || (link.Some? && link.value.ViaTcp?)
  }

  lemma DirectDials(route: Route, target: Option<string>, force: bool, r: Rung)
    requires HowOk(route, target, r.tier, force, r.won, r.how) && r.how.Direct?
    ensures DialCount(RungLog(route, target, force, r)) == if r.how.hit then 0 else |r.how.tried|
    ensures !r.how.hit ==> 1 <= |r.how.tried| <= 2
  {
    var h := r.how;
    var head := [Looked(DcIp(h.ip), h.vetoed), PoolLook(h.hit)];
    hide DialCount;
    if h.hit {
      NoDials(RungLog(route, target, force, r));
    } else {
      var key := WsDc(route.dc, route.media);
      var looks, dials, notes := [Looked(key, h.probing), Looked(key, h.short)], DirectLog(h.ip, h.tried, h.results),
                                 DirectNotes(route, h.ip, h.probing, Summary(h.results));
      DirectLogDials(h.ip, h.tried, h.results);
      ThreeParts(looks, dials, notes);
      NoDials(head);
      DialCountAppend(head, looks + dials + notes);
    }
  }

  /** The pool is asked before anything is dialled; a hit ends the rung without a dial. */
  lemma PoolFirst(route: Route, target: Option<string>, force: bool, r: Rung) returns (p: nat)
    requires HowOk(route, target, r.tier, force, r.won, r.how) && !r.tier.Mtproto? && !r.how.Unable? && !r.how.Raw?
    ensures p < |RungLog(route, target, force, r)| && RungLog(route, target, force, r)[p] == PoolLook(r.how.hit)
    ensures forall i :: 0 <= i < p ==> !RungLog(route, target, force, r)[i].Dialled?
    ensures r.how.hit ==> r.won && p == |RungLog(route, target, force, r)| - 1
  {
    hide TourLog, TriesLog, DirectWsLog, Toured, WalkOk, Follows, WsDomains, WorkerLog;
    var log := RungLog(route, target, force, r);
    match r.how {
      case Direct(_, _, _, _, _, _, _) =>
        p := 1;
      case WorkerTour(_, _, _, _) =>
        p := 0;
      case RecordWalk(count, _, _, _, _, _, _) =>
        p := |TurnLog(route, CfCounter, count)|;
        TurnDials(route, CfCounter, count);
        hide TurnLog;
    }
  }

  /** A miss of the direct pool is followed by two looks at the DC's cooldown and a dial of the address. */
  lemma DirectAfterMiss(route: Route, target: Option<string>, force: bool, r: Rung)
    requires HowOk(route, target, r.tier, force, r.won, r.how) && r.how.Direct? && !r.how.hit
    ensures var log, dc := RungLog(route, target, force, r), WsDc(route.dc, route.media);
            && |log| >= 5 && target.Some?
            && log[..4] == [Looked(DcIp(target.value), r.how.vetoed), PoolLook(false), Looked(dc, r.how.probing), Looked(dc, r.how.short)]
            && log[4] == Dialled(target.value, WsDomains(route.wsDc, route.media)[0], r.how.results[0])
  {
    hide WsDomains, DirectNotes;
    var h := r.how;
    var dials := DirectLog(h.ip, h.tried, h.results);
    assert dials[0] == Dialled(h.ip, h.tried[0], h.results[0]);
  }

  /** A list taken from a rotation's turn on: cut at the turn, the two pieces swapped. */
  ghost predicate FromTurn(all: seq<string>, order: seq<string>, balance: bool, count: nat) {
    var k := if balance && |all| > 1 then count % |all| else 0;
    k <= |all| && order == all[k..] + all[..k]
  }

  lemma RotatedFromTurn(all: seq<string>, balance: bool, count: nat)
    ensures FromTurn(all, Rotated(all, OffsetOf(|all|, balance, count)), balance, count)
  {
    if all != [] {
      hide Rotated;
      RotatedAt(all, OffsetOf(|all|, balance, count));
    } else {
      assert Rotated(all, 0) == [];
    }
  }

  /** Workers are visited from their turn on; the zones are tried from theirs, each once, under the DC's record. */
  lemma OrderFromTurn(route: Route, count: nat) returns (zones: seq<string>)
    ensures FromTurn(route.config.workers, WorkerOrder(route, count), route.config.balance, count)
    ensures FromTurn(route.config.cfDomains, zones, route.config.balance, count)
    ensures RecordOrder(route, count) == Records(route.dc, Distinct(zones))
  {
    hide Rotated, Distinct, Records, FromTurn;
    RotatedFromTurn(route.config.workers, route.config.balance, count);
    RotatedFromTurn(route.config.cfDomains, route.config.balance, count);
    zones := Rotated(route.config.cfDomains, OffsetOf(|route.config.cfDomains|, route.config.balance, count));
  }

  /** Workers and zones have a turn of their own each: the Worker's is taken after the pool was asked, the zones' before. */
  lemma TurnsTaken(route: Route, target: Option<string>, force: bool, r: Rung)
    requires HowOk(route, target, r.tier, force, r.won, r.how) && route.config.balance
    ensures r.how.WorkerTour? && !r.how.hit && |route.config.workers| > 1 ==>
              var log := RungLog(route, target, force, r); |log| >= 2 && log[..2] == [PoolLook(false), Counted(WorkerCounter, r.how.count)]
    ensures r.how.RecordWalk? && |route.config.cfDomains| > 1 ==>
              var log := RungLog(route, target, force, r); |log| >= 2 && log[..2] == [Counted(CfCounter, r.how.count), PoolLook(r.how.hit)]
  {
    hide TourLog, TriesLog, Toured, WalkOk, DirectWsLog, Follows, WsDomains;
  }

  /** The notes of a direct attempt: about the DC, and about the address if there is cause. */
  ghost predicate EndsWith(notes: seq<Event>, t: Timeouts, dc: Subject, ip: string, probing: bool, results: seq<WsResult>)
    requires results != []
  {
    var connected := results[|results| - 1].Connected?;
    && notes != []
    && notes[0] == Noted(if connected then Clear(dc)
                         else if forall i :: 0 <= i < |results| ==> results[i].Redirect? then Cool(dc, t.wsRedirect)
                         else Cool(dc, t.wsFail))
    && notes[1..] == if connected then [Noted(Clear(DcIp(ip)))]
                     else if ConnectTimedOut in results && !probing then [Noted(Cool(DcIp(ip), t.ipFail))]
                     else []
  }

  /** Two looks at the DC's cooldown from event 2 on, then the dials, then the notes. */
  ghost predicate DirectTrace(log: seq<Event>, t: Timeouts, dc: Subject, h: How)
    requires h.Direct?
  {
    var n := |h.tried|;
    && 1 <= n == |h.results| && |log| >= 4 + n && log[2] == Looked(dc, h.probing) && log[3] == Looked(dc, h.short)
    && (forall i :: 0 <= i < n ==> log[4 + i] == Dialled(h.ip, h.tried[i], h.results[i]))
    && EndsWith(log[4 + n..], t, dc, h.ip, h.probing, h.results)
  }

  /** What a direct attempt does and leaves behind. */
  lemma DirectNoted(route: Route, target: Option<string>, force: bool, r: Rung)
    requires HowOk(route, target, r.tier, force, r.won, r.how) && r.how.Direct? && !r.how.hit
    ensures DirectTrace(RungLog(route, target, force, r), route.config.timeouts, WsDc(route.dc, route.media), r.how)
  {
    hide WsDomains, DirectNotes, Summary, DirectLog, EndsWith, DirectTrace, RungLog;
    var h := r.how;
    var head := DirectPieces(route, target, force, r);
    DirectNotesAre(route, h.ip, h.probing, h.results);
    DirectLogAt(h.ip, h.tried, h.results);
    TraceShape(RungLog(route, target, force, r), route.config.timeouts, WsDc(route.dc, route.media), h, head,
               DirectLog(h.ip, h.tried, h.results), DirectNotes(route, h.ip, h.probing, Summary(h.results)));
  }

  lemma DirectLogAt(ip: string, tried: seq<string>, results: seq<WsResult>)
    requires |tried| == |results|
    ensures forall i :: 0 <= i < |tried| ==> DirectLog(ip, tried, results)[i] == Dialled(ip, tried[i], results[i])
  {
  }

  lemma TraceShape(log: seq<Event>, t: Timeouts, dc: Subject, h: How, head: seq<Event>, dials: seq<Event>, notes: seq<Event>)
    requires h.Direct? && 1 <= |h.tried| == |h.results| && EndsWith(notes, t, dc, h.ip, h.probing, h.results)
    requires log == head + dials + notes && |head| == 4 && head[2] == Looked(dc, h.probing) && head[3] == Looked(dc, h.short)
    requires |dials| == |h.tried| && forall i :: 0 <= i < |h.tried| ==> dials[i] == Dialled(h.ip, h.tried[i], h.results[i])
    ensures DirectTrace(log, t, dc, h)
  {
    hide EndsWith;
    InThreeParts(log, head, dials, notes);
  }

  lemma InThreeParts<T>(log: seq<T>, head: seq<T>, middle: seq<T>, tail: seq<T>)
    requires log == head + middle + tail
    ensures |log| == |head| + |middle| + |tail|
    ensures forall i :: 0 <= i < |head| ==> log[i] == head[i]
    ensures forall i :: 0 <= i < |middle| ==> log[|head| + i] == middle[i]
    ensures log[|head| + |middle|..] == tail
  {
  }

  lemma DirectPieces(route: Route, target: Option<string>, force: bool, r: Rung) returns (head: seq<Event>)
    requires HowOk(route, target, r.tier, force, r.won, r.how) && r.how.Direct? && !r.how.hit
    ensures var h, dc := r.how, WsDc(route.dc, route.media);
            && |h.tried| == |h.results|
            && |head| == 4 && head[2] == Looked(dc, h.probing) && head[3] == Looked(dc, h.short)
            && RungLog(route, target, force, r) == head + DirectLog(h.ip, h.tried, h.results) + DirectNotes(route, h.ip, h.probing, Summary(h.results))
  {
    hide WsDomains, DirectNotes, DirectLog, Summary;
    var h, dc := r.how, WsDc(route.dc, route.media);
    var a, b := [Looked(DcIp(h.ip), h.vetoed), PoolLook(false)], [Looked(dc, h.probing), Looked(dc, h.short)];
    Assoc(a, b + DirectLog(h.ip, h.tried, h.results), DirectNotes(route, h.ip, h.probing, Summary(h.results)));
    Assoc(a, b, DirectLog(h.ip, h.tried, h.results));
    head := a + b;
  }

  lemma DirectNotesAre(route: Route, ip: string, probing: bool, results: seq<WsResult>)
    requires results != []
    ensures EndsWith(DirectNotes(route, ip, probing, Summary(results)), route.config.timeouts, WsDc(route.dc, route.media), ip, probing, results)
  {
  }

  lemma TurnDials(route: Route, counter: Counter, value: nat)
    ensures forall i :: 0 <= i < |TurnLog(route, counter, value)| ==> !TurnLog(route, counter, value)[i].Dialled?
  {
  }

  lemma WorkerDials(route: Route, target: Option<string>, force: bool, r: Rung)
    requires HowOk(route, target, r.tier, force, r.won, r.how) && r.how.WorkerTour?
    ensures DialCount(RungLog(route, target, force, r)) == if r.how.hit then 0 else DialCount(TourLog(Workers(route, force), r.how.visits))
  {
    var h := r.how;
    hide DialCount, TourLog, TurnLog, Toured;
    NoDials([PoolLook(h.hit)]);
    if h.hit {
      assert RungLog(route, target, force, r) == [PoolLook(true)];
    } else {
      TourShape(Workers(route, force), WorkerOrder(route, h.count), h.visits, r.won);
      TurnDials(route, WorkerCounter, h.count);
      TurnDials(route, WorkerCounter, h.next);
      ThreeParts(TurnLog(route, WorkerCounter, h.count), TourLog(Workers(route, force), h.visits), if r.won then TurnLog(route, WorkerCounter, h.next) else []);
      DialCountAppend([PoolLook(false)], WorkerLog(route, force, r.won, h.count, h.visits, h.next));
    }
  }

  lemma WalkDials(route: Route, target: Option<string>, force: bool, r: Rung)
    requires HowOk(route, target, r.tier, force, r.won, r.how) && r.how.RecordWalk?
    ensures DialCount(RungLog(route, target, force, r)) == if r.how.hit then 0 else DialCount(TriesLog(route.config.opts, r.how.tried, r.how.tries))
  {
    var h := r.how;
    hide DialCount, TriesLog, TurnLog, Walked, TryOk;
    TurnDials(route, CfCounter, h.count);
    TurnDials(route, CfCounter, h.next);
    var head := TurnLog(route, CfCounter, h.count) + [PoolLook(h.hit)];
    if h.hit {
      NoDials(head);
      assert RungLog(route, target, force, r) == head;
    } else {
      var tail := if r.won then TurnLog(route, CfCounter, h.next) else [];
      ThreeParts(head, TriesLog(route.config.opts, h.tried, h.tries), tail);
      Assoc(head, TriesLog(route.config.opts, h.tried, h.tries), tail);
    }
  }

  /** No rung dials more than its cost. */
  lemma RungCost(route: Route, target: Option<string>, tier: Tier, force: bool, link: Option<Link>, r: Rung)
    requires RungOk(route, target, tier, force, link, r)
    ensures DialCount(RungLog(route, target, force, r)) <= Cost(route, tier)
  {
    hide DialCount, TourLog, TriesLog, Toured, Walked, RungLog;
    match r.how {
      case Direct(_, _, _, _, _, _, _) => DirectDials(route, target, force, r);
      case WorkerTour(hit, count, visits, _) =>
        WorkerDials(route, target, force, r);
        if !hit {
          TourCost(Workers(route, force), WorkerOrder(route, count), visits, r.won);
        }
      case RecordWalk(count, hit, once, tried, tries, winner, _) =>
        WalkDials(route, target, force, r);
        if !hit {
          WalkCost(route, r.how);
        }
      case ProxyTour(visits) =>
        TourCost(Proxies(route, force), route.config.proxies, visits, r.won);
        ProxyLog(route, target, force, r);
      case _ => EmptyLog(route, target, force, r);
    }
  }

  lemma ProxyLog(route: Route, target: Option<string>, force: bool, r: Rung)
    requires HowOk(route, target, r.tier, force, r.won, r.how) && r.how.ProxyTour?
    ensures forall i :: 0 <= i < |r.how.visits| ==> VisitOk(Proxies(route, force), r.how.visits[i])
    ensures RungLog(route, target, force, r) == TourLog(Proxies(route, force), r.how.visits)
  {
  }

  lemma EmptyLog(route: Route, target: Option<string>, force: bool, r: Rung)
    requires HowOk(route, target, r.tier, force, r.won, r.how) && (r.how.Unable? || r.how.Raw?)
    ensures RungLog(route, target, force, r) == [] && DialCount([]) == 0
  {
  }

  lemma TourCost(k: Kind, names: seq<string>, visits: seq<Visit>, won: bool)
    requires Toured(k, names, visits, won)
    ensures forall i :: 0 <= i < |visits| ==> VisitOk(k, visits[i])
    ensures DialCount(TourLog(k, visits)) <= |names| * KindWidth(k)
    ensures k.force && names != [] ==> DialCount(TourLog(k, visits)) >= 1
  {
    TourDials(k, names, visits);
    TimesMonotone(|visits|, |names|, KindWidth(k));
    hide DialCount, TourLog, VisitWon, KindWidth;
    if k.force && names != [] {
      assert VisitOk(k, visits[0]);
    }
  }

  lemma TimesMonotone(a: nat, b: nat, c: nat)
    requires a <= b
    ensures a * c <= b * c
  {
  }

  lemma WalkCost(route: Route, how: How)
    requires how.RecordWalk? && WalkOk(route, how)
    ensures var n := DialCount(TriesLog(route.config.opts, how.tried, how.tries));
            && n <= 2 * |Elements(route.config.cfDomains)| * Width(route.config.opts)
            && (route.config.cfDomains != [] ==> n >= 1)
  {
    hide DialCount, TriesLog, Walked;
    var domains := route.config.cfDomains;
    TriesDials(route.config.opts, how.tried, how.tries);
    WalkIsShort(route.dc, domains, OffsetOf(|domains|, route.config.balance, how.count), how.once, how.tried, Verdicts(how.tries), how.winner);
    TimesMonotone(|how.tried|, 2 * |Elements(domains)|, Width(route.config.opts));
  }

  /** The tier can produce a connection at all. */
  predicate Works(route: Route, tier: Tier, target: Option<string>) {
    match tier
    case Ws => target.Some?
    case Cfworker => route.config.workers != [] && Address(route, target).Some?
    case Cfproxy => route.config.cfDomains != []
    case Mtproto => route.config.proxies != []
    case Tcp => Address(route, target).Some?
  }

  /** Tiers that no cooldown can hold back. */
  predicate Always(tier: Tier) { tier.Ws? || tier.Cfproxy? || tier.Tcp? }

  lemma HitShows(route: Route, target: Option<string>, force: bool, r: Rung)
    requires HowOk(route, target, r.tier, force, r.won, r.how)
    requires (r.how.Direct? || r.how.WorkerTour? || r.how.RecordWalk?) && r.how.hit
    ensures PoolLook(true) in RungLog(route, target, force, r)
  {
    hide TourLog, TriesLog, TurnLog, Walked, Toured;
    var log := RungLog(route, target, force, r);
    match r.how {
      case Direct(_, _, _, _, _, _, _) => assert log[1] == PoolLook(true);
      case WorkerTour(_, _, _, _) => assert log[0] == PoolLook(true);
      case RecordWalk(count, _, _, _, _, _, _) => assert log[|TurnLog(route, CfCounter, count)|] == PoolLook(true);
    }
  }

  /** A working tier that is not held back, or that won, has really tried something. */
  lemma SureActs(route: Route, target: Option<string>, tier: Tier, force: bool, link: Option<Link>, r: Rung)
    requires RungOk(route, target, tier, force, link, r)
    requires r.won || (Works(route, tier, target) && (Always(tier) || force))
    ensures Attempted(RungLog(route, target, force, r), link)
  {
    hide DialCount, TourLog, TriesLog, Toured, Walked, RungLog;
    match r.how {
      case Direct(_, _, hit, _, _, _, _) =>
        DirectDials(route, target, force, r);
        if hit {
          HitShows(route, target, force, r);
        }
      case WorkerTour(hit, count, visits, _) =>
        WorkerDials(route, target, force, r);
        if hit {
          HitShows(route, target, force, r);
        } else {
          TourActs(Workers(route, force), WorkerOrder(route, count), visits, r.won);
        }
      case RecordWalk(_, hit, _, _, _, _, _) =>
        WalkDials(route, target, force, r);
        if hit {
          HitShows(route, target, force, r);
        } else {
          WalkCost(route, r.how);
        }
      case ProxyTour(visits) =>
        TourActs(Proxies(route, force), route.config.proxies, visits, r.won);
        ProxyLog(route, target, force, r);
      case _ =>
    }
  }

  lemma TourActs(k: Kind, names: seq<string>, visits: seq<Visit>, won: bool)
    requires Toured(k, names, visits, won) && ((k.force && names != []) || won)
    ensures forall i :: 0 <= i < |visits| ==> VisitOk(k, visits[i])
    ensures DialCount(TourLog(k, visits)) > 0
  {
    TourDials(k, names, visits);
    hide DialCount, TourLog;
    if won {
      assert VisitWon(visits[|visits| - 1]);
    } else {
      assert VisitOk(k, visits[0]);
    }
  }

  /** The names behind a tier, and what their cooldowns are called. */
  function Names(route: Route, tier: Tier): seq<string> {
    match tier
    case Cfworker => route.config.workers
    case Mtproto => route.config.proxies
    case _ => []
  }

  function NamedBy(tier: Tier, name: string): Subject { if tier.Cfworker? then Worker(name) else Upstream(name) }

  /**
    Why an unforced rung made no dial: the tier has nothing to offer, it took a
    pooled connection, or each of its names was looked at and found cooling.
   */
  lemma IdleReason(route: Route, target: Option<string>, tier: Tier, link: Option<Link>, r: Rung)
    requires RungOk(route, target, tier, false, link, r) && DialCount(RungLog(route, target, false, r)) == 0
    ensures || !Works(route, tier, target) || r.won
            || (!Always(tier) && forall name :: name in Names(route, tier) ==> Looked(NamedBy(tier, name), true) in RungLog(route, target, false, r))
  {
    hide DialCount, TourLog, TriesLog, Toured, Walked, RungLog, Follows, WsDomains, WalkOk;
    if Works(route, tier, target) && !r.won {
      match tier {
        case Ws => DirectDials(route, target, false, r);
        case Cfworker =>
          IdleWorkers(route, target, r);
        case Cfproxy =>
          WalkDials(route, target, false, r);
          WalkCost(route, r.how);
        case Mtproto => IdleProxies(route, target, r);
        case Tcp =>
      }
    }
  }

  lemma IdleProxies(route: Route, target: Option<string>, r: Rung)
    requires HowOk(route, target, r.tier, false, r.won, r.how) && r.tier.Mtproto? && !r.won
    requires DialCount(RungLog(route, target, false, r)) == 0
    ensures forall name :: name in route.config.proxies ==> Looked(Upstream(name), true) in RungLog(route, target, false, r)
  {
    ProxyLog(route, target, false, r);
    hide DialCount, TourLog, RungLog, WsDomains, Follows, WalkOk;
    AllSkipped(Proxies(route, false), route.config.proxies, r.how.visits);
  }

  lemma WorkerTourOk(route: Route, target: Option<string>, force: bool, r: Rung)
    requires HowOk(route, target, r.tier, force, r.won, r.how) && r.how.WorkerTour? && !r.how.hit
    ensures Toured(Workers(route, force), WorkerOrder(route, r.how.count), r.how.visits, r.won)
    ensures forall i :: 0 <= i < |r.how.visits| ==> VisitOk(Workers(route, force), r.how.visits[i])
  {
    hide VisitOk, WorkerOrder;
  }

  lemma IdleWorkers(route: Route, target: Option<string>, r: Rung)
    requires HowOk(route, target, r.tier, false, r.won, r.how) && r.how.WorkerTour? && !r.how.hit && !r.won
    requires DialCount(RungLog(route, target, false, r)) == 0
    ensures forall name :: name in route.config.workers ==> Looked(Worker(name), true) in RungLog(route, target, false, r)
  {
    hide HowOk, DialCount, TourLog, Toured, RungLog, Rotated, VisitOk;
    WorkerTourOk(route, target, false, r);
    WorkerDials(route, target, false, r);
    var k, names := Workers(route, false), WorkerOrder(route, r.how.count);
    AllSkipped(k, names, r.how.visits);
    forall name | name in route.config.workers ensures Looked(Worker(name), true) in RungLog(route, target, false, r) {
      RotatedMembers(route.config.workers, OffsetOf(|route.config.workers|, route.config.balance, r.how.count), name);
      WorkerLogHas(route, target, false, r, Looked(Named(k, name), true));
    }
  }

  lemma AllSkipped(k: Kind, names: seq<string>, visits: seq<Visit>)
    requires Toured(k, names, visits, false) && DialCount(TourLog(k, visits)) == 0
    ensures forall name :: name in names ==> Looked(Named(k, name), true) in TourLog(k, visits)
  {
    TourDials(k, names, visits);
    hide DialCount, TourLog, VisitOk, VisitWon;
    forall name | name in names ensures Looked(Named(k, name), true) in TourLog(k, visits) {
      var i :| 0 <= i < |names| && names[i] == name;
      assert visits[i].Skipped? && visits[i].name == name;
      VisitsJustified(k, visits, i);
    }
  }

  /** What happened on a Worker tour is in the log of its rung. */
  lemma WorkerLogHas(route: Route, target: Option<string>, force: bool, r: Rung, e: Event)
    requires HowOk(route, target, r.tier, force, r.won, r.how) && r.how.WorkerTour? && !r.how.hit
    requires (forall i :: 0 <= i < |r.how.visits| ==> VisitOk(Workers(route, force), r.how.visits[i]))
             && e in TourLog(Workers(route, force), r.how.visits)
    ensures e in RungLog(route, target, force, r)
  {
    hide TourLog, TurnLog, Toured, VisitOk;
    var h := r.how;
    var a, b, c := TurnLog(route, WorkerCounter, h.count), TourLog(Workers(route, force), h.visits), if r.won then TurnLog(route, WorkerCounter, h.next) else [];
    assert RungLog(route, target, force, r) == [PoolLook(false)] + (a + b + c);
    assert e in a + b + c;
  }

  /** Unforced, whatever was dialled on behalf of a Worker or proxy had been looked at and found clear. */
  lemma TriedWasClear(route: Route, target: Option<string>, tier: Tier, link: Option<Link>, r: Rung, i: nat)
    requires RungOk(route, target, tier, false, link, r)
    requires (r.how.WorkerTour? && !r.how.hit) || r.how.ProxyTour?
    requires i < |r.how.visits| && !r.how.visits[i].Skipped?
    ensures Looked(NamedBy(tier, r.how.visits[i].name), false) in RungLog(route, target, false, r)
  {
    hide TourLog, RungLog;
    var k := if r.how.WorkerTour? then Workers(route, false) else Proxies(route, false);
    VisitsJustified(k, r.how.visits, i);
    if r.how.WorkerTour? {
      WorkerLogHas(route, target, false, r, Looked(Named(k, r.how.visits[i].name), false));
    } else {
      ProxyLog(route, target, false, r);
    }
  }

  // ----- A hostile world --------------------------------------------------

  /** Everybody else keeps every Worker and every proxy cooling, and every pool empty. */
  ghost predicate Hostile(env: nat -> World, route: Route) {
    forall n :: !env(n).hit
                && (forall w :: w in route.config.workers ==> CoolingAt(env(n), Worker(w)))
                && (forall p :: p in route.config.proxies ==> CoolingAt(env(n), Upstream(p)))
  }

  lemma NeverClear(env: nat -> World, from: nat, log: seq<Event>, s: Subject)
    requires Truthful(env, from, log) && forall n :: CoolingAt(env(n), s)
    ensures Looked(s, false) !in log
  {
    hide CoolingAt;
    forall i | 0 <= i < |log| ensures log[i] != Looked(s, false) {
      assert Saw(env(from + i), log[i]);
    }
  }

  lemma NeverHit(env: nat -> World, from: nat, log: seq<Event>)
    requires Truthful(env, from, log) && forall n :: !env(n).hit
    ensures PoolLook(true) !in log
  {
    forall i | 0 <= i < |log| ensures log[i] != PoolLook(true) {
      assert Saw(env(from + i), log[i]);
    }
  }

  /** In a hostile world only a tier that is certain to try something does. */
  lemma HostileIdle(env: nat -> World, from: nat, route: Route, target: Option<string>, tier: Tier, force: bool, link: Option<Link>, r: Rung)
    requires RungOk(route, target, tier, force, link, r) && Truthful(env, from, RungLog(route, target, force, r)) && Hostile(env, route)
    requires !(Works(route, tier, target) && (Always(tier) || force))
    ensures !Attempted(RungLog(route, target, force, r), link) && link.None?
  {
    var log := RungLog(route, target, force, r);
    NeverHit(env, from, log);
    hide DialCount, TourLog, Toured, RungLog, Truthful, CoolingAt;
    match r.how {
      case WorkerTour(hit, count, visits, _) =>
        if hit {
          HitShows(route, target, force, r);
        }
        WorkerDials(route, target, force, r);
        var k := Workers(route, force);
        TourShape(k, WorkerOrder(route, count), visits, r.won);
        forall i | 0 <= i < |visits| ensures visits[i].Skipped? {
          TourNames(k, WorkerOrder(route, count), visits, r.won, i);
          RotatedMembers(route.config.workers, OffsetOf(|route.config.workers|, route.config.balance, count), visits[i].name);
          NeverClear(env, from, log, Worker(visits[i].name));
          VisitsJustified(k, visits, i);
          if !visits[i].Skipped? {
            WorkerLogHas(route, target, force, r, Looked(Named(k, visits[i].name), false));
          }
        }
        SkippedTour(k, WorkerOrder(route, count), visits, r.won);
      case ProxyTour(visits) =>
        ProxyLog(route, target, force, r);
        var k := Proxies(route, force);
        forall i | 0 <= i < |visits| ensures visits[i].Skipped? {
          TourNames(k, route.config.proxies, visits, r.won, i);
          NeverClear(env, from, log, Upstream(visits[i].name));
          VisitsJustified(k, visits, i);
        }
        SkippedTour(k, route.config.proxies, visits, r.won);
      case _ => EmptyLog(route, target, force, r);
    }
  }

  lemma TourNames(k: Kind, names: seq<string>, visits: seq<Visit>, won: bool, i: nat)
    requires Toured(k, names, visits, won) && i < |visits|
    ensures visits[i].name in names
  {
    hide VisitOk, VisitWon;
  }

  lemma SkippedTour(k: Kind, names: seq<string>, visits: seq<Visit>, won: bool)
    requires Toured(k, names, visits, won) && forall i :: 0 <= i < |visits| ==> visits[i].Skipped?
    ensures (forall i :: 0 <= i < |visits| ==> VisitOk(k, visits[i])) && DialCount(TourLog(k, visits)) == 0 && !won
  {
    TourDials(k, names, visits);
    hide DialCount, TourLog;
  }

  /** The subjects a hostile world keeps cooling. */
  function Nameable(route: Route): seq<Subject> {
    seq(|route.config.workers|, i requires 0 <= i < |route.config.workers| => Worker(route.config.workers[i]))
    + seq(|route.config.proxies|, i requires 0 <= i < |route.config.proxies| => Upstream(route.config.proxies[i]))
  }

  function CoolAll(subjects: seq<Subject>): seq<Op<Subject>> {
    if subjects == [] then [] else CoolAll(subjects[..|subjects| - 1]) + [SetAt(subjects[|subjects| - 1], 0, 1)]
  }

  lemma {:induction false} CoolAllCools(subjects: seq<Subject>, s: Subject)
    requires s in subjects
    ensures Cooling(Replay(CoolAll(subjects)), s, 0)
  {
    var n := |subjects| - 1;
    ReplayPush(CoolAll(subjects[..n]), SetAt(subjects[n], 0, 1));
    if s != subjects[n] {
      CoolAllCools(subjects[..n], s);
    }
    hide Replay;
  }

  /** A world in which they all were set just now, and nothing else happens. */
  function HostileEnv(route: Route): nat -> World {
    (n: nat) => World(0, CoolAll(Nameable(route)), 0, 0, 0, Failed, false)
  }

  lemma HostileExists(route: Route)
    ensures Hostile(HostileEnv(route), route)
  {
    var env, all := HostileEnv(route), Nameable(route);
    hide CoolAll, Replay;
    forall w | w in route.config.workers ensures Cooling(Replay(CoolAll(all)), Worker(w), 0) {
      var i :| 0 <= i < |route.config.workers| && route.config.workers[i] == w;
      assert all[i] == Worker(w);
      CoolAllCools(all, Worker(w));
    }
    forall p | p in route.config.proxies ensures Cooling(Replay(CoolAll(all)), Upstream(p), 0) {
      var i :| 0 <= i < |route.config.proxies| && route.config.proxies[i] == p;
      assert all[|route.config.workers| + i] == Upstream(p);
      CoolAllCools(all, Upstream(p));
    }
  }

  // ----- Climbing ---------------------------------------------------------

  /** The first tiers of `order` were visited in that order, each forced or not as `forces` says. */
  ghost predicate Visited(route: Route, target: Option<string>, order: seq<Tier>, forces: seq<bool>, rungs: seq<Rung>) {
    && |rungs| <= |order| == |forces|
    && forall i :: 0 <= i < |rungs| ==>
         rungs[i].tier == order[i] && HowOk(route, target, order[i], forces[i], rungs[i].won, rungs[i].how)
  }

  ghost predicate NoneWon(rungs: seq<Rung>) { forall i :: 0 <= i < |rungs| ==> !rungs[i].won }

  ghost function ClimbLog(route: Route, target: Option<string>, order: seq<Tier>, forces: seq<bool>, rungs: seq<Rung>): seq<Event>
    requires Visited(route, target, order, forces, rungs)
    decreases |rungs|
  {
    if rungs == [] then []
    else
      var n := |rungs| - 1;
      ClimbLog(route, target, order, forces, rungs[..n]) + RungLog(route, target, forces[n], rungs[n])
  }

  /** A finished climb: it stopped at the first tier that won, which gave the link, or every tier lost. */
  ghost predicate Climbed(route: Route, target: Option<string>, order: seq<Tier>, forces: seq<bool>, rungs: seq<Rung>, link: Option<Link>) {
    && Visited(route, target, order, forces, rungs)
    && if link.None? then NoneWon(rungs) && |rungs| == |order|
       else
         && rungs != [] && NoneWon(rungs[..|rungs| - 1])
         && rungs[|rungs| - 1].won && Fits(route, target, rungs[|rungs| - 1], link.value)
  }

  lemma ClimbMore(route: Route, target: Option<string>, order: seq<Tier>, forces: seq<bool>, rungs: seq<Rung>, link: Option<Link>, r: Rung)
    requires Visited(route, target, order, forces, rungs) && NoneWon(rungs) && |rungs| < |order|
    requires RungOk(route, target, order[|rungs|], forces[|rungs|], link, r)
    ensures Visited(route, target, order, forces, rungs + [r])
    ensures ClimbLog(route, target, order, forces, rungs + [r]) == ClimbLog(route, target, order, forces, rungs) + RungLog(route, target, forces[|rungs|], r)
    ensures link.None? ==> NoneWon(rungs + [r])
    ensures link.Some? ==> Climbed(route, target, order, forces, rungs + [r], link)
  {
    hide HowOk, Fits, RungLog;
    assert (rungs + [r])[..|rungs|] == rungs;
  }

  /** The link of rung `i` of a finished climb. */
  ghost function LinkAt(rungs: seq<Rung>, link: Option<Link>, i: nat): Option<Link> { if i == |rungs| - 1 then link else None }

  lemma RungAt(route: Route, target: Option<string>, order: seq<Tier>, forces: seq<bool>, rungs: seq<Rung>, link: Option<Link>, i: nat)
    requires Climbed(route, target, order, forces, rungs, link) && i < |rungs|
    ensures RungOk(route, target, order[i], forces[i], LinkAt(rungs, link, i), rungs[i])
  {
    hide HowOk, Fits;
    if i < |rungs| - 1 && link.Some? {
      assert rungs[..|rungs| - 1][i] == rungs[i];
    }
  }

  /** What one rung did is part of what the climb did. */
  lemma {:induction false} ClimbHas(route: Route, target: Option<string>, order: seq<Tier>, forces: seq<bool>, rungs: seq<Rung>, i: nat)
    requires Visited(route, target, order, forces, rungs) && i < |rungs|
    ensures DialCount(RungLog(route, target, forces[i], rungs[i])) <= DialCount(ClimbLog(route, target, order, forces, rungs))
    ensures forall e :: e in RungLog(route, target, forces[i], rungs[i]) ==> e in ClimbLog(route, target, order, forces, rungs)
    decreases |rungs|
  {
    hide HowOk, RungLog, DialCount;
    var n := |rungs| - 1;
    var before, last := ClimbLog(route, target, order, forces, rungs[..n]), RungLog(route, target, forces[n], rungs[n]);
    assert ClimbLog(route, target, order, forces, rungs) == before + last;
    DialCountAppend(before, last);
    hide ClimbLog;
    if i < n {
      ClimbHas(route, target, order, forces, rungs[..n], i);
    }
  }

  // ----- The pinned ladder ------------------------------------------------

  /** What the code takes for a tier that works: it forgets that a Worker needs a destination. */
  predicate Attemptable(route: Route, tier: Tier, target: Option<string>) {
    match tier
    case Ws => target.Some?
    case Cfworker => route.config.workers != []
    case Cfproxy => route.config.cfDomains != []
    case Mtproto => route.config.proxies != []
    case Tcp => target.Some? || route.fallback.Some?
  }

  predicate AttemptableAfter(route: Route, tiers: seq<Tier>, from: nat, target: Option<string>) {
    exists i :: from <= i < |tiers| && Attemptable(route, tiers[i], target)
  }

  /** The last tier that can still connect dials through its cooldowns. */
  function Forces(route: Route, tiers: seq<Tier>, target: Option<string>): (f: seq<bool>)
    ensures |f| == |tiers|
  {
    seq(|tiers|, i requires 0 <= i < |tiers| => !AttemptableAfter(route, tiers, i + 1, target))
  }

  /** A pinned tier respects cooldowns exactly if some tier listed after it is configured, or for the direct path and raw TCP has an address. */
  lemma ForcedIff(route: Route, tiers: seq<Tier>, target: Option<string>, i: nat)
    requires i < |tiers|
    ensures Forces(route, tiers, target)[i] <==>
              forall j :: i < j < |tiers| ==>
                && (tiers[j] == Ws ==> target == None)
                && (tiers[j] == Cfworker ==> route.config.workers == [])
                && (tiers[j] == Cfproxy ==> route.config.cfDomains == [])
                && (tiers[j] == Mtproto ==> route.config.proxies == [])
                && (tiers[j] == Tcp ==> target == None && route.fallback == None)
  {
    forall j | i < j < |tiers|
      ensures Attemptable(route, tiers[j], target) <==>
              !(&& (tiers[j] == Ws ==> target == None) && (tiers[j] == Cfworker ==> route.config.workers == [])
                && (tiers[j] == Cfproxy ==> route.config.cfDomains == []) && (tiers[j] == Mtproto ==> route.config.proxies == [])
                && (tiers[j] == Tcp ==> target == None && route.fallback == None))
    {
    }
    assert Forces(route, tiers, target)[i] == !AttemptableAfter(route, tiers, i + 1, target);
    hide Attemptable, Forces;
    if AttemptableAfter(route, tiers, i + 1, target) {
      var j :| i + 1 <= j < |tiers| && Attemptable(route, tiers[j], target);
    }
  }

  /** Tier `i` is certain to try something when reached. */
  predicate Sure(route: Route, tiers: seq<Tier>, target: Option<string>, i: nat)
    requires i < |tiers|
  {
    Works(route, tiers[i], target) && (Always(tiers[i]) || !AttemptableAfter(route, tiers, i + 1, target))
  }

  predicate Guaranteed(route: Route, tiers: seq<Tier>, target: Option<string>) {
    exists i :: 0 <= i < |tiers| && Sure(route, tiers, target, i)
  }

  /** A pinned climb. */
  ghost predicate Pinned(route: Route, target: Option<string>, tiers: seq<Tier>, rungs: seq<Rung>, link: Option<Link>) {
    Climbed(route, target, tiers, Forces(route, tiers, target), rungs, link)
  }

  ghost function PinnedLog(route: Route, target: Option<string>, tiers: seq<Tier>, rungs: seq<Rung>): seq<Event>
    requires Visited(route, target, tiers, Forces(route, tiers, target), rungs)
  {
    ClimbLog(route, target, tiers, Forces(route, tiers, target), rungs)
  }

  /** The listed tiers were visited in their order, up to the first that won or to the end. */
  ghost predicate ListedOrder(tiers: seq<Tier>, rungs: seq<Rung>, link: Option<Link>) {
    && |rungs| <= |tiers| && (link.None? ==> |rungs| == |tiers|) && (link.Some? ==> rungs != [])
    && forall i :: 0 <= i < |rungs| ==> rungs[i].tier == tiers[i] && (rungs[i].won <==> link.Some? && i == |rungs| - 1)
  }

  lemma ClimbInOrder(route: Route, target: Option<string>, order: seq<Tier>, forces: seq<bool>, rungs: seq<Rung>, link: Option<Link>)
    requires Climbed(route, target, order, forces, rungs, link)
    ensures ListedOrder(order, rungs, link)
  {
    hide HowOk, Fits;
    if link.Some? {
      var before := rungs[..|rungs| - 1];
      assert forall j :: 0 <= j < |rungs| - 1 ==> before[j] == rungs[j];
    }
  }

  /** One rung of the pinned ladder. */
  method TryTier(net: Net, route: Route, tier: Tier, target: Option<string>, force: bool) returns (link: Option<Link>, ghost r: Rung)
    requires net.Valid()
    modifies net, net.cooldowns
    ensures net.Valid() && RungOk(route, target, tier, force, link, r)
    ensures net.log == old(net.log) + RungLog(route, target, force, r)
  {
    hide Truthful;
    match tier {
      case Ws => link, r := DirectWsTier(net, route, target, force);
      case Cfworker =>
        hide RungLog, Toured;
        var got, _, _, rung := CfWorker(net, route, target, OrElse(route.fallback, target), force);
        link, r := got, rung;
      case Cfproxy =>
        hide RungLog, WalkOk;
        var got, _, rung := CfProxy(net, route, target, force);
        link, r := got, rung;
      case Mtproto => link, r := UpstreamProxies(net, route, target, force);
      case Tcp =>
        var dst := OrElse(route.fallback, target);
        r := Rung(Tcp, dst.Some?, if dst.Some? then Raw else Unable);
        link := if dst.Some? then Some(ViaTcp(dst.value)) else None;
    }
  }

  /** Listed tiers only, in listed order, stopping at the first success; all the accesses are those of the rungs. */
  method PinnedLadder(net: Net, route: Route, tiers: seq<Tier>, target: Option<string>) returns (link: Option<Link>, ghost rungs: seq<Rung>)
    requires net.Valid()
    modifies net, net.cooldowns
    ensures net.Valid() && Pinned(route, target, tiers, rungs, link)
    ensures net.log == old(net.log) + PinnedLog(route, target, tiers, rungs)
    ensures Guaranteed(route, tiers, target) ==> Attempted(PinnedLog(route, target, tiers, rungs), link)
    ensures ListedOrder(tiers, rungs, link)
  {
    hide Truthful, ListedOrder, RungOk, RungLog, HowOk, ClimbLog, AttemptableAfter, Sure, NoneWon, Attempted;
    ghost var forces := Forces(route, tiers, target);
    rungs := [];
    NoRungs(route, target, tiers, forces);
    for i := 0 to |tiers|
      invariant net.Valid() && |rungs| == i && Visited(route, target, tiers, forces, rungs) && NoneWon(rungs)
      invariant net.log == old(net.log) + ClimbLog(route, target, tiers, forces, rungs)
    {
      var lastResort := !AttemptableAfter(route, tiers, i + 1, target);
      ghost var r;
      link, r := TryTier(net, route, tiers[i], target, lastResort);
      RungHow(route, target, tiers[i], lastResort, link, r);
      ClimbMore(route, target, tiers, forces, rungs, link, r);
      Assoc(old(net.log), ClimbLog(route, target, tiers, forces, rungs), RungLog(route, target, lastResort, r));
      rungs := rungs + [r];
      if link.Some? {
        PinnedActs(route, target, tiers, rungs, link);
        ClimbInOrder(route, target, tiers, forces, rungs, link);
        return;
      }
    }
    link := None;
    PinnedActs(route, target, tiers, rungs, link);
    ClimbInOrder(route, target, tiers, forces, rungs, link);
  }

  lemma NoRungs(route: Route, target: Option<string>, order: seq<Tier>, forces: seq<bool>)
    requires |forces| == |order|
    ensures Visited(route, target, order, forces, []) && NoneWon([]) && ClimbLog(route, target, order, forces, []) == []
  {
  }

  lemma RungHow(route: Route, target: Option<string>, tier: Tier, force: bool, link: Option<Link>, r: Rung)
    requires RungOk(route, target, tier, force, link, r)
    ensures r.tier == tier && HowOk(route, target, tier, force, r.won, r.how) && (link.Some? <==> r.won)
  {
  }

  /** A rung that is certain to try something, or that won, makes the climb an attempt. */
  lemma ClimbActs(route: Route, target: Option<string>, order: seq<Tier>, forces: seq<bool>, rungs: seq<Rung>, link: Option<Link>, i: nat)
    requires Climbed(route, target, order, forces, rungs, link) && i < |rungs|
    requires rungs[i].won || (Works(route, order[i], target) && (Always(order[i]) || forces[i]))
    ensures Attempted(ClimbLog(route, target, order, forces, rungs), link)
  {
    hide HowOk, Works, DialCount, RungLog, ClimbLog, Fits, NoneWon;
    RungAt(route, target, order, forces, rungs, link, i);
    SureActs(route, target, order[i], forces[i], LinkAt(rungs, link, i), rungs[i]);
    ClimbHas(route, target, order, forces, rungs, i);
  }

  /** A guaranteed ladder really tries something, whatever the world does. */
  lemma PinnedActs(route: Route, target: Option<string>, tiers: seq<Tier>, rungs: seq<Rung>, link: Option<Link>)
    requires Pinned(route, target, tiers, rungs, link)
    ensures Guaranteed(route, tiers, target) ==> Attempted(PinnedLog(route, target, tiers, rungs), link)
  {
    if Guaranteed(route, tiers, target) {
      hide Visited, Climbed, Works, AttemptableAfter, ClimbLog, Attempted, Sure, Forces;
      var forces := Forces(route, tiers, target);
      var s :| 0 <= s < |tiers| && Sure(route, tiers, target, s);
      SureAt(route, tiers, target, s);
      StoppedEarly(route, target, tiers, forces, rungs, link);
      ClimbActs(route, target, tiers, forces, rungs, link, if s < |rungs| then s else |rungs| - 1);
    }
  }

  lemma SureAt(route: Route, tiers: seq<Tier>, target: Option<string>, i: nat)
    requires i < |tiers|
    ensures Sure(route, tiers, target, i) <==> Works(route, tiers[i], target) && (Always(tiers[i]) || Forces(route, tiers, target)[i])
  {
    hide Works, AttemptableAfter;
  }

  lemma StoppedEarly(route: Route, target: Option<string>, order: seq<Tier>, forces: seq<bool>, rungs: seq<Rung>, link: Option<Link>)
    requires Climbed(route, target, order, forces, rungs, link)
    ensures |rungs| <= |order| == |forces|
    ensures |rungs| < |order| || link.Some? ==> rungs != [] && rungs[|rungs| - 1].won
  {
    hide HowOk, Fits;
  }

  /** Nothing is visited after raw TCP, unless the DC has no address. */
  lemma NothingAfterTcp(route: Route, target: Option<string>, tiers: seq<Tier>, rungs: seq<Rung>, link: Option<Link>, i: nat)
    requires Pinned(route, target, tiers, rungs, link) && i < |rungs| && tiers[i] == Tcp && Works(route, Tcp, target)
    ensures i == |rungs| - 1 && link == Some(ViaTcp(if route.fallback.Some? then route.fallback.value else target.value))
  {
    RungAt(route, target, tiers, Forces(route, tiers, target), rungs, link, i);
  }

  // ----- Starvation -------------------------------------------------------

  lemma {:induction false} HostileClimb(env: nat -> World, from: nat, route: Route, target: Option<string>, tiers: seq<Tier>, rungs: seq<Rung>)
    requires Visited(route, target, tiers, Forces(route, tiers, target), rungs) && NoneWon(rungs)
    requires Truthful(env, from, PinnedLog(route, target, tiers, rungs)) && Hostile(env, route) && !Guaranteed(route, tiers, target)
    ensures !Attempted(PinnedLog(route, target, tiers, rungs), None)
    decreases |rungs|
  {
    var forces := Forces(route, tiers, target);
    hide HowOk, DialCount, RungLog, Works, AttemptableAfter, Truthful, Hostile;
    if rungs == [] {
      NoDials(PinnedLog(route, target, tiers, rungs));
    } else {
      var n := |rungs| - 1;
      var before, last := PinnedLog(route, target, tiers, rungs[..n]), RungLog(route, target, forces[n], rungs[n]);
      assert PinnedLog(route, target, tiers, rungs) == before + last;
      hide ClimbLog;
      TruthfulAppend(env, from, before, last);
      HostileClimb(env, from, route, target, tiers, rungs[..n]);
      assert !Sure(route, tiers, target, n);
      HostileIdle(env, from + |before|, route, target, tiers[n], forces[n], None, rungs[n]);
      DialCountAppend(before, last);
    }
  }

  lemma HostileLast(env: nat -> World, from: nat, route: Route, target: Option<string>, tiers: seq<Tier>, rungs: seq<Rung>, link: Option<Link>)
    requires Pinned(route, target, tiers, rungs, link) && rungs != []
    requires Truthful(env, from, PinnedLog(route, target, tiers, rungs)) && Hostile(env, route) && !Guaranteed(route, tiers, target)
    ensures link.None?
  {
    var forces, n := Forces(route, tiers, target), |rungs| - 1;
    hide RungLog, HowOk, Truthful, Hostile, AttemptableAfter, Works, Fits, NoneWon, Sure, Forces, Attempted;
    RungAt(route, target, tiers, forces, rungs, link, n);
    var before, last := ClimbLog(route, target, tiers, forces, rungs[..n]), RungLog(route, target, forces[n], rungs[n]);
    assert PinnedLog(route, target, tiers, rungs) == before + last;
    hide ClimbLog, Climbed;
    TruthfulAppend(env, from, before, last);
    SureAt(route, tiers, target, n);
    HostileIdle(env, from + |before|, route, target, tiers[n], forces[n], link, rungs[n]);
  }

  /** In a hostile world a ladder that is not guaranteed tries nothing. */
  lemma HostileStarves(env: nat -> World, from: nat, route: Route, target: Option<string>, tiers: seq<Tier>, rungs: seq<Rung>, link: Option<Link>)
    requires Pinned(route, target, tiers, rungs, link) && Truthful(env, from, PinnedLog(route, target, tiers, rungs))
    requires Hostile(env, route) && !Guaranteed(route, tiers, target)
    ensures !Attempted(PinnedLog(route, target, tiers, rungs), link) && link.None?
  {
    hide ClimbLog, HowOk, Truthful, Hostile, Guaranteed, Attempted, Fits, NoneWon, Forces;
    if rungs != [] {
      HostileLast(env, from, route, target, tiers, rungs, link);
    }
    HostileClimb(env, from, route, target, tiers, rungs);
  }

  /** What a rung does in the hostile world when nothing makes it try. */
  function HostileRung(route: Route, target: Option<string>, tier: Tier): Rung {
    Rung(tier, false,
         if tier.Cfworker? && Works(route, tier, target) then WorkerTour(false, 0, SkipAll(WorkerOrder(route, 0)), 0)
         else if tier.Mtproto? then ProxyTour(SkipAll(route.config.proxies))
         else Unable)
  }

  function SkipAll(names: seq<string>): (visits: seq<Visit>)
    ensures |visits| == |names|
  {
    seq(|names|, i requires 0 <= i < |names| => Skipped(names[i]))
  }

  lemma {:induction false} SkipAllLog(env: nat -> World, from: nat, k: Kind, names: seq<string>)
    requires (names == [] || !k.force) && forall name, n :: name in names ==> CoolingAt(env(n), Named(k, name))
    ensures Toured(k, names, SkipAll(names), false) && Truthful(env, from, TourLog(k, SkipAll(names)))
    decreases |names|
  {
    hide CoolingAt;
    if names != [] {
      var n := |names| - 1;
      SkipAllLog(env, from, k, names[..n]);
      var before, last := TourLog(k, SkipAll(names[..n])), VisitLog(k, Skipped(names[n]));
      assert SkipAll(names)[..n] == SkipAll(names[..n]);
      TruthfulAppend(env, from, before, last);
      assert names[n] in names;
    }
  }

  lemma HostileWorkers(env: nat -> World, from: nat, route: Route)
    requires env == HostileEnv(route)
    ensures Toured(Workers(route, false), WorkerOrder(route, 0), SkipAll(WorkerOrder(route, 0)), false)
    ensures Truthful(env, from, [PoolLook(false)] + (TurnLog(route, WorkerCounter, 0) + TourLog(Workers(route, false), SkipAll(WorkerOrder(route, 0))) + []))
  {
    HostileExists(route);
    assert Truthful(env, from, [PoolLook(false)]) && Truthful(env, from + 1, TurnLog(route, WorkerCounter, 0));
    hide CoolingAt, HostileEnv, Truthful, Rotated;
    var k, names, turn := Workers(route, false), WorkerOrder(route, 0), TurnLog(route, WorkerCounter, 0);
    forall name | name in names ensures name in route.config.workers {
      RotatedMembers(route.config.workers, OffsetOf(|route.config.workers|, route.config.balance, 0), name);
    }
    SkipAllLog(env, from + 1 + |turn|, k, names);
    hide TourLog, Toured, TurnLog;
    var tour := TourLog(k, SkipAll(names));
    TruthfulAppend(env, from + 1, turn, tour);
    assert turn + tour + [] == turn + tour;
    TruthfulAppend(env, from, [PoolLook(false)], turn + tour);
  }

  lemma HostileWorkerRung(env: nat -> World, from: nat, route: Route, target: Option<string>, force: bool)
    requires env == HostileEnv(route) && (Works(route, Cfworker, target) ==> !force)
    ensures RungOk(route, target, Cfworker, force, None, HostileRung(route, target, Cfworker))
    ensures Truthful(env, from, RungLog(route, target, force, HostileRung(route, target, Cfworker)))
  {
    HostileWorkers(env, from, route);
    hide TourLog, Toured, TurnLog, WorkerOrder, HostileEnv, Follows, WalkOk, WsDomains, SkipAll;
    var r := HostileRung(route, target, Cfworker);
    if Works(route, Cfworker, target) {
      assert RungLog(route, target, force, r)
          == [PoolLook(false)] + (TurnLog(route, WorkerCounter, 0) + TourLog(Workers(route, false), SkipAll(WorkerOrder(route, 0))) + []);
    } else {
      assert RungLog(route, target, force, r) == [];
    }
  }

  lemma HostileProxyRung(env: nat -> World, from: nat, route: Route, target: Option<string>, force: bool)
    requires env == HostileEnv(route) && (Works(route, Mtproto, target) ==> !force)
    ensures RungOk(route, target, Mtproto, force, None, HostileRung(route, target, Mtproto))
    ensures Truthful(env, from, RungLog(route, target, force, HostileRung(route, target, Mtproto)))
  {
    HostileExists(route);
    hide CoolingAt, HostileEnv, Truthful, Follows, WalkOk, WsDomains;
    SkipAllLog(env, from, Proxies(route, force), route.config.proxies);
    hide TourLog, Toured, SkipAll;
  }

  lemma HostileRungOk(env: nat -> World, from: nat, route: Route, target: Option<string>, tier: Tier, force: bool)
    requires env == HostileEnv(route) && !(Works(route, tier, target) && (Always(tier) || force))
    ensures RungOk(route, target, tier, force, None, HostileRung(route, target, tier))
    ensures Truthful(env, from, RungLog(route, target, force, HostileRung(route, target, tier)))
  {
    hide HostileEnv, Follows, WalkOk, WsDomains, SkipAll, Toured, TourLog, WorkerOrder, WorkerLog;
    if tier.Cfworker? {
      HostileWorkerRung(env, from, route, target, force);
    } else if tier.Mtproto? {
      HostileProxyRung(env, from, route, target, force);
    } else {
      assert RungLog(route, target, force, HostileRung(route, target, tier)) == [];
    }
  }

  /** The first `n` tiers of a ladder that is not guaranteed can all be passed without a try. */
  lemma {:induction false} StarvedClimb(env: nat -> World, route: Route, target: Option<string>, tiers: seq<Tier>, n: nat) returns (rungs: seq<Rung>)
    requires env == HostileEnv(route) && !Guaranteed(route, tiers, target) && n <= |tiers|
    ensures Visited(route, target, tiers, Forces(route, tiers, target), rungs) && NoneWon(rungs) && |rungs| == n
    ensures Truthful(env, 0, PinnedLog(route, target, tiers, rungs))
    decreases n
  {
    var forces := Forces(route, tiers, target);
    hide HowOk, RungLog, Works, AttemptableAfter, Truthful, HostileEnv;
    if n == 0 {
      NoRungs(route, target, tiers, forces);
      TruthfulAppend(env, 0, [], []);
      rungs := [];
      assert Truthful(env, 0, []) by { EmptyTruth(env); }
    } else {
      var before := StarvedClimb(env, route, target, tiers, n - 1);
      var r := HostileRung(route, target, tiers[n - 1]);
      var log := PinnedLog(route, target, tiers, before);
      assert !Sure(route, tiers, target, n - 1);
      HostileRungOk(env, |log|, route, target, tiers[n - 1], forces[n - 1]);
      hide HostileRung, ClimbLog;
      RungHow(route, target, tiers[n - 1], forces[n - 1], None, r);
      ClimbMore(route, target, tiers, forces, before, None, r);
      TruthfulAppend(env, 0, log, RungLog(route, target, forces[n - 1], r));
      rungs := before + [r];
    }
  }

  lemma EmptyTruth(env: nat -> World)
    ensures Truthful(env, 0, [])
  {
  }

  /** Some world lets every ladder that is not guaranteed pass without a try. */
  lemma StarvedOutcome(route: Route, target: Option<string>, tiers: seq<Tier>) returns (rungs: seq<Rung>)
    requires !Guaranteed(route, tiers, target)
    ensures Pinned(route, target, tiers, rungs, None)
    ensures Truthful(HostileEnv(route), 0, PinnedLog(route, target, tiers, rungs))
    ensures !Attempted(PinnedLog(route, target, tiers, rungs), None)
  {
    rungs := StarvedClimb(HostileEnv(route), route, target, tiers, |tiers|);
    HostileExists(route);
    hide HowOk, Truthful, Hostile, HostileEnv, ClimbLog, AttemptableAfter, Attempted;
    HostileStarves(HostileEnv(route), 0, route, target, tiers, rungs, None);
  }

  /** Climb `rungs` with result `link` can happen in world `env`. */
  ghost predicate CanHappen(env: nat -> World, route: Route, target: Option<string>, tiers: seq<Tier>, rungs: seq<Rung>, link: Option<Link>) {
    Pinned(route, target, tiers, rungs, link) && Truthful(env, 0, PinnedLog(route, target, tiers, rungs))
  }

  /** The pinned ladder tries something in every world exactly if it is guaranteed. */
  lemma NeverStarvedIff(route: Route, target: Option<string>, tiers: seq<Tier>)
    ensures Guaranteed(route, tiers, target)
            <==> forall env: nat -> World, rungs: seq<Rung>, link: Option<Link> :: CanHappen(env, route, target, tiers, rungs, link)
                   ==> Attempted(PinnedLog(route, target, tiers, rungs), link)
  {
    hide HowOk, Truthful, HostileEnv, ClimbLog, AttemptableAfter, Attempted, NoneWon, Fits, Forces;
    if Guaranteed(route, tiers, target) {
      forall env: nat -> World, rungs: seq<Rung>, link: Option<Link> | CanHappen(env, route, target, tiers, rungs, link)
        ensures Attempted(PinnedLog(route, target, tiers, rungs), link)
      {
        PinnedActs(route, target, tiers, rungs, link);
      }
    } else {
      var rungs := StarvedOutcome(route, target, tiers);
      assert CanHappen(HostileEnv(route), route, target, tiers, rungs, None);
    }
  }

  /** With an address for the DC, one listed tier that works is enough. */
  lemma {:induction false} NeverStarved(route: Route, tiers: seq<Tier>, target: Option<string>, i: nat)
    requires Address(route, target).Some? && i < |tiers| && Works(route, tiers[i], target)
    ensures Guaranteed(route, tiers, target)
    decreases |tiers| - i
  {
    if AttemptableAfter(route, tiers, i + 1, target) {
      var j :| i + 1 <= j < |tiers| && Attemptable(route, tiers[j], target);
      assert Works(route, tiers[j], target);
      NeverStarved(route, tiers, target, j);
    } else {
      assert Sure(route, tiers, target, i);
    }
  }

  /** Without one, a Worker listed after the proxies starves them. */
  lemma WorkerStarvesProxies(route: Route)
    requires route.fallback.None? && route.config.workers != [] && route.config.proxies != []
    ensures Works(route, Mtproto, None) && !Guaranteed(route, [Mtproto, Cfworker], None)
  {
    var tiers := [Mtproto, Cfworker];
    assert Attemptable(route, tiers[1], None);
    assert AttemptableAfter(route, tiers, 1, None);
  }

  // ----- The default ladder -----------------------------------------------

  predicate HasFallback(route: Route) {
    route.config.workers != [] || route.config.cfDomains != [] || route.config.proxies != []
  }

  /** The order of the default ladder: a cooling address is tried last of all but raw TCP. */
  function DefaultOrder(hasTarget: bool, cooling: bool): seq<Tier> {
    if !hasTarget then [Cfworker, Cfproxy, Mtproto, Tcp]
    else if cooling then [Cfworker, Cfproxy, Mtproto, Ws, Tcp]
    else [Ws, Cfworker, Cfproxy, Mtproto, Tcp]
  }

  /** Cooldowns are respected on every rung. */
  function Unforced(order: seq<Tier>): (f: seq<bool>)
    ensures |f| == |order|
  {
    seq(|order|, i requires 0 <= i < |order| => false)
  }

  ghost predicate Default(route: Route, target: Option<string>, cooling: bool, rungs: seq<Rung>, link: Option<Link>) {
    var order := DefaultOrder(target.Some?, cooling);
    Climbed(route, target, order, Unforced(order), rungs, link)
  }

  ghost function DefaultLog(route: Route, target: Option<string>, cooling: bool, rungs: seq<Rung>): seq<Event>
    requires var order := DefaultOrder(target.Some?, cooling); Visited(route, target, order, Unforced(order), rungs)
  {
    var order := DefaultOrder(target.Some?, cooling);
    ClimbLog(route, target, order, Unforced(order), rungs)
  }

  /** Tier `tier` was visited before rung `i`, and lost. */
  ghost predicate LostBefore(rungs: seq<Rung>, i: int, tier: Tier) {
    exists j :: 0 <= j < i <= |rungs| && rungs[j].tier == tier && !rungs[j].won
  }

  ghost predicate FallbacksLostBefore(rungs: seq<Rung>, i: int) {
    LostBefore(rungs, i, Cfworker) && LostBefore(rungs, i, Cfproxy) && LostBefore(rungs, i, Mtproto)
  }

  /** What has to have failed before each rung.  `first` says that the direct path to the address goes before everything else. */
  ghost predicate Prioritised(target: Option<string>, first: bool, rungs: seq<Rung>) {
    && rungs != [] && (first ==> rungs[0].tier == Ws)
    && forall i :: 0 <= i < |rungs| ==>
         && (rungs[i].tier == Cfworker && first ==> LostBefore(rungs, i, Ws))
         && (rungs[i].tier == Cfproxy ==> LostBefore(rungs, i, Cfworker))
         && (rungs[i].tier == Mtproto ==> LostBefore(rungs, i, Cfworker) && LostBefore(rungs, i, Cfproxy))
         && (rungs[i].tier == Ws ==> target.Some? && rungs[i].how.Direct? && rungs[i].how.ip == target.value)
         && (rungs[i].tier == Ws ==> if first then i == 0 else FallbacksLostBefore(rungs, i))
         && (rungs[i].tier == Tcp ==> FallbacksLostBefore(rungs, i) && (target.Some? ==> LostBefore(rungs, i, Ws)))
  }

  lemma DefaultPriority(route: Route, target: Option<string>, cooling: bool, rungs: seq<Rung>, link: Option<Link>)
    requires Default(route, target, cooling, rungs, link)
    ensures Prioritised(target, target.Some? && !cooling, rungs)
  {
    hide Fits, Follows, WsDomains, Toured, WalkOk;
    var order := DefaultOrder(target.Some?, cooling);
    AllButLast(route, target, order, rungs, link);
    forall i, j | 0 <= j < i <= |rungs| && j < |rungs| - 1 ensures LostBefore(rungs, i, order[j]) {
      assert rungs[j].tier == order[j];
    }
    forall i | 0 <= i < |rungs| && rungs[i].tier == Ws ensures target.Some? && rungs[i].how.Direct? && rungs[i].how.ip == target.value {
      assert HowOk(route, target, order[i], false, rungs[i].won, rungs[i].how);
    }
    hide LostBefore, HowOk;
    var w := if target.Some? && !cooling then 1 else 0;
    assert order[w] == Cfworker && order[w + 1] == Cfproxy && order[w + 2] == Mtproto;
    forall i | 0 <= i < |rungs|
      ensures rungs[i].tier == Cfworker ==> i == w
      ensures rungs[i].tier == Cfproxy ==> i == w + 1
      ensures rungs[i].tier == Mtproto ==> i == w + 2
      ensures rungs[i].tier == Ws ==> i == if cooling then 3 else 0
      ensures rungs[i].tier == Tcp ==> i == |order| - 1
    {
      assert rungs[i].tier == order[i];
    }
    assert rungs[0].tier == order[0];
    if target.Some? {
      assert order[if cooling then 3 else 0] == Ws;
    }
  }

  lemma AllButLast(route: Route, target: Option<string>, order: seq<Tier>, rungs: seq<Rung>, link: Option<Link>)
    requires Climbed(route, target, order, Unforced(order), rungs, link) && order != []
    ensures rungs != [] && forall j :: 0 <= j < |rungs| - 1 ==> !rungs[j].won
  {
    hide HowOk, Fits;
    if link.Some? {
      var before := rungs[..|rungs| - 1];
      assert forall j :: 0 <= j < |rungs| - 1 ==> before[j] == rungs[j];
    }
  }

  /** A climb's accesses begin with those of its first rung. */
  lemma {:induction false} FirstRungFirst(route: Route, target: Option<string>, order: seq<Tier>, forces: seq<bool>, rungs: seq<Rung>)
    requires Visited(route, target, order, forces, rungs) && rungs != []
    ensures RungLog(route, target, forces[0], rungs[0]) <= ClimbLog(route, target, order, forces, rungs)
    decreases |rungs|
  {
    hide HowOk, RungLog;
    var n := |rungs| - 1;
    if n == 0 {
      assert rungs[..0] == [];
      assert ClimbLog(route, target, order, forces, rungs) == [] + RungLog(route, target, forces[0], rungs[0]);
    } else {
      FirstRungFirst(route, target, order, forces, rungs[..n]);
    }
  }

  /** A climb that has come so far without success, and the accesses it made. */
  ghost predicate Midway(net: Net, start: seq<Event>, route: Route, target: Option<string>, order: seq<Tier>, rungs: seq<Rung>, link: Option<Link>)
    reads net, net.cooldowns
  {
    && net.Valid() && Visited(route, target, order, Unforced(order), rungs)
    && net.log == start + ClimbLog(route, target, order, Unforced(order), rungs)
    && if link.None? then NoneWon(rungs) else Climbed(route, target, order, Unforced(order), rungs, link)
  }

  /** One more rung, already climbed. */
  lemma MidwayMore(start: seq<Event>, route: Route, target: Option<string>, order: seq<Tier>, rungs: seq<Rung>, link: Option<Link>, r: Rung,
                     before: seq<Event>, after: seq<Event>)
    requires Visited(route, target, order, Unforced(order), rungs) && NoneWon(rungs) && |rungs| < |order|
    requires RungOk(route, target, order[|rungs|], false, link, r)
    requires before == start + ClimbLog(route, target, order, Unforced(order), rungs) && after == before + RungLog(route, target, false, r)
    ensures Visited(route, target, order, Unforced(order), rungs + [r])
    ensures after == start + ClimbLog(route, target, order, Unforced(order), rungs + [r])
    ensures if link.None? then NoneWon(rungs + [r]) else Climbed(route, target, order, Unforced(order), rungs + [r], link)
  {
    hide HowOk, RungLog, ClimbLog, Climbed, NoneWon;
    ClimbMore(route, target, order, Unforced(order), rungs, link, r);
    Assoc(start, ClimbLog(route, target, order, Unforced(order), rungs), RungLog(route, target, false, r));
  }

  /** Worker, Cloudflare proxy, upstream proxies, stopping at the first success. */
  method FallbackChain(net: Net, route: Route, dst: string, target: Option<string>, ghost start: seq<Event>, ghost order: seq<Tier>, ghost before: seq<Rung>)
    returns (link: Option<Link>, ghost rungs: seq<Rung>)
    requires Midway(net, start, route, target, order, before, None) && |before| + 3 <= |order|
    requires order[|before|] == Cfworker && order[|before| + 1] == Cfproxy && order[|before| + 2] == Mtproto
    requires Address(route, target).Some?
    modifies net, net.cooldowns
    ensures Midway(net, start, route, target, order, rungs, link)
    ensures before <= rungs && |rungs| <= |before| + 3 && (link.None? ==> |rungs| == |before| + 3)
  {
    hide Truthful, HowOk, RungLog, ClimbLog, Climbed, NoneWon, RungOk, Visited;
    ghost var was := net.log;
    var worker, _, _, r1 := CfWorker(net, route, target, Some(dst), false);
    MidwayMore(start, route, target, order, before, worker, r1, was, net.log);
    link, rungs := worker, before + [r1];
    if link.Some? {
      return;
    }
    was := net.log;
    var proxy, _, r2 := CfProxy(net, route, target, false);
    MidwayMore(start, route, target, order, rungs, proxy, r2, was, net.log);
    link, rungs := proxy, rungs + [r2];
    if link.Some? {
      return;
    }
    was := net.log;
    ghost var r3;
    link, r3 := UpstreamProxies(net, route, target, false);
    MidwayMore(start, route, target, order, rungs, link, r3, was, net.log);
    rungs := rungs + [r3];
  }

  /** Raw TCP ends the ladder. */
  method TcpFallback(net: Net, route: Route, target: Option<string>, ghost start: seq<Event>, ghost order: seq<Tier>, ghost before: seq<Rung>)
    returns (link: Option<Link>, ghost rungs: seq<Rung>)
    requires Midway(net, start, route, target, order, before, None) && |before| == |order| - 1 && order[|before|] == Tcp
    requires Address(route, target).Some?
    ensures Midway(net, start, route, target, order, rungs, link) && link.Some?
  {
    hide Truthful, ClimbLog, Climbed, NoneWon;
    var dst := OrElse(route.fallback, target);
    link := Some(ViaTcp(dst.value));
    ghost var r := Rung(Tcp, true, Raw);
    MidwayMore(start, route, target, order, before, link, r, net.log, net.log);
    rungs := before + [r];
  }

  /**
    An addressed DC always gets an upstream, and all the accesses of the
    connection are those of the rungs it climbed.
   */
  method DefaultLadder(net: Net, route: Route, target: Option<string>)
    returns (link: Option<Link>, ghost cooling: bool, ghost looks: seq<Event>, ghost rungs: seq<Rung>)
    requires net.Valid()
    modifies net, net.cooldowns
    ensures net.Valid() && (link.Some? <==> Address(route, target).Some?)
    ensures link.None? ==> net.log == old(net.log)
    ensures link.Some? ==> Default(route, target, cooling, rungs, link)
    ensures link.Some? ==> net.log == old(net.log) + looks + DefaultLog(route, target, cooling, rungs)
    ensures target.None? ==> looks == []
    ensures target.Some? ==> |looks| == 1 && looks[0].Looked? && looks[0].subject == DcIp(target.value)
                             && cooling == (looks[0].cooling && HasFallback(route))
    ensures var fallbacks := route.config.workers + route.config.cfDomains + route.config.proxies;
            link.Some? ==> Prioritised(target, target.Some? && (!looks[0].cooling || fallbacks == []), rungs)
    ensures var fallbacks := route.config.workers + route.config.cfDomains + route.config.proxies;
            target.Some? && (!looks[0].cooling || fallbacks == []) ==>
              old(net.log) + looks + RungLog(route, target, false, rungs[0]) <= net.log
  {
    hide Truthful, HowOk, RungLog, ClimbLog, NoneWon, Fits, Prioritised;
    cooling, looks, rungs := false, [], [];
    if target.None? && route.fallback.None? {
      return None, false, [], [];
    }
    if target.None? {
      ghost var order := DefaultOrder(false, false);
      NoRungs(route, target, order, Unforced(order));
      link, rungs := FallbackChain(net, route, route.fallback.value, target, net.log, order, []);
      if link.None? {
        link, rungs := TcpFallback(net, route, target, old(net.log), order, rungs);
      }
      DefaultPriority(route, target, false, rungs, link);
      return;
    }
    var ip := target.value;
    var active := net.Active(DcIp(ip));
    looks := [Looked(DcIp(ip), active)];
    if active && HasFallback(route) {
      cooling := true;
      link, rungs := CoolingLadder(net, route, ip, target);
    } else {
      link, rungs := DirectLadder(net, route, ip, target);
    }
    ghost var order := DefaultOrder(true, cooling);
    DefaultPriority(route, target, cooling, rungs, link);
    AllButLast(route, target, order, rungs, link);
    FirstRungFirst(route, target, order, Unforced(order), rungs);
    PrefixKept(old(net.log) + looks, RungLog(route, target, false, rungs[0]), DefaultLog(route, target, cooling, rungs));
  }

  lemma PrefixKept<T>(a: seq<T>, b: seq<T>, c: seq<T>)
    requires b <= c
    ensures a + b <= a + c
  {
    assert c == b + c[|b|..];
    Assoc(a, b, c[|b|..]);
  }

  /** The address is stepped over: the fallbacks first, and only if they all fail the address after all. */
  method CoolingLadder(net: Net, route: Route, ip: string, target: Option<string>) returns (link: Option<Link>, ghost rungs: seq<Rung>)
    requires net.Valid() && target == Some(ip)
    modifies net, net.cooldowns
    ensures net.Valid() && link.Some? && Default(route, target, true, rungs, link)
    ensures net.log == old(net.log) + DefaultLog(route, target, true, rungs)
  {
    hide Truthful, HowOk, RungLog, ClimbLog, NoneWon, Fits, RungOk;
    ghost var order, start := DefaultOrder(true, true), net.log;
    NoRungs(route, target, order, Unforced(order));
    link, rungs := FallbackChain(net, route, ip, target, start, order, []);
    if link.Some? {
      return;
    }
    ghost var was, r := net.log, Rung(Ws, false, Unable);
    link, r := DirectWsTier(net, route, target, false);
    MidwayMore(start, route, target, order, rungs, link, r, was, net.log);
    rungs := rungs + [r];
    if link.None? {
      link, rungs := TcpFallback(net, route, target, start, order, rungs);
    }
  }

  /** The direct path first, then the fallbacks. */
  method DirectLadder(net: Net, route: Route, ip: string, target: Option<string>) returns (link: Option<Link>, ghost rungs: seq<Rung>)
    requires net.Valid() && target == Some(ip)
    modifies net, net.cooldowns
    ensures net.Valid() && link.Some? && Default(route, target, false, rungs, link)
    ensures net.log == old(net.log) + DefaultLog(route, target, false, rungs)
  {
    hide Truthful, HowOk, RungLog, ClimbLog, NoneWon, Fits, RungOk;
    ghost var order, start := DefaultOrder(true, false), net.log;
    NoRungs(route, target, order, Unforced(order));
    ghost var r;
    link, r := DirectWsTier(net, route, target, false);
    MidwayMore(start, route, target, order, [], link, r, start, net.log);
    rungs := [] + [r];
    if link.Some? {
      return;
    }
    link, rungs := FallbackChain(net, route, ip, target, start, order, rungs);
    if link.None? {
      link, rungs := TcpFallback(net, route, target, start, order, rungs);
    }
  }

  // ----- What the default ladder promises ---------------------------------

  function TotalCost(route: Route, order: seq<Tier>): nat {
    if order == [] then 0 else TotalCost(route, order[..|order| - 1]) + Cost(route, order[|order| - 1])
  }

  lemma {:induction false} ClimbCost(route: Route, target: Option<string>, order: seq<Tier>, forces: seq<bool>, rungs: seq<Rung>)
    requires Visited(route, target, order, forces, rungs)
    ensures DialCount(ClimbLog(route, target, order, forces, rungs)) <= TotalCost(route, order[..|rungs|])
    decreases |rungs|
  {
    hide Cost, HowOk, RungLog, DialCount;
    if rungs == [] {
      NoDials(ClimbLog(route, target, order, forces, rungs));
    } else {
      var n := |rungs| - 1;
      var before, last := ClimbLog(route, target, order, forces, rungs[..n]), RungLog(route, target, forces[n], rungs[n]);
      assert ClimbLog(route, target, order, forces, rungs) == before + last;
      hide ClimbLog;
      ClimbCost(route, target, order, forces, rungs[..n]);
      OneRungCost(route, target, order[n], forces[n], rungs[n]);
      DialCountAppend(before, last);
      assert order[..n + 1][..n] == order[..n];
    }
  }

  lemma OneRungCost(route: Route, target: Option<string>, tier: Tier, force: bool, r: Rung)
    requires r.tier == tier && HowOk(route, target, tier, force, r.won, r.how)
    ensures DialCount(RungLog(route, target, force, r)) <= Cost(route, tier)
  {
    hide DialCount, RungLog, Cost, Toured, WalkOk, Follows;
    var link := if !r.won then None
                else match tier {
                  case Ws => Some(ViaWs(Framing.Packets))
                  case Cfworker => Some(ViaWs(Framing.Tunnel))
                  case Cfproxy => Some(ViaWs(Framing.Packets))
                  case Mtproto => Some(ViaMtproto(if r.how.visits == [] then "" else r.how.visits[|r.how.visits| - 1].name))
                  case Tcp => Some(ViaTcp(Address(route, target).value))
                };
    if tier.Mtproto? && r.won {
      TourShape(Proxies(route, force), route.config.proxies, r.how.visits, true);
    }
    RungCost(route, target, tier, force, link, r);
  }

  lemma {:induction false} CostOfPart(route: Route, order: seq<Tier>, n: nat)
    requires n <= |order|
    ensures TotalCost(route, order[..n]) <= TotalCost(route, order)
    decreases |order| - n
  {
    hide Cost;
    if n == |order| {
      assert order[..n] == order;
    } else {
      assert order[..n + 1][..n] == order[..n];
      CostOfPart(route, order, n + 1);
    }
  }

  lemma DefaultCost(route: Route, hasTarget: bool, cooling: bool)
    ensures TotalCost(route, DefaultOrder(hasTarget, cooling))
            <= Cost(route, Ws) + Cost(route, Cfworker) + Cost(route, Cfproxy) + Cost(route, Mtproto) + Cost(route, Tcp)
  {
    hide Cost;
    var order := DefaultOrder(hasTarget, cooling);
    assert order[..3][..2] == order[..2] && order[..2][..1] == order[..1];
    assert TotalCost(route, order[..1]) == Cost(route, order[0]);
    assert TotalCost(route, order[..2]) == Cost(route, order[0]) + Cost(route, order[1]);
    assert TotalCost(route, order[..3]) == TotalCost(route, order[..2]) + Cost(route, order[2]);
    if hasTarget {
      assert order[..4][..3] == order[..3];
      assert TotalCost(route, order[..4]) == TotalCost(route, order[..3]) + Cost(route, order[3]);
    }
  }

  /** However the default ladder ends, at most 2 + W m + 2 D m + M + 1 dials are made, the raw TCP one included. */
  lemma DefaultLadderBound(route: Route, target: Option<string>, cooling: bool, rungs: seq<Rung>, link: Option<Link>)
    requires Default(route, target, cooling, rungs, link)
    ensures var m := if route.config.opts.ips == [] then 1 else |route.config.opts.ips|;
            DialCount(DefaultLog(route, target, cooling, rungs)) + (if link.Some? && link.value.ViaTcp? then 1 else 0)
            <= 2 + |route.config.workers| * m + 2 * |Elements(route.config.cfDomains)| * m + |route.config.proxies| + 1
  {
    hide HowOk, ClimbLog, DialCount, NoneWon, Fits;
    var order := DefaultOrder(target.Some?, cooling);
    ClimbCost(route, target, order, Unforced(order), rungs);
    CostOfPart(route, order, |rungs|);
    DefaultCost(route, target.Some?, cooling);
    hide TotalCost;
  }

  /**
    No tier is visited twice; a clear address goes first and a cooling one after
    the fallbacks, which follow each other from the Worker to the proxies; raw
    TCP comes when all the others have lost, and leads to the built-in address of
    the DC if it has one; Tunnel framing is used exactly for Workers.
   */
  lemma DefaultLadderOrder(route: Route, target: Option<string>, cooling: bool, rungs: seq<Rung>, link: Link)
    requires Default(route, target, cooling, rungs, Some(link))
    ensures forall i, j :: 0 <= i < j < |rungs| ==> rungs[i].tier != rungs[j].tier
    ensures forall i :: 0 <= i < |rungs| - 1 ==> !rungs[i].won
    ensures Prioritised(target, target.Some? && !cooling, rungs)
    ensures link.ViaTcp? ==> |rungs| == if target.Some? then 5 else 4
    ensures link.ViaTcp? ==> link.dst == if route.fallback.Some? then route.fallback.value else target.value
    ensures link == ViaWs(Framing.Tunnel) <==> rungs[|rungs| - 1].tier == Cfworker
  {
    DefaultPriority(route, target, cooling, rungs, Some(link));
    hide HowOk, Prioritised;
    var order := DefaultOrder(target.Some?, cooling);
    DifferentTiers(target.Some?, cooling);
    AllButLast(route, target, order, rungs, Some(link));
    var last := rungs[|rungs| - 1];
    assert last.tier == order[|rungs| - 1] && Fits(route, target, last, link);
    hide NoneWon, Climbed;
    if link.ViaTcp? {
      assert last.tier == Tcp;
      LastTier(target.Some?, cooling, |rungs| - 1);
    }
  }

  lemma DifferentTiers(hasTarget: bool, cooling: bool)
    ensures var order := DefaultOrder(hasTarget, cooling); forall i, j :: 0 <= i < j < |order| ==> order[i] != order[j]
  {
  }

  lemma LastTier(hasTarget: bool, cooling: bool, i: nat)
    requires i < |DefaultOrder(hasTarget, cooling)| && DefaultOrder(hasTarget, cooling)[i] == Tcp
    ensures i == if hasTarget then 4 else 3
  {
  }

  /**
    A tier of the default ladder that lost without a dial had nothing to offer,
    or each of its names had been looked at and found cooling.
   */
  lemma LostForAReason(route: Route, target: Option<string>, cooling: bool, rungs: seq<Rung>, link: Option<Link>, i: nat)
    requires Default(route, target, cooling, rungs, link) && i < |rungs| && !rungs[i].won
    requires DialCount(RungLog(route, target, false, rungs[i])) == 0
    ensures var tier := rungs[i].tier;
            || !Works(route, tier, target)
            || (!Always(tier) && forall name :: name in Names(route, tier) ==> Looked(NamedBy(tier, name), true) in DefaultLog(route, target, cooling, rungs))
  {
    hide HowOk, DialCount, RungLog, ClimbLog, NoneWon, Fits;
    var order := DefaultOrder(target.Some?, cooling);
    RungAt(route, target, order, Unforced(order), rungs, link, i);
    IdleReason(route, target, order[i], LinkAt(rungs, link, i), rungs[i]);
    ClimbHas(route, target, order, Unforced(order), rungs, i);
  }

  /** A cooling address whose fallbacks have all failed is really tried. */
  lemma CoolingIsReprobed(route: Route, target: Option<string>, rungs: seq<Rung>, link: Option<Link>)
    requires Default(route, target, true, rungs, link) && target.Some? && |rungs| >= 3 && !rungs[2].won
    ensures |rungs| > 3 && rungs[3].tier == Ws && rungs[3].how.ip == target.value
    ensures rungs[3].how.hit || exists host, r :: Dialled(target.value, host, r) in DefaultLog(route, target, true, rungs)
  {
    hide ClimbLog, Fits;
    var order := DefaultOrder(true, true);
    StoppedEarly(route, target, order, Unforced(order), rungs, link);
    var h := rungs[3].how;
    if !h.hit {
      ClimbHas(route, target, order, Unforced(order), rungs, 3);
      var log := RungLog(route, target, false, rungs[3]);
      assert log[4] == Dialled(h.ip, h.tried[0], h.results[0]);
      assert log[4] in log;
    }
  }
}
