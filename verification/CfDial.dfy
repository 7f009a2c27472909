/** How a Cloudflare or direct connect walks its hosts and edges (src/ws_client.rs). */
module CfDial {
  import opened Bytes
  import opened Cooldowns
  import opened Network
  import opened Rotation

  // ----- Edges ------------------------------------------------------------

  /** Preferred edge addresses, plaintext or not, cooldown length, and which addresses bypass the outbound proxy. */
  datatype Opts = Opts(ips: seq<string>, disableTls: bool, failCooldown: nat, direct: string -> bool)

  function Edge(o: Opts, ip: string): Subject { if o.disableTls then PlainEdge(ip) else TlsEdge(ip) }

  /** At most so many dials per connect. */
  function Width(o: Opts): (m: nat)
    ensures m >= 1
  {
    if |o.ips| <= 1 then 1 else |o.ips|
  }

  function CoolingEdges(o: Opts, entries: map<Subject, nat>, now: nat): set<string> {
    set ip | ip in o.ips && o.direct(ip) && Cooling(entries, Edge(o, ip), now)
  }

  /** An edge that answers in any way is cleared; only a direct connect that timed out cools it. */
  function EdgeEvents(o: Opts, host: string, ip: string, r: WsResult): seq<Event> {
    [Dialled(ip, host, r)]
    + if !r.ConnectTimedOut? then [Noted(Clear(Edge(o, ip)))]
      else if o.direct(ip) then [Noted(Cool(Edge(o, ip), o.failCooldown))]
      else []
  }

  function EdgeLog(o: Opts, host: string, dialed: seq<string>, results: seq<WsResult>): seq<Event>
    requires |dialed| == |results|
    decreases |dialed|
  {
    if dialed == [] then []
    else
      var n := |dialed| - 1;
      EdgeLog(o, host, dialed[..n], results[..n]) + EdgeEvents(o, host, dialed[n], results[n])
  }

  /** The last result that was no redirect. */
  function LastOther(results: seq<WsResult>): Option<WsResult> {
    if results == [] then None
    else
      var n := |results| - 1;
      if results[n].Redirect? then LastOther(results[..n]) else Some(results[n])
  }

  /** A redirect is reported only if nothing else happened. */
  function Verdict(results: seq<WsResult>): WsResult
    requires results != []
  {
    match LastOther(results)
    case Some(r) => r
    case None => results[|results| - 1]
  }

  /** Only the last dial may have connected. */
  ghost predicate EndsAtSuccess(results: seq<WsResult>) {
    forall i :: 0 <= i < |results| - 1 ==> !results[i].Connected?
  }

  ghost predicate Won(results: seq<WsResult>) { results != [] && results[|results| - 1].Connected? }

  lemma {:induction false} LastOtherNone(results: seq<WsResult>)
    ensures LastOther(results).None? <==> forall i :: 0 <= i < |results| ==> results[i].Redirect?
    ensures LastOther(results).Some? ==> LastOther(results).value in results && !LastOther(results).value.Redirect?
  {
    if results != [] {
      LastOtherNone(results[..|results| - 1]);
    }
  }

  lemma VerdictConnected(results: seq<WsResult>)
    requires results != [] && EndsAtSuccess(results)
    ensures Verdict(results).Connected? <==> Won(results)
    ensures Verdict(results).Redirect? <==> forall i :: 0 <= i < |results| ==> results[i].Redirect?
    ensures Verdict(results) in results
  {
    LastOtherNone(results);
  }

  /** The verdict is the last result but for redirects, and the last redirect if there is nothing else. */
  lemma {:induction false} VerdictIsLast(results: seq<WsResult>) returns (i: nat)
    requires results != []
    ensures i < |results| && Verdict(results) == results[i]
    ensures if results[i].Redirect? then i == |results| - 1 && (forall j :: 0 <= j < |results| ==> results[j].Redirect?)
            else forall j :: i < j < |results| ==> results[j].Redirect?
  {
    i := |results| - 1;
    LastOtherNone(results);
    assert results[..i + 1] == results;
    while i > 0 && results[i].Redirect? && LastOther(results).Some?
      invariant i < |results| && LastOther(results) == LastOther(results[..i + 1])
      invariant forall j :: i < j < |results| ==> results[j].Redirect?
      invariant LastOther(results).None? ==> i == |results| - 1
    {
      assert results[..i + 1][..i] == results[..i];
      i := i - 1;
    }
    assert results[..i + 1][i] == results[i];
  }

  /** One more edge. */
  lemma EdgeLogPush(o: Opts, host: string, dialed: seq<string>, results: seq<WsResult>, ip: string, r: WsResult)
    requires |dialed| == |results|
    ensures EdgeLog(o, host, dialed + [ip], results + [r]) == EdgeLog(o, host, dialed, results) + EdgeEvents(o, host, ip, r)
    ensures LastOther(results + [r]) == if r.Redirect? then LastOther(results) else Some(r)
  {
    assert (dialed + [ip])[..|dialed|] == dialed && (results + [r])[..|results|] == results;
  }

  lemma {:induction false} EdgeLogDials(o: Opts, host: string, dialed: seq<string>, results: seq<WsResult>)
    requires |dialed| == |results|
    ensures DialCount(EdgeLog(o, host, dialed, results)) == |dialed|
    decreases |dialed|
  {
    if dialed != [] {
      var n := |dialed| - 1;
      EdgeLogDials(o, host, dialed[..n], results[..n]);
      DialCountAppend(EdgeLog(o, host, dialed[..n], results[..n]), EdgeEvents(o, host, dialed[n], results[n]));
      OneEdgeDial(o, host, dialed[n], results[n]);
    }
  }

  lemma OneEdgeDial(o: Opts, host: string, ip: string, r: WsResult)
    ensures DialCount(EdgeEvents(o, host, ip, r)) == 1
  {
    var dial := [Dialled(ip, host, r)];
    var notes := EdgeEvents(o, host, ip, r)[1..];
    assert EdgeEvents(o, host, ip, r) == dial + notes;
    OneDial(dial);
    DialCountAppend(dial, notes);
    NoDials(notes);
  }

  /** The dials follow the plan, up to the first that connects. */
  ghost predicate Follows(dialed: seq<string>, plan: seq<string>, results: seq<WsResult>) {
    && 1 <= |dialed| == |results| && dialed <= plan && EndsAtSuccess(results)
    && (dialed == plan || Won(results))
  }

  /** One connect: the turn taken, the cooldowns seen, and the edges dialled with their results. */
  datatype CfTry = CfTry(count: nat, entries: map<Subject, nat>, now: nat, dialed: seq<string>, results: seq<WsResult>)

  /** The host itself when there are no preferred edges, and otherwise never. */
  function Plan(o: Opts, host: string, t: CfTry): seq<string> {
    if o.ips == [] then [host]
    else EdgeAttempts(o.ips, OffsetOf(|o.ips|, true, t.count), CoolingEdges(o, t.entries, t.now))
  }

  ghost predicate TryOk(o: Opts, host: string, t: CfTry) { Follows(t.dialed, Plan(o, host, t), t.results) }

  /** All it did. */
  function TryLog(o: Opts, host: string, t: CfTry): seq<Event>
    requires |t.dialed| == |t.results|
  {
    if o.ips == [] then (if t.results == [] then [] else [Dialled(host, host, t.results[0])])
    else CountLog(EdgeCounter, |o.ips|, true, t.count) + [Peeked(t.entries, t.now)] + EdgeLog(o, host, t.dialed, t.results)
  }

  /** One connect through the preferred edges, or to the host itself when there are none. */
  method ConnectCf(net: Net, host: string, o: Opts) returns (r: WsResult, ghost t: CfTry)
    requires net.Valid()
    modifies net, net.cooldowns
    ensures net.Valid() && TryOk(o, host, t) && net.log == old(net.log) + TryLog(o, host, t)
    ensures r == Verdict(t.results)
  {
    hide EdgeLog, EdgeAttempts, Truthful, CoolingEdges, Verdict;
    if o.ips == [] {
      r := net.Dial(host, host);
      SingleVerdict(r);
      t := CfTry(0, map[], 0, [host], [r]);
      return;
    }
    var first, count := net.Offset(EdgeCounter, |o.ips|, true);
    var entries, now := net.Peek();
    var plan := EdgeAttempts(o.ips, first, CoolingEdges(o, entries, now));
    EdgeSelection(o.ips, first, CoolingEdges(o, entries, now));
    ghost var before := net.log;
    ghost var dialed, results;
    r, dialed, results := DialEdges(net, host, o, plan);
    t := CfTry(count, entries, now, dialed, results);
    Assoc(old(net.log), CountLog(EdgeCounter, |o.ips|, true, count), [Peeked(entries, now)]);
    Assoc(old(net.log), CountLog(EdgeCounter, |o.ips|, true, count) + [Peeked(entries, now)], EdgeLog(o, host, dialed, results));
  }

  lemma SingleVerdict(r: WsResult)
    ensures Verdict([r]) == r
  {
    LastOtherNone([r]);
    hide LastOther;
  }

  lemma EmptyWalk(o: Opts, host: string)
    ensures LastOther([]) == None && EdgeLog(o, host, [], []) == []
  {
  }

  method DialEdges(net: Net, host: string, o: Opts, plan: seq<string>)
    returns (r: WsResult, ghost dialed: seq<string>, ghost results: seq<WsResult>)
    requires net.Valid() && plan != []
    modifies net, net.cooldowns
    ensures net.Valid() && Follows(dialed, plan, results) && r == Verdict(results)
    ensures net.log == old(net.log) + EdgeLog(o, host, dialed, results)
  {
    hide Edge, LastOther, EdgeLog, Truthful;
    assert LastOther([]) == None && EdgeLog(o, host, [], []) == [] by { EmptyWalk(o, host); }
    var lastNonRedirect: Option<WsResult>, lastRedirect: Option<WsResult> := None, None;
    dialed, results := [], [];
    for i := 0 to |plan|
      invariant net.Valid() && dialed == plan[..i] && |results| == i
      invariant forall k :: 0 <= k < i ==> !results[k].Connected?
      invariant lastNonRedirect == LastOther(results)
      invariant i > 0 && lastNonRedirect.None? ==> lastRedirect == Some(results[i - 1])
      invariant net.log == old(net.log) + EdgeLog(o, host, dialed, results)
    {
      var ip := plan[i];
      r := net.Dial(ip, host);
      EdgeLogPush(o, host, dialed, results, ip, r);
      if r.ConnectTimedOut? {
        if o.direct(ip) {
          net.Record(Cool(Edge(o, ip), o.failCooldown));
        }
      } else {
        net.Record(Clear(Edge(o, ip)));
      }
      Assoc(old(net.log), EdgeLog(o, host, dialed, results), EdgeEvents(o, host, ip, r));
      dialed, results := dialed + [ip], results + [r];
      if r.Connected? {
        return;
      } else if r.Redirect? {
        lastRedirect := Some(r);
      } else {
        lastNonRedirect := Some(r);
      }
    }
    VerdictConnected(results);
    r := if lastNonRedirect.Some? then lastNonRedirect.value else lastRedirect.value;
  }

  lemma EdgeTryDials(o: Opts, host: string, t: CfTry)
    requires o.ips != [] && |t.dialed| == |t.results|
    ensures DialCount(TryLog(o, host, t)) == |t.dialed|
  {
    var head := CountLog(EdgeCounter, |o.ips|, true, t.count) + [Peeked(t.entries, t.now)];
    NoDials(head);
    EdgeLogDials(o, host, t.dialed, t.results);
    hide DialCount, EdgeLog;
    DialCountAppend(head, EdgeLog(o, host, t.dialed, t.results));
  }

  /** Between one dial and one for each edge, all but the last of which failed. */
  lemma TryDials(o: Opts, host: string, t: CfTry)
    requires TryOk(o, host, t)
    ensures DialCount(TryLog(o, host, t)) == |t.dialed| && 1 <= |t.dialed| <= Width(o)
    ensures Verdict(t.results).Connected? <==> Won(t.results)
  {
    VerdictConnected(t.results);
    hide EdgeAttempts, Verdict, Won, EndsAtSuccess, CoolingEdges, EdgeLog, DialCount;
    if o.ips == [] {
      assert TryLog(o, host, t) == [Dialled(host, host, t.results[0])];
      OneDial(TryLog(o, host, t));
    } else {
      EdgeSelection(o.ips, OffsetOf(|o.ips|, true, t.count), CoolingEdges(o, t.entries, t.now));
      EdgeTryDials(o, host, t);
      hide TryLog;
    }
  }

  lemma OneDial(log: seq<Event>)
    requires |log| == 1 && log[0].Dialled?
    ensures DialCount(log) == 1
  {
    assert log[..0] == [];
  }

  /** The last dial of a connect, and how it ended. */
  lemma TryLastDial(o: Opts, host: string, t: CfTry) returns (d: nat)
    requires TryOk(o, host, t)
    ensures t.results != [] && |t.dialed| == |t.results| && d < |TryLog(o, host, t)|
    ensures var n := |t.results| - 1; TryLog(o, host, t)[d] == Dialled(t.dialed[n], host, t.results[n])
    ensures forall i :: d < i < |TryLog(o, host, t)| ==> !TryLog(o, host, t)[i].Dialled?
  {
    hide EdgeAttempts, EndsAtSuccess, CoolingEdges;
    var n := |t.results| - 1;
    if o.ips == [] {
      d := 0;
      assert t.dialed <= [host];
      assert t.dialed == [host];
    } else {
      var head, before := CountLog(EdgeCounter, |o.ips|, true, t.count) + [Peeked(t.entries, t.now)], EdgeLog(o, host, t.dialed[..n], t.results[..n]);
      assert EdgeLog(o, host, t.dialed, t.results) == before + EdgeEvents(o, host, t.dialed[n], t.results[n]);
      d := |head| + |before|;
    }
  }

  /** `events` stand at `d`, and the next dial or nothing follows them. */
  ghost predicate StandAt(log: seq<Event>, events: seq<Event>, d: int) {
    && 0 <= d <= d + |events| <= |log| && log[d..d + |events|] == events
    && (d + |events| == |log| || log[d + |events|].Dialled?)
  }

  lemma StandBefore(before: seq<Event>, last: seq<Event>, events: seq<Event>, d: int)
    requires StandAt(before, events, d) && last != [] && last[0].Dialled?
    ensures StandAt(before + last, events, d)
  {
    SubOfPrefix(before, before + last, d, d + |events|);
  }

  lemma StandLast(before: seq<Event>, last: seq<Event>)
    ensures StandAt(before + last, last, |before|)
  {
  }

  lemma {:induction false} EdgeEventsAt(o: Opts, host: string, dialed: seq<string>, results: seq<WsResult>, i: nat) returns (d: nat)
    requires |dialed| == |results| && i < |dialed|
    ensures StandAt(EdgeLog(o, host, dialed, results), EdgeEvents(o, host, dialed[i], results[i]), d)
    decreases |dialed|
  {
    hide EdgeEvents, StandAt;
    var n := |dialed| - 1;
    var before, last := EdgeLog(o, host, dialed[..n], results[..n]), EdgeEvents(o, host, dialed[n], results[n]);
    if i == n {
      d := |before|;
      StandLast(before, last);
    } else {
      d := EdgeEventsAt(o, host, dialed[..n], results[..n], i);
      FirstIsDial(o, host, dialed[n], results[n]);
      StandBefore(before, last, EdgeEvents(o, host, dialed[i], results[i]), d);
    }
  }

  lemma FirstIsDial(o: Opts, host: string, ip: string, r: WsResult)
    ensures EdgeEvents(o, host, ip, r) != [] && EdgeEvents(o, host, ip, r)[0] == Dialled(ip, host, r)
  {
  }

  /**
    What the dial of an edge leaves behind, right after it: an edge that answers
    at all is cleared, one that times out on a direct connect cools, and one that
    times out behind the outbound proxy is left alone.
   */
  lemma EdgeNoted(o: Opts, host: string, t: CfTry, i: nat) returns (d: nat)
    requires TryOk(o, host, t) && o.ips != [] && i < |t.dialed|
    ensures var log, ip, r := TryLog(o, host, t), t.dialed[i], t.results[i];
            var edge := if o.disableTls then PlainEdge(ip) else TlsEdge(ip);
            && d < |log| && log[d] == Dialled(ip, host, r)
            && (r != ConnectTimedOut ==> d + 1 < |log| && log[d + 1] == Noted(Clear(edge)))
            && (r == ConnectTimedOut && o.direct(ip) ==> d + 1 < |log| && log[d + 1] == Noted(Cool(edge, o.failCooldown)))
            && (r == ConnectTimedOut && !o.direct(ip) ==> d + 1 == |log| || log[d + 1].Dialled?)
  {
    hide Plan, EndsAtSuccess;
    var head, tail := CountLog(EdgeCounter, |o.ips|, true, t.count) + [Peeked(t.entries, t.now)], EdgeLog(o, host, t.dialed, t.results);
    var ip, r := t.dialed[i], t.results[i];
    var e := EdgeEventsAt(o, host, t.dialed, t.results, i);
    var events := EdgeEvents(o, host, ip, r);
    d := |head| + e;
    hide EdgeLog;
    assert events[0] == tail[e..e + |events|][0] && (|events| > 1 ==> events[1] == tail[e..e + |events|][1]);
    assert TryLog(o, host, t) == head + tail;
  }

  /** An edge that is dialled directly and whose own cooldown, for its kind of connection, is running. */
  ghost predicate HeldBack(o: Opts, t: CfTry, ip: string) {
    var edge := if o.disableTls then PlainEdge(ip) else TlsEdge(ip);
    o.direct(ip) && edge in t.entries && t.now < t.entries[edge]
  }

  /** Every edge that is not held back is due, and no other; if all are held back, one of them is. */
  lemma PlanSkips(o: Opts, host: string, t: CfTry, ip: string)
    requires o.ips != [] && ip in o.ips
    ensures if exists x :: x in o.ips && !HeldBack(o, t, x) then ip in Plan(o, host, t) <==> !HeldBack(o, t, ip)
            else |Plan(o, host, t)| == 1 && Plan(o, host, t)[0] in o.ips
  {
    var first, cooling := OffsetOf(|o.ips|, true, t.count), CoolingEdges(o, t.entries, t.now);
    assert forall x :: x in o.ips ==> (x in cooling <==> HeldBack(o, t, x));
    EdgeMembers(o.ips, first, cooling, ip);
    EdgeSelection(o.ips, first, cooling);
    hide EdgeAttempts, HeldBack, CoolingEdges;
    if forall x :: x in o.ips ==> HeldBack(o, t, x) {
      assert AllIn(o.ips, cooling);
    }
  }

  /** With preferred edges the host name is never dialled, only configured edges. */
  lemma TryTargets(o: Opts, host: string, t: CfTry, i: nat)
    requires TryOk(o, host, t) && o.ips != [] && i < |t.dialed|
    ensures t.dialed[i] in o.ips
  {
    hide EdgeAttempts, Won, EndsAtSuccess, CoolingEdges;
    EdgeMembers(o.ips, OffsetOf(|o.ips|, true, t.count), CoolingEdges(o, t.entries, t.now), t.dialed[i]);
    assert t.dialed[i] == Plan(o, host, t)[i];
  }

  // ----- Hosts ------------------------------------------------------------

  function Decimal(n: nat): string {
    if n < 10 then ["0123456789"[n]] else Decimal(n / 10) + ["0123456789"[n % 10]]
  }

  /** The number a decimal numeral stands for. */
  ghost function NumeralValue(s: string): int {
    if s == [] then 0 else 10 * NumeralValue(s[..|s| - 1]) + (s[|s| - 1] as int - '0' as int)
  }

  /** DC numbers are written in decimal, without leading zeros. */
  lemma {:induction false} DecimalReads(n: nat)
    ensures NumeralValue(Decimal(n)) == n
    ensures Decimal(n) != [] && (forall c :: c in Decimal(n) ==> '0' <= c <= '9') && (n > 0 ==> Decimal(n)[0] != '0')
  {
    var d := "0123456789";
    assert forall i :: 0 <= i < 10 ==> d[i] as int == '0' as int + i;
    if n < 10 {
      assert Decimal(n)[..0] == [];
    } else {
      DecimalReads(n / 10);
      assert Decimal(n)[..|Decimal(n)| - 1] == Decimal(n / 10);
    }
  }

  /** The record of a DC in a Cloudflare zone. */
  function Record(dc: nat, domain: string): string { "kws" + Decimal(dc) + "." + domain }

  /** It starts with the DC's number and ends with the zone. */
  lemma RecordReads(dc: nat, domain: string)
    ensures var r := Record(dc, domain); var n := |r| - |domain|;
            && n >= 4 && r[..3] == "kws" && r[n - 1] == '.' && r[n..] == domain && NumeralValue(r[3..n - 1]) == dc
  {
    DecimalReads(dc);
    var r, n := Record(dc, domain), 4 + |Decimal(dc)|;
    assert r[3..n - 1] == Decimal(dc) && r[n..] == domain && r[..3] == "kws";
  }

  function Records(dc: nat, domains: seq<string>): (r: seq<string>)
    ensures |r| == |domains|
  {
    seq(|domains|, i requires 0 <= i < |domains| => Record(dc, domains[i]))
  }

  function Doubled(hosts: seq<string>): seq<string> {
    if hosts == [] then [] else [hosts[0], hosts[0]] + Doubled(hosts[1..])
  }

  lemma DoubledCons(dc: nat, domain: string, rest: seq<string>)
    ensures Doubled(Records(dc, [domain] + rest)) == [Record(dc, domain), Record(dc, domain)] + Doubled(Records(dc, rest))
  {
    hide Record;
    assert Records(dc, [domain] + rest)[1..] == Records(dc, rest);
  }

  /** The record walk: rotated, without repetitions, each host due twice. */
  class CfAttempts {
    const dc: nat
    const domains: seq<string>
    const firstDomain: nat
    var nextOrdinal: nat
    var pendingRetry: Option<nat>

    ghost predicate Valid()
      reads this
    {
      nextOrdinal <= |domains| && (pendingRetry.Some? ==> pendingRetry.value < |domains|)
    }

    ghost function Order(): (r: seq<string>)
      ensures |r| == |domains|
    {
      Rotated(domains, firstDomain)
    }

    /** The hosts still to come if nothing times out. */
    ghost function Remaining(): seq<string>
      requires Valid()
      reads this
    {
      (if pendingRetry.Some? then [Record(dc, domains[pendingRetry.value])] else [])
      + Doubled(Records(dc, FreshFrom(Order(), nextOrdinal)))
    }

    constructor (dc: nat, domains: seq<string>, first: nat)
      ensures Valid() && pendingRetry.None?
      ensures Remaining() == Doubled(Records(dc, Distinct(Rotated(domains, first))))
    {
      this.dc, this.domains := dc, domains;
      firstDomain := if domains == [] then 0 else first % |domains|;
      nextOrdinal, pendingRetry := 0, None;
      new;
      hide Rotated, FreshFrom, Records, Doubled;
      if domains != [] {
        RotatedReduced(domains, first);
      }
    }

    method NextDomain() returns (host: Option<string>)
      requires Valid()
      modifies this
      ensures Valid()
      ensures old(Remaining()) == [] ==> host.None? && Remaining() == []
      ensures old(Remaining()) != [] ==> host == Some(old(Remaining())[0]) && Remaining() == old(Remaining())[1..]
      ensures pendingRetry.Some? <==> host.Some? && old(pendingRetry).None?
    {
      if pendingRetry.Some? {
        host := Some(Record(dc, domains[pendingRetry.value]));
        pendingRetry := None;
      } else {
        hide Rotated, FreshFrom, Records, Doubled, Record;
        host := NextFresh();
      }
    }

    /** The next candidate not seen before; its retry becomes due. */
    method NextFresh() returns (host: Option<string>)
      requires Valid() && pendingRetry.None?
      modifies this
      ensures Valid()
      ensures old(Remaining()) == [] ==> host.None? && Remaining() == []
      ensures old(Remaining()) != [] ==> host == Some(old(Remaining())[0]) && Remaining() == old(Remaining())[1..]
      ensures pendingRetry.Some? <==> host.Some?
    {
      hide Rotated, FreshFrom, Records, Doubled, Record, Repeats;
      while nextOrdinal < |domains|
        invariant Valid() && pendingRetry.None?
        invariant Remaining() == old(Remaining())
      {
        var ordinal := nextOrdinal;
        nextOrdinal := nextOrdinal + 1;
        var index := (firstDomain + ordinal) % |domains|;
        FreshNext(ordinal);
        if Repeats(ordinal) {
          continue;
        }
        pendingRetry := Some(index);
        return Some(Record(dc, domains[index]));
      }
      FreshEnd();
      host := None;
    }

    function Candidate(ordinal: nat): string
      requires domains != []
    {
      domains[(firstDomain + ordinal) % |domains|]
    }

    /** An earlier candidate has the same name. */
    predicate Repeats(ordinal: nat)
      requires ordinal < |domains|
    {
      exists prior :: 0 <= prior < ordinal && Candidate(prior) == Candidate(ordinal)
    }

    lemma RepeatsIff(ordinal: nat)
      requires ordinal < |domains|
      ensures Repeats(ordinal) <==> Order()[ordinal] in Order()[..ordinal]
    {
      var seen := Order()[..ordinal];
      assert forall i :: 0 <= i < ordinal ==> seen[i] == Candidate(i);
      assert Order()[ordinal] == Candidate(ordinal);
      hide Candidate;
    }

    lemma FreshNext(ordinal: nat)
      requires ordinal < |domains|
      ensures Repeats(ordinal) ==> FreshFrom(Order(), ordinal) == FreshFrom(Order(), ordinal + 1)
      ensures var host := Record(dc, Candidate(ordinal));
              !Repeats(ordinal) ==>
                Doubled(Records(dc, FreshFrom(Order(), ordinal))) == [host, host] + Doubled(Records(dc, FreshFrom(Order(), ordinal + 1)))
    {
      RepeatsIff(ordinal);
      assert Order()[ordinal] == Candidate(ordinal);
      var rest := FreshFrom(Order(), ordinal + 1);
      if !Repeats(ordinal) {
        assert FreshFrom(Order(), ordinal) == [Candidate(ordinal)] + rest;
        DoubledCons(dc, Candidate(ordinal), rest);
      }
    }

    lemma FreshEnd()
      ensures Doubled(Records(dc, FreshFrom(Order(), |domains|))) == []
    {
    }

    method NoteTimedOut()
      requires Valid()
      modifies this
      ensures Valid() && pendingRetry.None?
      ensures Remaining() == if old(pendingRetry).Some? then old(Remaining())[1..] else old(Remaining())
    {
      pendingRetry := None;
    }
  }

  predicate IsTimeout(r: WsResult) { r.TimedOut? || r.ConnectTimedOut? }

  /** Each host twice in a row, or once. */
  function Blocks<T>(hosts: seq<T>, once: seq<bool>): seq<T>
    requires |hosts| == |once|
    decreases |hosts|
  {
    if hosts == [] then []
    else
      var n := |hosts| - 1;
      Blocks(hosts[..n], once[..n]) + (if once[n] then [hosts[n]] else [hosts[n], hosts[n]])
  }

  function Size(once: seq<bool>): nat {
    if once == [] then 0 else Size(once[..|once| - 1]) + if once[|once| - 1] then 1 else 2
  }

  /** A host is tried only once exactly if its first attempt timed out. */
  ghost predicate Explains(once: seq<bool>, results: seq<WsResult>) {
    forall i :: 0 <= i < |once| ==>
      Size(once[..i]) < |results| && (once[i] <==> IsTimeout(results[Size(once[..i])]))
  }

  /** How far a walk has come; `retry` says that the host at the cursor is due a second time. */
  ghost predicate Progress(hosts: seq<string>, once: seq<bool>, retry: bool, remaining: seq<string>, tried: seq<string>, results: seq<WsResult>) {
    var k := |once|;
    && k <= |hosts| && (retry ==> k < |hosts|)
    && tried == Blocks(hosts[..k], once) + (if retry then [hosts[k]] else [])
    && remaining == (if retry then [hosts[k]] + Doubled(hosts[k + 1..]) else Doubled(hosts[k..]))
    && |results| == |tried| == Size(once) + (if retry then 1 else 0)
    && Explains(once, results) && (retry ==> !IsTimeout(results[|results| - 1]))
  }

  lemma Due(hosts: seq<string>, once: seq<bool>, retry: bool, remaining: seq<string>, tried: seq<string>, results: seq<WsResult>)
    requires Progress(hosts, once, retry, remaining, tried, results)
    ensures remaining == [] <==> |once| == |hosts|
    ensures remaining != [] ==> remaining[0] == hosts[|once|]
    ensures remaining != [] && !retry ==> remaining[1..] == [hosts[|once|]] + Doubled(hosts[|once| + 1..])
    ensures remaining != [] && retry ==> remaining[1..] == Doubled(hosts[|once| + 1..])
  {
  }

  /** The host at the cursor is done with, after one attempt or two. */
  lemma HostDone(hosts: seq<string>, once: seq<bool>, retry: bool, remaining: seq<string>, tried: seq<string>, results: seq<WsResult>, r: WsResult)
    requires Progress(hosts, once, retry, remaining, tried, results) && remaining != []
    requires retry || IsTimeout(r)
    ensures |once| < |hosts|
    ensures Progress(hosts, once + [!retry], false, Doubled(hosts[|once| + 1..]), tried + [hosts[|once|]], results + [r])
  {
    hide Doubled, Explains, IsTimeout, Blocks, Size;
    var k := |once|;
    Due(hosts, once, retry, remaining, tried, results);
    BlocksPush(hosts[..k], once, hosts[k], !retry);
    assert hosts[..k + 1] == hosts[..k] + [hosts[k]];
    ExplainsPush(once, results, !retry, r);
    assert Blocks(hosts[..k], once) + [hosts[k]] + [hosts[k]] == Blocks(hosts[..k], once) + [hosts[k], hosts[k]];
  }

  lemma BlocksPush<T>(hosts: seq<T>, once: seq<bool>, host: T, single: bool)
    requires |once| == |hosts|
    ensures Blocks(hosts + [host], once + [single]) == Blocks(hosts, once) + (if single then [host] else [host, host])
    ensures Size(once + [single]) == Size(once) + if single then 1 else 2
  {
    assert (hosts + [host])[..|hosts|] == hosts && (once + [single])[..|hosts|] == once;
  }

  lemma ExplainsPush(once: seq<bool>, results: seq<WsResult>, single: bool, r: WsResult)
    requires Explains(once, results)
    requires single ==> |results| == Size(once) && IsTimeout(r)
    requires !single ==> |results| == Size(once) + 1 && !IsTimeout(results[|results| - 1])
    ensures Explains(once + [single], results + [r])
  {
    var more, all := once + [single], results + [r];
    hide Size, IsTimeout;
    assert more[..|once|] == once;
    forall i | 0 <= i < |more|
      ensures Size(more[..i]) < |all| && (more[i] <==> IsTimeout(all[Size(more[..i])]))
    {
      if i < |once| {
        assert more[..i] == once[..i];
      }
    }
  }

  lemma FirstTry(hosts: seq<string>, once: seq<bool>, remaining: seq<string>, tried: seq<string>, results: seq<WsResult>, r: WsResult)
    requires Progress(hosts, once, false, remaining, tried, results) && remaining != [] && !IsTimeout(r)
    ensures |once| < |hosts|
    ensures Progress(hosts, once, true, remaining[1..], tried + [hosts[|once|]], results + [r])
  {
    Due(hosts, once, false, remaining, tried, results);
    hide Doubled, Blocks;
  }

  ghost predicate AllRedirects(results: seq<WsResult>) { forall i :: 0 <= i < |results| ==> results[i].Redirect? }

  ghost predicate NoneConnected(results: seq<WsResult>) { forall i :: 0 <= i < |results| ==> !results[i].Connected? }

  lemma OneMore(results: seq<WsResult>, r: WsResult)
    ensures AllRedirects(results + [r]) <==> AllRedirects(results) && r.Redirect?
    ensures NoneConnected(results + [r]) <==> NoneConnected(results) && !r.Connected?
  {
    var all := results + [r];
    assert forall i :: 0 <= i < |results| ==> all[i] == results[i];
    assert all[|results|] == r;
  }

  /** A finished walk: all hosts done, or stopped at the one that connected. */
  ghost predicate Walked(hosts: seq<string>, once: seq<bool>, tried: seq<string>, results: seq<WsResult>, winner: Option<string>) {
    var k := |once|;
    && |tried| == |results| && EndsAtSuccess(results) && Explains(once, results)
    && (winner.None? ==> k == |hosts| && tried == Blocks(hosts, once) && !Won(results))
    && (winner.Some? ==>
          && k < |hosts| && winner.value == hosts[k] && Won(results)
          && (|| tried == Blocks(hosts[..k], once) + [hosts[k]]
              || (tried == Blocks(hosts[..k], once) + [hosts[k], hosts[k]] && !IsTimeout(results[|results| - 2]))))
  }

  lemma WalkStopsAt(hosts: seq<string>, once: seq<bool>, retry: bool, remaining: seq<string>, tried: seq<string>, results: seq<WsResult>)
    requires Progress(hosts, once, retry, remaining, tried, results) && remaining != [] && NoneConnected(results)
    ensures Walked(hosts, once, tried + [remaining[0]], results + [Connected], Some(remaining[0]))
  {
    Due(hosts, once, retry, remaining, tried, results);
    hide Blocks, Doubled, Size;
    var all := results + [Connected];
    assert all[..|results|] == results;
    assert Explains(once, all);
  }

  ghost predicate Underway(hosts: seq<string>, once: seq<bool>, retry: bool, remaining: seq<string>, tried: seq<string>,
                           results: seq<WsResult>, allRedirects: bool) {
    Progress(hosts, once, retry, remaining, tried, results) && NoneConnected(results) && (allRedirects <==> AllRedirects(results))
  }

  /** One attempt that does not connect. */
  lemma WalkStep(hosts: seq<string>, once: seq<bool>, retry: bool, remaining: seq<string>, tried: seq<string>,
                 results: seq<WsResult>, allRedirects: bool, r: WsResult)
    requires Underway(hosts, once, retry, remaining, tried, results, allRedirects)
    requires remaining != [] && !r.Connected?
    ensures !retry ==> |remaining| >= 2
    ensures var done := retry || IsTimeout(r);
            Underway(hosts, if done then once + [!retry] else once, !done, remaining[if done && !retry then 2 else 1..],
                     tried + [remaining[0]], results + [r], allRedirects && r.Redirect?)
  {
    hide Progress, AllRedirects, NoneConnected, Doubled, IsTimeout;
    Due(hosts, once, retry, remaining, tried, results);
    OneMore(results, r);
    if retry || IsTimeout(r) {
      HostDone(hosts, once, retry, remaining, tried, results, r);
      if !retry {
        assert remaining[2..] == remaining[1..][1..] == Doubled(hosts[|once| + 1..]);
      }
    } else {
      FirstTry(hosts, once, remaining, tried, results, r);
    }
  }

  /** The verdicts of the connects of a walk, and all they did. */
  function Verdicts(tries: seq<CfTry>): (r: seq<WsResult>)
    requires forall t :: t in tries ==> t.results != []
    ensures |r| == |tries|
  {
    seq(|tries|, i requires 0 <= i < |tries| => Verdict(tries[i].results))
  }

  ghost predicate TriesOk(o: Opts, tried: seq<string>, tries: seq<CfTry>) {
    |tried| == |tries| && forall i :: 0 <= i < |tries| ==> TryOk(o, tried[i], tries[i])
  }

  function TriesLog(o: Opts, tried: seq<string>, tries: seq<CfTry>): seq<Event>
    requires |tried| == |tries| && forall t :: t in tries ==> |t.dialed| == |t.results|
    decreases |tries|
  {
    if tries == [] then []
    else
      var n := |tries| - 1;
      TriesLog(o, tried[..n], tries[..n]) + TryLog(o, tried[n], tries[n])
  }

  lemma TriesShape(o: Opts, tried: seq<string>, tries: seq<CfTry>)
    requires TriesOk(o, tried, tries)
    ensures forall t :: t in tries ==> t.results != [] && |t.dialed| == |t.results|
  {
    hide Plan;
    forall t | t in tries ensures t.results != [] && |t.dialed| == |t.results| {
      var i :| 0 <= i < |tries| && tries[i] == t;
      assert TryOk(o, tried[i], tries[i]);
    }
  }

  lemma TriesPush(o: Opts, tried: seq<string>, tries: seq<CfTry>, host: string, t: CfTry)
    requires TriesOk(o, tried, tries) && TryOk(o, host, t)
    ensures TriesOk(o, tried + [host], tries + [t])
    ensures forall x :: x in tries ==> x.results != [] && |x.dialed| == |x.results|
    ensures forall x :: x in tries + [t] ==> x.results != [] && |x.dialed| == |x.results|
    ensures TriesLog(o, tried + [host], tries + [t]) == TriesLog(o, tried, tries) + TryLog(o, host, t)
    ensures Verdicts(tries + [t]) == Verdicts(tries) + [Verdict(t.results)]
  {
    hide TryOk, Verdict, TryLog;
    TriesShape(o, tried, tries);
    TriesShape(o, tried + [host], tries + [t]);
    assert (tried + [host])[..|tried|] == tried && (tries + [t])[..|tries|] == tries;
  }

  /** The Cloudflare proxy walk over all records of a DC. */
  method ConnectCfOrdered(net: Net, dc: nat, domains: seq<string>, first: nat, o: Opts)
    returns (winner: Option<string>, allRedirects: bool, ghost tried: seq<string>, ghost tries: seq<CfTry>, ghost once: seq<bool>)
    requires net.Valid()
    modifies net, net.cooldowns
    ensures net.Valid() && TriesOk(o, tried, tries) && forall t :: t in tries ==> t.results != [] && |t.dialed| == |t.results|
    ensures net.log == old(net.log) + TriesLog(o, tried, tries)
    ensures Walked(Records(dc, Distinct(Rotated(domains, first))), once, tried, Verdicts(tries), winner)
    ensures allRedirects <==> winner.None? && AllRedirects(Verdicts(tries))
  {
    hide Rotated, Distinct, FreshFrom, Records, Doubled, Blocks, Follows, EdgeAttempts, Verdict, Progress, Walked, Underway,
         TryOk, TryLog, TriesOk, TriesLog, Verdicts, Truthful;
    ghost var hosts := Records(dc, Distinct(Rotated(domains, first)));
    var attempts := new CfAttempts(dc, domains, first);
    allRedirects, tried, tries, once := true, [], [], [];
    StartWalk(hosts, o);
    while true
      invariant fresh(attempts) && attempts.Valid() && net.Valid()
      invariant TriesOk(o, tried, tries) && |tried| == |tries|
      invariant forall t :: t in tries ==> t.results != [] && |t.dialed| == |t.results|
      invariant net.log == old(net.log) + TriesLog(o, tried, tries)
      invariant Underway(hosts, once, attempts.pendingRetry.Some?, attempts.Remaining(), tried, Verdicts(tries), allRedirects)
      decreases |attempts.Remaining()|
    {
      ghost var retry, remaining := attempts.pendingRetry.Some?, attempts.Remaining();
      ghost var results := Verdicts(tries);
      var next := attempts.NextDomain();
      if next.None? {
        WalkEnds(hosts, once, retry, tried, results, allRedirects);
        return None, allRedirects, tried, tries, once;
      }
      var r, t := ConnectCf(net, next.value, o);
      TriesPush(o, tried, tries, next.value, t);
      Assoc(old(net.log), TriesLog(o, tried, tries), TryLog(o, next.value, t));
      if r.Connected? {
        WalkWins(hosts, once, retry, remaining, tried, results, allRedirects);
        return next, false, tried + [next.value], tries + [t], once;
      }
      WalkStep(hosts, once, retry, remaining, tried, results, allRedirects, r);
      if IsTimeout(r) {
        attempts.NoteTimedOut();
      }
      once := if retry || IsTimeout(r) then once + [!retry] else once;
      allRedirects := allRedirects && r.Redirect?;
      tried, tries := tried + [next.value], tries + [t];
    }
  }

  lemma WalkWins(hosts: seq<string>, once: seq<bool>, retry: bool, remaining: seq<string>, tried: seq<string>,
                 results: seq<WsResult>, allRedirects: bool)
    requires Underway(hosts, once, retry, remaining, tried, results, allRedirects) && remaining != []
    ensures Walked(hosts, once, tried + [remaining[0]], results + [Connected], Some(remaining[0]))
    ensures !AllRedirects(results + [Connected])
  {
    WalkStopsAt(hosts, once, retry, remaining, tried, results);
    OneMore(results, Connected);
    hide Progress, Walked, AllRedirects;
  }

  lemma StartWalk(hosts: seq<string>, o: Opts)
    ensures TriesOk(o, [], []) && TriesLog(o, [], []) == []
    ensures Underway(hosts, [], false, Doubled(hosts), [], Verdicts([]), true)
  {
    assert hosts[0..] == hosts && hosts[..0] == [];
    assert Blocks(hosts[..0], []) == [] && Verdicts([]) == [];
    hide Doubled, Blocks;
  }

  lemma WalkEnds(hosts: seq<string>, once: seq<bool>, retry: bool, tried: seq<string>,
                 results: seq<WsResult>, allRedirects: bool)
    requires Underway(hosts, once, retry, [], tried, results, allRedirects)
    ensures Walked(hosts, once, tried, results, None)
    ensures allRedirects <==> AllRedirects(results)
  {
    Due(hosts, once, retry, [], tried, results);
    assert hosts[..|hosts|] == hosts;
    hide Blocks, Doubled, Size;
  }

  /** A walk dials at least once and at most once per edge for each attempt. */
  lemma {:induction false} TriesDials(o: Opts, tried: seq<string>, tries: seq<CfTry>)
    requires TriesOk(o, tried, tries) && forall t :: t in tries ==> |t.dialed| == |t.results|
    ensures |tried| <= DialCount(TriesLog(o, tried, tries)) <= |tried| * Width(o)
    decreases |tries|
  {
    hide TryOk, TryLog, DialCount, Width, Verdict;
    if tries == [] {
      NoDials(TriesLog(o, tried, tries));
    } else {
      var n := |tries| - 1;
      assert forall t :: t in tries[..n] ==> t in tries;
      assert TriesLog(o, tried, tries) == TriesLog(o, tried[..n], tries[..n]) + TryLog(o, tried[n], tries[n]);
      hide TriesLog;
      TriesDials(o, tried[..n], tries[..n]);
      TryDials(o, tried[n], tries[n]);
      DialCountAppend(TriesLog(o, tried[..n], tries[..n]), TryLog(o, tried[n], tries[n]));
      TimesSucc(n, Width(o));
    }
  }

  lemma TimesSucc(n: nat, m: nat)
    ensures (n + 1) * m == n * m + m
  {
  }

  ghost predicate NoRepeats<T(!new)>(s: seq<T>) { forall i, j :: 0 <= i < j < |s| ==> s[i] != s[j] }

  lemma {:induction false} BlocksLength<T>(hosts: seq<T>, once: seq<bool>)
    requires |hosts| == |once|
    ensures |Blocks(hosts, once)| == Size(once)
    decreases |hosts|
  {
    if hosts != [] {
      BlocksLength(hosts[..|hosts| - 1], once[..|hosts| - 1]);
    }
  }

  /** The host a position belongs to. */
  lemma {:induction false} BlockAt<T>(hosts: seq<T>, once: seq<bool>, p: nat) returns (b: nat)
    requires |hosts| == |once| && p < |Blocks(hosts, once)|
    ensures b < |hosts| && Blocks(hosts, once)[p] == hosts[b]
    ensures p == Size(once[..b]) || (p == Size(once[..b]) + 1 && !once[b])
    decreases |hosts|
  {
    var n := |hosts| - 1;
    BlocksLength(hosts[..n], once[..n]);
    if p < |Blocks(hosts[..n], once[..n])| {
      b := BlockAt(hosts[..n], once[..n], p);
      assert once[..n][..b] == once[..b];
    } else {
      b := n;
    }
  }

  function Block<T>(host: T, single: bool): seq<T> { if single then [host] else [host, host] }

  lemma {:induction false} BlocksConcat<T>(a: seq<T>, oa: seq<bool>, b: seq<T>, ob: seq<bool>)
    requires |a| == |oa| && |b| == |ob|
    ensures Blocks(a + b, oa + ob) == Blocks(a, oa) + Blocks(b, ob)
    decreases |b|
  {
    hide Size;
    if b == [] {
      assert a + b == a && oa + ob == oa;
    } else {
      var n := |b| - 1;
      var h, o := b[..n], ob[..n];
      BlocksConcat(a, oa, h, o);
      hide Blocks;
      BlocksPush(a + h, oa + o, b[n], ob[n]);
      BlocksPush(h, o, b[n], ob[n]);
      assert b == h + [b[n]] && ob == o + [ob[n]];
      Assoc(a, h, [b[n]]);
      Assoc(oa, o, [ob[n]]);
      Assoc(Blocks(a, oa), Blocks(h, o), if ob[n] then [b[n]] else [b[n], b[n]]);
    }
  }

  /** The attempts before host `b`, on it, and after it. */
  lemma BlocksSplit<T>(hosts: seq<T>, once: seq<bool>, b: nat)
    requires |hosts| == |once| && b < |hosts|
    ensures Blocks(hosts, once)
         == Blocks(hosts[..b], once[..b]) + Block(hosts[b], once[b]) + Blocks(hosts[b + 1..], once[b + 1..])
  {
    hide Size, Blocks;
    BlocksPush(hosts[..b], once[..b], hosts[b], once[b]);
    BlocksConcat(hosts[..b] + [hosts[b]], once[..b] + [once[b]], hosts[b + 1..], once[b + 1..]);
    assert hosts == hosts[..b] + [hosts[b]] + hosts[b + 1..];
    assert once == once[..b] + [once[b]] + once[b + 1..];
  }

  lemma {:induction false} BlocksEnds<T>(hosts: seq<T>, once: seq<bool>)
    requires |hosts| == |once| && hosts != []
    ensures var all := Blocks(hosts, once); all != [] && all[0] == hosts[0] && all[|all| - 1] == hosts[|hosts| - 1]
    decreases |hosts|
  {
    if |hosts| > 1 {
      BlocksEnds(hosts[..|hosts| - 1], once[..|hosts| - 1]);
    }
  }

  /** What stands right before, at and after the attempts on host `b`. */
  lemma BlockNext<T>(hosts: seq<T>, once: seq<bool>, b: nat)
    requires |hosts| == |once| && b < |hosts|
    ensures var all, p := Blocks(hosts, once), Size(once[..b]);
            && p < |all| && all[p] == hosts[b]
            && (!once[b] ==> p + 1 < |all| && all[p + 1] == hosts[b])
            && (b > 0 ==> p > 0 && all[p - 1] == hosts[b - 1])
            && var q := if once[b] then p + 1 else p + 2;
               if b + 1 < |hosts| then q < |all| && all[q] == hosts[b + 1] else q == |all|
  {
    BlocksSplit(hosts, once, b);
    BlocksLength(hosts[..b], once[..b]);
    var before, after := Blocks(hosts[..b], once[..b]), Blocks(hosts[b + 1..], once[b + 1..]);
    if b > 0 {
      BlocksEnds(hosts[..b], once[..b]);
    }
    if b + 1 < |hosts| {
      BlocksEnds(hosts[b + 1..], once[b + 1..]);
    } else {
      assert after == [];
    }
    hide Blocks, Size;
  }

  /** A host that was reached for the first time at position `i`. */
  ghost predicate NewAt<T>(tried: seq<T>, i: int) { 0 <= i < |tried| && (i == 0 || tried[i - 1] != tried[i]) }

  lemma SecondInBlocks<T(!new)>(hosts: seq<T>, once: seq<bool>, i: nat) returns (b: nat)
    requires |hosts| == |once| && NoRepeats(hosts) && i < |Blocks(hosts, once)|
    ensures b < |hosts| && Blocks(hosts, once)[i] == hosts[b]
    ensures NewAt(Blocks(hosts, once), i) <==> i == Size(once[..b])
    ensures NewAt(Blocks(hosts, once), i) ==>
              (once[b] <==> !(i + 1 < |Blocks(hosts, once)| && Blocks(hosts, once)[i + 1] == Blocks(hosts, once)[i]))
    ensures i == Size(once[..b]) || (i == Size(once[..b]) + 1 && (b + 1 == |hosts| <==> i + 1 == |Blocks(hosts, once)|))
  {
    b := BlockAt(hosts, once, i);
    BlockNext(hosts, once, b);
  }

  /** Among the hosts that are done with, whatever comes after them. */
  lemma SecondAmongDone<T(!new)>(part: seq<T>, once: seq<bool>, tail: seq<T>, tried: seq<T>, i: nat) returns (b: nat)
    requires |part| == |once| && NoRepeats(part) && tried == Blocks(part, once) + tail && i < |Blocks(part, once)| && NewAt(tried, i)
    requires forall x :: x in tail ==> x !in part
    ensures b < |part| && i == Size(once[..b])
    ensures (i + 1 < |tried| && tried[i + 1] == tried[i]) <==> !once[b]
    ensures i + 2 < |tried| ==> tried[i + 2] != tried[i]
  {
    var all := Blocks(part, once);
    assert forall j :: 0 <= j < |all| ==> tried[j] == all[j];
    b := SecondInBlocks(part, once, i);
    if i + 2 < |all| {
      var c := BlockAt(part, once, i + 2);
      assert c != b;
    }
    hide Blocks, Size;
    assert i + 1 < |tried| && i + 1 >= |all| ==> tried[i + 1] in tail;
    assert i + 2 < |tried| && i + 2 >= |all| ==> tried[i + 2] in tail;
  }

  /** What a walk tried: the hosts it is done with, and then the winner once or twice. */
  lemma WalkShape(hosts: seq<string>, once: seq<bool>, tried: seq<string>, results: seq<WsResult>, winner: Option<string>) returns (tail: seq<string>)
    requires Walked(hosts, once, tried, results, winner)
    ensures |once| <= |hosts| && |tried| == |results| && tried == Blocks(hosts[..|once|], once) + tail
    ensures if winner.None? then tail == [] && NoneConnected(results)
            else |once| < |hosts| && Won(results) && EndsAtSuccess(results)
                 && (tail == [hosts[|once|]] || (tail == [hosts[|once|], hosts[|once|]] && !IsTimeout(results[|results| - 2])))
  {
    hide Blocks, Explains, IsTimeout;
    if winner.None? {
      tail := [];
      assert hosts[..|once|] == hosts;
    } else {
      tail := tried[|Blocks(hosts[..|once|], once)|..];
    }
  }

  /**
    A host reached for the first time is tried a second time, at once, exactly if
    its attempt was refused or redirected: not after a timeout, not after a
    success, and never a third time.
   */
  lemma SecondAttemptIff(hosts: seq<string>, once: seq<bool>, tried: seq<string>, results: seq<WsResult>, winner: Option<string>, i: nat)
    requires Walked(hosts, once, tried, results, winner) && NoRepeats(hosts) && NewAt(tried, i)
    ensures (i + 1 < |tried| && tried[i + 1] == tried[i]) <==> results[i].Failed? || results[i].Redirect?
    ensures i + 2 < |tried| ==> tried[i + 2] != tried[i]
  {
    var part := hosts[..|once|];
    var tail := WalkShape(hosts, once, tried, results, winner);
    var all := Blocks(part, once);
    assert Explains(once, results);
    hide Walked, Blocks;
    if i < |all| {
      var b := SecondAmongDone(part, once, tail, tried, i);
      assert once[b] <==> IsTimeout(results[i]);
      hide NewAt, Explains, Size;
      assert tail == [] || i < |results| - 1;
      assert !results[i].Connected?;
    } else {
      hide Explains, Size;
      assert forall j :: |all| <= j < |tried| ==> tried[j] == hosts[|once|];
      assert i == |all|;
    }
  }

  /** Never more than two attempts for each different domain. */
  lemma WalkIsShort(dc: nat, domains: seq<string>, first: nat, once: seq<bool>, tried: seq<string>, results: seq<WsResult>, winner: Option<string>)
    requires Walked(Records(dc, Distinct(Rotated(domains, first))), once, tried, results, winner)
    ensures |tried| <= 2 * |Elements(domains)|
    ensures domains != [] ==> |tried| >= 1
  {
    var hosts := Records(dc, Distinct(Rotated(domains, first)));
    DistinctRotated(domains, first);
    assert |hosts| == |Elements(domains)|;
    BlocksSize(hosts[..|once|], once);
    if domains != [] {
      assert domains[0] in Elements(domains);
      if winner.None? {
        assert hosts[..|once|] == hosts;
      }
    }
  }

  lemma {:induction false} BlocksSize(hosts: seq<string>, once: seq<bool>)
    requires |hosts| == |once|
    ensures |hosts| <= |Blocks(hosts, once)| <= 2 * |hosts|
    decreases |hosts|
  {
    if hosts != [] {
      BlocksSize(hosts[..|hosts| - 1], once[..|hosts| - 1]);
    }
  }

  // ----- The direct path --------------------------------------------------

  /** Both records of a DC, media connections preferring the second. */
  function WsDomains(dc: nat, media: bool): seq<string> {
    var base, dashOne := "kws" + Decimal(dc) + ".web.telegram.org", "kws" + Decimal(dc) + "-1.web.telegram.org";
    if media then [dashOne, base] else [base, dashOne]
  }

  lemma DomainOrder(dc: nat, media: bool)
    ensures |WsDomains(dc, media)| == 2
    ensures WsDomains(dc, media)[0] == "kws" + Decimal(dc) + (if media then "-1" else "") + ".web.telegram.org"
    ensures WsDomains(dc, media)[1] == "kws" + Decimal(dc) + (if media then "" else "-1") + ".web.telegram.org"
  {
    var n := "kws" + Decimal(dc);
    assert n + "-1" + ".web.telegram.org" == n + "-1.web.telegram.org";
    assert n + "" + ".web.telegram.org" == n + ".web.telegram.org";
  }

  /** What the dials of an attempt come to. */
  ghost function Summary(results: seq<WsResult>): WsAttempt {
    if Won(results) then WsAttempt(true, false, false, false)
    else WsAttempt(false, AllRedirects(results), TimedOut in results, ConnectTimedOut in results)
  }

  function DirectLog(ip: string, tried: seq<string>, results: seq<WsResult>): (r: seq<Event>)
    requires |tried| == |results|
    ensures |r| == |tried|
  {
    seq(|tried|, i requires 0 <= i < |tried| => Dialled(ip, tried[i], results[i]))
  }

  lemma {:induction false} DirectLogDials(ip: string, tried: seq<string>, results: seq<WsResult>)
    requires |tried| == |results|
    ensures DialCount(DirectLog(ip, tried, results)) == |tried|
    decreases |tried|
  {
    if tried != [] {
      var n := |tried| - 1;
      DirectLogDials(ip, tried[..n], results[..n]);
      assert DirectLog(ip, tried, results)[..n] == DirectLog(ip, tried[..n], results[..n]);
    }
  }

  method ConnectDirect(net: Net, ip: string, dc: nat, media: bool)
    returns (a: WsAttempt, ghost tried: seq<string>, ghost results: seq<WsResult>)
    requires net.Valid()
    modifies net, net.cooldowns
    ensures net.Valid() && Follows(tried, WsDomains(dc, media), results) && a == Summary(results)
    ensures |tried| <= 2 && tried[0] == "kws" + Decimal(dc) + (if media then "-1" else "") + ".web.telegram.org"
    ensures |tried| == 2 ==> tried[1] == "kws" + Decimal(dc) + (if media then "" else "-1") + ".web.telegram.org"
    ensures net.log == old(net.log) + DirectLog(ip, tried, results)
  {
    hide Truthful, WsDomains, Decimal;
    DomainOrder(dc, media);
    var domains := WsDomains(dc, media);
    var allRedirects, upgradeTimedOut, connectTimedOut := true, false, false;
    tried, results := [], [];
    for i := 0 to |domains|
      invariant net.Valid() && tried == domains[..i] && |results| == i
      invariant NoneConnected(results) && (allRedirects <==> AllRedirects(results))
      invariant upgradeTimedOut <==> TimedOut in results
      invariant connectTimedOut <==> ConnectTimedOut in results
      invariant net.log == old(net.log) + DirectLog(ip, tried, results)
    {
      var r := net.Dial(ip, domains[i]);
      OneMore(results, r);
      assert DirectLog(ip, tried + [domains[i]], results + [r]) == DirectLog(ip, tried, results) + [Dialled(ip, domains[i], r)];
      Assoc(old(net.log), DirectLog(ip, tried, results), [Dialled(ip, domains[i], r)]);
      tried, results := tried + [domains[i]], results + [r];
      match r {
        case Connected => return WsAttempt(true, false, false, false), tried, results;
        case Redirect(_) =>
        case Failed => allRedirects := false;
        case TimedOut => allRedirects, upgradeTimedOut := false, true;
        case ConnectTimedOut => allRedirects, connectTimedOut := false, true;
      }
    }
    a := WsAttempt(false, allRedirects, upgradeTimedOut, connectTimedOut);
  }
}
