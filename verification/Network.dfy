/**
  What one connection shares with all the others while it looks for an upstream:
  the cooldown maps, the rotation counters, the clock and the network itself
  (the statics of src/proxy.rs and src/ws_client.rs).
 */
module Network {
  import opened Cooldowns

  /** The six cooldown maps, as one map over the tagged union of their keys. */
  datatype Subject =
    | WsDc(dc: nat, media: bool)
    | DcIp(ip: string)
    | Upstream(address: string)
    | Worker(domain: string)
    | TlsEdge(edge: string)
    | PlainEdge(edge: string)

  /** How one dial ends. */
  datatype WsResult = Connected | Redirect(code: nat) | Failed | TimedOut | ConnectTimedOut

  /** What trying both records of a DC comes to. */
  datatype WsAttempt = WsAttempt(connected: bool, allRedirects: bool, upgradeTimedOut: bool, connectTimedOut: bool)

  datatype Timeouts = Timeouts(wsFail: nat, wsRedirect: nat, ipFail: nat, cfFail: nat, upstreamFail: nat)

  /** A change made to a cooldown map. */
  datatype Note = Cool(subject: Subject, cooldown: nat) | Clear(subject: Subject)

  /** The note a direct attempt leaves about its DC. */
  function DcNote(t: Timeouts, dc: nat, media: bool, a: WsAttempt): Note {
    if a.connected then Clear(WsDc(dc, media))
    else Cool(WsDc(dc, media), if a.allRedirects then t.wsRedirect else t.wsFail)
  }

  /** The note it leaves about the address, if any. */
  function IpNotes(t: Timeouts, ip: string, probing: bool, a: WsAttempt): seq<Note> {
    if a.connected then [Clear(DcIp(ip))]
    else if a.connectTimedOut && !probing then [Cool(DcIp(ip), t.ipFail)]
    else []
  }

  /** The note an attempt on a Worker or an upstream proxy leaves about its name. */
  function NameNote(t: Timeouts, worker: bool, name: string, won: bool): Note {
    var subject := if worker then Worker(name) else Upstream(name);
    if won then Clear(subject) else Cool(subject, if worker then t.cfFail else t.upstreamFail)
  }

  /** What everybody else has done to the maps by the time of one shared access, and how that access ends. */
  datatype World = World(
    now: nat, ops: seq<Op<Subject>>, cfCounter: nat, workerCounter: nat, edgeCounter: nat,
    result: WsResult, hit: bool)

  datatype Counter = CfCounter | WorkerCounter | EdgeCounter

  function CountAt(w: World, counter: Counter): nat {
    match counter
    case CfCounter => w.cfCounter
    case WorkerCounter => w.workerCounter
    case EdgeCounter => w.edgeCounter
  }

  predicate CoolingAt(w: World, s: Subject) { Cooling(Replay(w.ops), s, w.now) }

  // ----- What a connection did --------------------------------------------

  /** One access: a dial of `target` on behalf of `host`, a look into a pool, a look at cooldowns, a turn of a counter, a change of a cooldown. */
  datatype Event =
    | Dialled(target: string, host: string, result: WsResult)
    | PoolLook(hit: bool)
    | Looked(subject: Subject, cooling: bool)
    | Peeked(entries: map<Subject, nat>, now: nat)
    | Counted(counter: Counter, value: nat)
    | Noted(note: Note)

  /** The event reports what the world was like. */
  predicate Saw(w: World, e: Event) {
    match e
    case Dialled(_, _, result) => result == w.result
    case PoolLook(hit) => hit == w.hit
    case Looked(s, cooling) => cooling == CoolingAt(w, s)
    case Peeked(entries, now) => entries == Replay(w.ops) && now == w.now
    case Counted(counter, value) => value == CountAt(w, counter)
    case Noted(_) => true
  }

  /** Access `from + i` is reported by `log[i]`. */
  ghost predicate Truthful(env: nat -> World, from: nat, log: seq<Event>) {
    forall i :: 0 <= i < |log| ==> Saw(env(from + i), log[i])
  }

  lemma TruthfulAppend(env: nat -> World, from: nat, a: seq<Event>, b: seq<Event>)
    ensures Truthful(env, from, a + b) <==> Truthful(env, from, a) && Truthful(env, from + |a|, b)
  {
    hide Saw;
    var c := a + b;
    if Truthful(env, from, c) {
      forall i | 0 <= i < |a| ensures Saw(env(from + i), a[i]) {
        assert c[i] == a[i];
      }
      forall i | 0 <= i < |b| ensures Saw(env(from + |a| + i), b[i]) {
        assert c[|a| + i] == b[i];
        assert Saw(env(from + (|a| + i)), c[|a| + i]);
      }
    }
    if Truthful(env, from, a) && Truthful(env, from + |a|, b) {
      forall i | 0 <= i < |c| ensures Saw(env(from + i), c[i]) {
        if i < |a| {
          assert Saw(env(from + i), a[i]);
        } else {
          assert Saw(env(from + |a| + (i - |a|)), b[i - |a|]);
        }
      }
    }
  }

  /** How many dials a log holds. */
  function DialCount(log: seq<Event>): nat {
    if log == [] then 0 else DialCount(log[..|log| - 1]) + if log[|log| - 1].Dialled? then 1 else 0
  }

  lemma {:induction false} DialCountAppend(a: seq<Event>, b: seq<Event>)
    ensures DialCount(a + b) == DialCount(a) + DialCount(b)
  {
    if b == [] {
      assert a + b == a;
    } else {
      var n := |b| - 1;
      DialCountAppend(a, b[..n]);
      assert (a + b)[..|a + b| - 1] == a + b[..n];
    }
  }

  lemma {:induction false} NoDials(log: seq<Event>)
    ensures DialCount(log) == 0 <==> forall i :: 0 <= i < |log| ==> !log[i].Dialled?
  {
    if log != [] {
      NoDials(log[..|log| - 1]);
    }
  }

  /**
    The shared state seen by one connection.  Before each of its accesses the
    other tasks may have left any state at all: `env(n)` is what access `n` finds,
    and `log[n]` is what was done and seen there.
   */
  class Net {
    const env: nat -> World
    const cooldowns: CooldownMap<Subject>
    var now: nat
    var counters: map<Counter, nat>
    var turns: nat
    ghost var log: seq<Event>

    ghost predicate Valid()
      reads this, cooldowns
    {
      turns == |log| && cooldowns.Valid() && Truthful(env, 0, log)
    }

    constructor (env: nat -> World)
      ensures this.env == env && fresh(cooldowns) && Valid() && log == []
    {
      this.env := env;
      cooldowns := new CooldownMap();
      now, counters, turns := 0, map[], 0;
      log := [];
    }

    /** The state the others have left by now. */
    method Adopt(w: World)
      modifies this`now, this`counters, cooldowns
      ensures now == w.now && cooldowns.Valid() && cooldowns.ops == w.ops
      ensures counters == map[CfCounter := w.cfCounter, WorkerCounter := w.workerCounter, EdgeCounter := w.edgeCounter]
    {
      now, cooldowns.entries, cooldowns.ops := w.now, Replay(w.ops), w.ops;
      counters := map[CfCounter := w.cfCounter, WorkerCounter := w.workerCounter, EdgeCounter := w.edgeCounter];
    }

    ghost method Report(e: Event)
      requires turns == |log| + 1 && cooldowns.Valid() && Truthful(env, 0, log) && Saw(env(|log|), e)
      modifies this`log
      ensures Valid() && log == old(log) + [e]
    {
      TruthfulAppend(env, 0, log, [e]);
      log := log + [e];
    }

    /** A dial, which ends as the network pleases. */
    method Dial(target: string, host: string) returns (r: WsResult)
      requires Valid()
      modifies this, cooldowns
      ensures Valid() && log == old(log) + [Dialled(target, host, r)]
    {
      var w := env(turns);
      turns := turns + 1;
      Adopt(w);
      r := w.result;
      Report(Dialled(target, host, r));
    }

    /** A look into a connection pool. */
    method PoolGet() returns (hit: bool)
      requires Valid()
      modifies this, cooldowns
      ensures Valid() && log == old(log) + [PoolLook(hit)]
    {
      var w := env(turns);
      turns := turns + 1;
      Adopt(w);
      hit := w.hit;
      Report(PoolLook(hit));
    }

    method Active(s: Subject) returns (b: bool)
      requires Valid()
      modifies this, cooldowns
      ensures Valid() && log == old(log) + [Looked(s, b)]
    {
      var w := env(turns);
      turns := turns + 1;
      Adopt(w);
      b := cooldowns.Active(s, now);
      Report(Looked(s, b));
    }

    /** All cooldowns at once. */
    method Peek() returns (entries: map<Subject, nat>, at: nat)
      requires Valid()
      modifies this, cooldowns
      ensures Valid() && log == old(log) + [Peeked(entries, at)]
    {
      var w := env(turns);
      turns := turns + 1;
      Adopt(w);
      entries, at := cooldowns.entries, now;
      Report(Peeked(entries, at));
    }

    /** Set or clear a cooldown. */
    method Record(n: Note)
      requires Valid()
      modifies this, cooldowns
      ensures Valid() && log == old(log) + [Noted(n)]
      ensures cooldowns.ops == env(old(turns)).ops + [NoteOp(n, env(old(turns)).now)]
    {
      var w := env(turns);
      turns := turns + 1;
      Adopt(w);
      match n {
        case Cool(s, cooldown) => cooldowns.Set(s, cooldown, now);
        case Clear(s) => cooldowns.Clear(s);
      }
      Report(Noted(n));
    }

    /** The next starting index of a rotation over `n` items: the counter modulo `n`, each caller getting its own turn. */
    method Offset(counter: Counter, n: nat, enabled: bool) returns (first: nat, ghost value: nat)
      requires Valid()
      modifies this, cooldowns
      ensures Valid() && log == old(log) + CountLog(counter, n, enabled, value)
      ensures first == OffsetOf(n, enabled, value)
      ensures enabled && n > 1 ==> counter in counters && counters[counter] == value + 1
    {
      value := 0;
      if !enabled || n <= 1 {
        return 0, 0;
      }
      var w := env(turns);
      turns := turns + 1;
      Adopt(w);
      value := counters[counter];
      first := counters[counter] % n;
      counters := counters[counter := counters[counter] + 1];
      Report(Counted(counter, value));
    }
  }

  function NoteOp(n: Note, now: nat): Op<Subject> {
    match n
    case Cool(s, cooldown) => SetAt(s, now, cooldown)
    case Clear(s) => Cleared(s)
  }

  /** Balancing off, or nothing to balance: no turn is taken. */
  function CountLog(counter: Counter, n: nat, enabled: bool, value: nat): seq<Event> {
    if !enabled || n <= 1 then [] else [Counted(counter, value)]
  }

  function OffsetOf(n: nat, enabled: bool, value: nat): nat { if !enabled || n <= 1 then 0 else value % n }

  /** A rotation over two items or more takes one turn, and starts at it; any other takes none and starts at the front. */
  lemma TurnTaken(counter: Counter, n: nat, enabled: bool, value: nat)
    ensures if enabled && n > 1 then CountLog(counter, n, enabled, value) == [Counted(counter, value)] && OffsetOf(n, enabled, value) == value % n
            else CountLog(counter, n, enabled, value) == [] && OffsetOf(n, enabled, value) == 0
  {
  }
}
