/**
  The direct WebSocket pool (src/pool.rs): the operations done under its locks.
  `PoolRun` interleaves them.
 */
module Pool {
  import opened Bytes

  /** An open connection, named by the order in which it was dialled. */
  type Conn = nat

  /** A bucket: Telegram DC and media flag. */
  type Key = (nat, bool)

  datatype Entry = Entry(conn: Conn, created: nat)

  type Buckets = map<Key, seq<Entry>>

  function Idle(idle: Buckets, key: Key): seq<Entry> { if key in idle then idle[key] else [] }

  // ----- Taking a connection ----------------------------------------------

  /** Not older than `maxAge`, and nothing has arrived on it. */
  predicate Usable(e: Entry, now: nat, maxAge: nat, dead: set<Conn>) {
    (now <= e.created || now - e.created <= maxAge) && e.conn !in dead
  }

  /** Pop from the back until an entry is usable; what was popped before it is dropped. */
  function TakeLast<E>(bucket: seq<E>, usable: E -> bool): (Option<E>, seq<E>) {
    if bucket == [] then (None, [])
    else
      var last, rest := bucket[|bucket| - 1], bucket[..|bucket| - 1];
      if usable(last) then (Some(last), rest) else TakeLast(rest, usable)
  }

  /** The hit was usable and everything above it was not; a miss means that nothing was. */
  lemma {:induction false} TakeLastMeaning<E>(bucket: seq<E>, usable: E -> bool)
    ensures var (hit, rest) := TakeLast(bucket, usable);
            && rest <= bucket
            && (hit.None? ==> rest == [] && forall i :: 0 <= i < |bucket| ==> !usable(bucket[i]))
            && (hit.Some? ==>
                  && |rest| < |bucket| && bucket[|rest|] == hit.value && usable(hit.value)
                  && forall i :: |rest| < i < |bucket| ==> !usable(bucket[i]))
  {
    if bucket != [] {
      TakeLastMeaning(bucket[..|bucket| - 1], usable);
    }
  }

  function TakeFresh(bucket: seq<Entry>, now: nat, maxAge: nat, dead: set<Conn>): (Option<Entry>, seq<Entry>) {
    TakeLast(bucket, (e: Entry) => Usable(e, now, maxAge, dead))
  }

  /** Oldest first. */
  ghost predicate Sorted(bucket: seq<Entry>) {
    forall i, j :: 0 <= i <= j < |bucket| ==> bucket[i].created <= bucket[j].created
  }

  /**
    A hit is the newest usable entry, the bucket keeps exactly what was older
    than it, and a miss means that no entry was usable.
   */
  lemma TakeFreshMeaning(bucket: seq<Entry>, now: nat, maxAge: nat, dead: set<Conn>)
    ensures var (hit, rest) := TakeFresh(bucket, now, maxAge, dead);
            && (hit.None? <==> forall e :: e in bucket ==> !Usable(e, now, maxAge, dead))
            && (hit.None? ==> rest == [])
            && (hit.Some? ==>
                  && rest + [hit.value] <= bucket && Usable(hit.value, now, maxAge, dead)
                  && (forall i :: |rest| < i < |bucket| ==> !Usable(bucket[i], now, maxAge, dead))
                  && (Sorted(bucket) ==>
                        forall e :: e in bucket && Usable(e, now, maxAge, dead) ==> e.created <= hit.value.created))
  {
    var usable := (e: Entry) => Usable(e, now, maxAge, dead);
    assert forall e :: usable(e) == Usable(e, now, maxAge, dead);
    TakeLastMeaning(bucket, usable);
    hide Usable, TakeLast;
    var (hit, rest) := TakeFresh(bucket, now, maxAge, dead);
    if hit.Some? {
      assert hit.value in bucket && rest + [hit.value] == bucket[..|rest| + 1];
      forall e | Sorted(bucket) && e in bucket && Usable(e, now, maxAge, dead) ensures e.created <= hit.value.created {
        var i :| 0 <= i < |bucket| && bucket[i] == e;
      }
    }
  }

  // ----- Putting connections back -----------------------------------------

  /** The clock is read for each connection as it is stored. */
  function Stamped(conns: seq<Conn>, times: seq<nat>): (r: seq<Entry>)
    requires |conns| <= |times|
    ensures |r| == |conns|
    ensures forall i :: 0 <= i < |conns| ==> r[i] == Entry(conns[i], times[i])
  {
    seq(|conns|, i requires 0 <= i < |conns| => Entry(conns[i], times[i]))
  }

  /** How many of `n` new connections a refill may still add. */
  function Room(poolSize: nat, have: nat, n: nat): nat { if have >= poolSize then 0 else Min(poolSize - have, n) }

  class WsPool {
    const poolSize: nat
    const maxAge: nat
    var idle: Buckets
    var refilling: set<Key>

    constructor (poolSize: nat, maxAge: nat)
      ensures this.poolSize == poolSize && this.maxAge == maxAge && idle == map[] && refilling == {}
    {
      this.poolSize, this.maxAge := poolSize, maxAge;
      idle, refilling := map[], {};
    }

    /** The locked part of `get`. */
    method Take(key: Key, now: nat, dead: set<Conn>) returns (hit: Option<Conn>)
      modifies this`idle
      ensures var (e, rest) := TakeFresh(Idle(old(idle), key), now, maxAge, dead);
              && idle == old(idle)[key := rest]
              && hit == (if e.Some? then Some(e.value.conn) else None)
    {
      var bucket := if key in idle then idle[key] else [];
      while bucket != []
        invariant TakeFresh(bucket, now, maxAge, dead) == TakeFresh(Idle(old(idle), key), now, maxAge, dead)
        invariant idle == old(idle)
        decreases |bucket|
      {
        var entry := bucket[|bucket| - 1];
        bucket := bucket[..|bucket| - 1];
        if (now > entry.created && now - entry.created > maxAge) || entry.conn in dead {
          continue;
        }
        idle := idle[key := bucket];
        return Some(entry.conn);
      }
      idle := idle[key := []];
      hit := None;
    }

    /** A refill of this bucket may be spawned. */
    predicate Reservable(key: Key)
      reads this`refilling
    {
      poolSize != 0 && key !in refilling
    }

    /** Only the caller that inserts the key may spawn a refill, and no other until it is released. */
    method ReserveRefill(key: Key) returns (reserved: bool)
      modifies this`refilling
      ensures reserved <==> old(Reservable(key))
      ensures !Reservable(key)
      ensures refilling == if reserved then old(refilling) + {key} else old(refilling)
    {
      if poolSize == 0 || key in refilling {
        return false;
      }
      refilling := refilling + {key};
      reserved := true;
    }

    /** How many connections a refill sets out to open. */
    method Needed(key: Key) returns (n: nat)
      ensures n + |Idle(idle, key)| == poolSize || (n == 0 && |Idle(idle, key)| >= poolSize)
    {
      var current := if key in idle then |idle[key]| else 0;
      n := if current >= poolSize then 0 else poolSize - current;
    }

    /** A refill adds what still fits and drops the surplus. */
    method PushRefilled(key: Key, conns: seq<Conn>, times: seq<nat>)
      requires |times| == |conns|
      modifies this`idle
      ensures var bucket := Idle(old(idle), key);
              idle == if conns == [] then old(idle)
                      else old(idle)[key := bucket + Stamped(conns[..Room(poolSize, |bucket|, |conns|)], times)]
    {
      if conns == [] {
        return;
      }
      var bucket := if key in idle then idle[key] else [];
      var canAdd := if |bucket| >= poolSize then 0 else poolSize - |bucket|;
      var i := 0;
      ghost var room := Room(poolSize, |bucket|, |conns|);
      ghost var start := bucket;
      while i < |conns| && i < canAdd
        invariant 0 <= i <= room
        invariant bucket == start + Stamped(conns[..i], times)
      {
        bucket := bucket + [Entry(conns[i], times[i])];
        i := i + 1;
      }
      assert i == room;
      idle := idle[key := bucket];
    }

    /** Warm-up adds everything, without looking at the bucket's size. */
    method PushWarmed(key: Key, conns: seq<Conn>, times: seq<nat>)
      requires |times| == |conns|
      modifies this`idle
      ensures idle == old(idle)[key := Idle(old(idle), key) + Stamped(conns, times)]
    {
      var bucket := if key in idle then idle[key] else [];
      ghost var start := bucket;
      for i := 0 to |conns|
        invariant bucket == start + Stamped(conns[..i], times)
      {
        bucket := bucket + [Entry(conns[i], times[i])];
      }
      assert conns[..|conns|] == conns;
      idle := idle[key := bucket];
    }

    /** Dropping the guard frees the reservation, and no other. */
    method ReleaseRefill(key: Key)
      modifies this`refilling
      ensures refilling == old(refilling) - {key}
      ensures poolSize != 0 ==> Reservable(key)
    {
      refilling := refilling - {key};
    }
  }
}
