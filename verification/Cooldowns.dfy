/** The cooldown maps behind every "skip this for a while" decision (src/ws_client.rs). */
module Cooldowns {

  /** Whether `key` is to be stepped over at time `now`. */
  predicate Cooling<K>(entries: map<K, nat>, key: K, now: nat) { key in entries && now < entries[key] }

  /** `ops` is everything that was ever done to the map. */
  class CooldownMap<K(==,!new)> {
    var entries: map<K, nat>
    ghost var ops: seq<Op<K>>

    ghost predicate Valid()
      reads this
    {
      entries == Replay(ops)
    }

    constructor ()
      ensures Valid() && ops == []
    {
      entries, ops := map[], [];
    }

    method Set(key: K, cooldown: nat, now: nat)
      requires Valid()
      modifies this
      ensures Valid() && ops == old(ops) + [SetAt(key, now, cooldown)]
      ensures CoolsUntil(entries, key, now + cooldown) && OthersKept(old(entries), entries, key)
    {
      SetMeaning(entries, key, now + cooldown);
      entries := entries[key := now + cooldown];
      ReplayPush(ops, SetAt(key, now, cooldown));
      assert Redone(Replay(ops), SetAt(key, now, cooldown)) == entries;
      hide Replay, Redone, CoolsUntil, OthersKept;
      ops := ops + [SetAt(key, now, cooldown)];
    }

    method Clear(key: K)
      requires Valid()
      modifies this
      ensures Valid() && ops == old(ops) + [Cleared(key)]
      ensures CoolsUntil(entries, key, 0) && OthersKept(old(entries), entries, key)
    {
      ClearMeaning(entries, key);
      entries := entries - {key};
      ReplayPush(ops, Cleared(key));
      assert Redone(Replay(ops), Cleared(key)) == entries;
      hide Replay, Redone, CoolsUntil, OthersKept;
      ops := ops + [Cleared(key)];
    }

    /** True exactly while the last call about the key was a `Set` that has not run out. */
    method Active(key: K, now: nat) returns (b: bool)
      requires Valid()
      ensures b == Cooling(entries, key, now)
      ensures b <==> exists i :: LastSets(ops, key, now, i)
    {
      CoolingIff(ops, key, now);
      b := if key in entries then now < entries[key] else false;
    }
  }

  /** `key` is stepped over exactly before `until`. */
  ghost predicate CoolsUntil<K>(entries: map<K, nat>, key: K, until: nat) {
    forall t: nat :: Cooling(entries, key, t) <==> t < until
  }

  /** Every other key is stepped over exactly when it was before. */
  ghost predicate OthersKept<K(!new)>(before: map<K, nat>, after: map<K, nat>, key: K) {
    forall k: K, t: nat :: k != key ==> (Cooling(after, k, t) <==> Cooling(before, k, t))
  }

  lemma SetMeaning<K(!new)>(entries: map<K, nat>, key: K, until: nat)
    ensures CoolsUntil(entries[key := until], key, until) && OthersKept(entries, entries[key := until], key)
  {
  }

  lemma ClearMeaning<K(!new)>(entries: map<K, nat>, key: K)
    ensures CoolsUntil(entries - {key}, key, 0) && OthersKept(entries, entries - {key}, key)
  {
  }

  // ----- Histories --------------------------------------------------------

  datatype Op<K> = SetAt(key: K, at: nat, cooldown: nat) | Cleared(key: K)

  /** The entries left by a history of calls on a new map. */
  function Replay<K>(ops: seq<Op<K>>): map<K, nat> {
    if ops == [] then map[]
    else Redone(Replay(ops[..|ops| - 1]), ops[|ops| - 1])
  }

  function Redone<K>(entries: map<K, nat>, op: Op<K>): map<K, nat> {
    match op
    case SetAt(key, at, cooldown) => entries[key := at + cooldown]
    case Cleared(key) => entries - {key}
  }

  lemma ReplayPush<K>(ops: seq<Op<K>>, op: Op<K>)
    ensures Replay(ops + [op]) == Redone(Replay(ops), op)
  {
    assert (ops + [op])[..|ops|] == ops;
  }

  /** Call `i` is the last one about `key`. */
  ghost predicate LastOn<K>(ops: seq<Op<K>>, key: K, i: nat) {
    i < |ops| && ops[i].key == key && forall j :: i < j < |ops| ==> ops[j].key != key
  }

  ghost predicate LastSets<K>(ops: seq<Op<K>>, key: K, now: nat, i: nat) {
    LastOn(ops, key, i) && ops[i].SetAt? && now < ops[i].at + ops[i].cooldown
  }

  /** A key is cooling exactly when the last call about it set a cooldown that has not run out. */
  lemma {:induction false} CoolingIff<K>(ops: seq<Op<K>>, key: K, now: nat)
    ensures Cooling(Replay(ops), key, now) <==> exists i :: LastSets(ops, key, now, i)
  {
    if ops != [] {
      var n := |ops| - 1;
      var before := ops[..n];
      if ops[n].key == key {
        assert LastOn(ops, key, n);
        if ops[n].SetAt? && now < ops[n].at + ops[n].cooldown {
          assert LastSets(ops, key, now, n);
        }
      } else {
        CoolingIff(before, key, now);
        if i :| LastSets(before, key, now, i) {
          assert LastSets(ops, key, now, i);
        }
        if i :| LastSets(ops, key, now, i) {
          assert LastSets(before, key, now, i);
        }
      }
    }
  }
}
