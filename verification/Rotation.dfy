/** Rotated and deduplicated candidate lists (`domain_order` in src/proxy.rs, `cf_ip_attempts` and `CfAttempts` in src/ws_client.rs). */
module Rotation {

  /** All items, starting at a rotating offset. */
  function Rotated<T>(s: seq<T>, first: nat): (r: seq<T>)
    ensures |r| == |s|
  {
    seq(|s|, i requires 0 <= i < |s| => s[(first + i) % |s|])
  }

  lemma ModUnique(n: nat, q: int, r: nat)
    requires r < n
    ensures (n * q + r) % n == r
  {
    var x := n * q + r;
    var k := q - x / n;
    assert n * k == x % n - r by {
      assert x == n * (x / n) + x % n;
      assert n * k == n * q - n * (x / n);
    }
  }

  /** Rotating cuts the list once and swaps the two pieces. */
  lemma RotatedSwaps<T>(s: seq<T>, first: nat)
    requires s != []
    ensures Rotated(s, first) == s[first % |s|..] + s[..first % |s|]
  {
    var n, f := |s|, first % |s|;
    forall i | 0 <= i < n ensures Rotated(s, first)[i] == (s[f..] + s[..f])[i] {
      var q := first / n;
      assert first == n * q + f;
      if f + i < n {
        ModUnique(n, q, f + i);
      } else {
        assert n * (q + 1) == n * q + n;
        ModUnique(n, q + 1, f + i - n);
      }
    }
  }

  lemma RotatedAt<T>(s: seq<T>, k: nat)
    requires k < |s|
    ensures Rotated(s, k) == s[k..] + s[..k]
  {
    hide Rotated;
    ModUnique(|s|, 0, k);
    RotatedSwaps(s, k);
  }

  lemma RotatedReduced<T>(s: seq<T>, first: nat)
    requires s != []
    ensures Rotated(s, first % |s|) == Rotated(s, first)
  {
    hide Rotated;
    ModUnique(|s|, 0, first % |s|);
    RotatedSwaps(s, first);
    RotatedSwaps(s, first % |s|);
  }

  lemma RotatedMembers<T>(s: seq<T>, first: nat, x: T)
    ensures x in Rotated(s, first) <==> x in s
  {
    if s != [] {
      RotatedSwaps(s, first);
      assert s == s[..first % |s|] + s[first % |s|..];
    }
  }

  function Elements<T(==)>(s: seq<T>): set<T> { set x | x in s }

  /** The items that occur nowhere earlier, from ordinal `from` on. */
  function FreshFrom<T(==)>(s: seq<T>, from: nat): seq<T>
    requires from <= |s|
    decreases |s| - from
  {
    if from == |s| then []
    else if s[from] in s[..from] then FreshFrom(s, from + 1)
    else [s[from]] + FreshFrom(s, from + 1)
  }

  /** The list without repetitions, keeping first occurrences. */
  function Distinct<T(==)>(s: seq<T>): seq<T> { FreshFrom(s, 0) }

  lemma {:induction false} FreshFromMembers<T>(s: seq<T>, from: nat, x: T)
    requires from <= |s|
    ensures x in FreshFrom(s, from) <==> x in s && x !in s[..from]
    decreases |s| - from
  {
    if from < |s| {
      FreshFromMembers(s, from + 1, x);
      assert s[..from + 1] == s[..from] + [s[from]];
    } else {
      assert s[..from] == s;
    }
  }

  /** No item is listed twice, and there is one for each different item. */
  lemma {:induction false} FreshFromCount<T>(s: seq<T>, from: nat)
    requires from <= |s|
    ensures forall i, j :: 0 <= i < j < |FreshFrom(s, from)| ==> FreshFrom(s, from)[i] != FreshFrom(s, from)[j]
    ensures |FreshFrom(s, from)| == |Elements(FreshFrom(s, from))|
    decreases |s| - from
  {
    if from < |s| {
      var rest := FreshFrom(s, from + 1);
      FreshFromCount(s, from + 1);
      if s[from] !in s[..from] {
        FreshFromMembers(s, from + 1, s[from]);
        assert s[from] in s[..from + 1];
        assert s[from] !in rest;
        assert Elements(FreshFrom(s, from)) == Elements(rest) + {s[from]};
      }
    }
  }

  /** `k` is where `x` occurs first. */
  ghost predicate FirstAt<T>(s: seq<T>, x: T, k: int) { 0 <= k < |s| && s[k] == x && x !in s[..k] }

  /** Everything still to come occurs first at `from` or later. */
  lemma {:induction false} FreshFromLater<T>(s: seq<T>, from: nat, x: T, k: int)
    requires from <= |s| && x in FreshFrom(s, from) && FirstAt(s, x, k)
    ensures k >= from
  {
    FreshFromMembers(s, from, x);
    assert forall m :: 0 <= m < from ==> s[m] in s[..from];
  }

  lemma {:induction false} FreshFromOrder<T>(s: seq<T>, from: nat, i: nat, j: nat, a: int, b: int)
    requires from <= |s| && i < j < |FreshFrom(s, from)|
    requires FirstAt(s, FreshFrom(s, from)[i], a) && FirstAt(s, FreshFrom(s, from)[j], b)
    ensures a < b
    decreases |s| - from
  {
    var r, rest := FreshFrom(s, from), FreshFrom(s, from + 1);
    if s[from] in s[..from] {
      FreshFromOrder(s, from + 1, i, j, a, b);
    } else if i == 0 {
      assert r[j] == rest[j - 1];
      FreshFromLater(s, from + 1, r[j], b);
      assert forall m :: 0 <= m < a ==> s[m] in s[..a];
    } else {
      assert r[i] == rest[i - 1] && r[j] == rest[j - 1];
      FreshFromOrder(s, from + 1, i - 1, j - 1, a, b);
    }
  }

  /** Without repetitions, items keep the order of their first occurrences. */
  lemma DistinctOrder<T>(s: seq<T>, i: nat, j: nat, a: int, b: int)
    requires i < j < |Distinct(s)| && FirstAt(s, Distinct(s)[i], a) && FirstAt(s, Distinct(s)[j], b)
    ensures a < b
  {
    FreshFromOrder(s, 0, i, j, a, b);
  }

  /** `Distinct` of a rotation lists the items of the list... */
  lemma DistinctMembers<T>(s: seq<T>, first: nat, x: T)
    ensures x in Distinct(Rotated(s, first)) <==> x in s
  {
    FreshFromMembers(Rotated(s, first), 0, x);
    RotatedMembers(s, first, x);
  }

  /** ... each once, as many as there are different ones. */
  lemma DistinctRotated<T>(s: seq<T>, first: nat)
    ensures forall i, j :: 0 <= i < j < |Distinct(Rotated(s, first))| ==> Distinct(Rotated(s, first))[i] != Distinct(Rotated(s, first))[j]
    ensures |Distinct(Rotated(s, first))| == |Elements(s)|
  {
    hide Rotated, FreshFrom;
    var r := Rotated(s, first);
    FreshFromCount(r, 0);
    var listed, all := Elements(FreshFrom(r, 0)), Elements(s);
    forall x | x in listed ensures x in all {
      DistinctMembers(s, first, x);
    }
    forall x | x in all ensures x in listed {
      DistinctMembers(s, first, x);
    }
    assert listed <= all && all <= listed;
    assert listed == all;
  }

  /** The items not in `drop`, in order. */
  function Keep<T(==)>(s: seq<T>, drop: set<T>): (r: seq<T>)
    ensures |r| <= |s|
  {
    if s == [] then [] else (if s[0] in drop then [] else [s[0]]) + Keep(s[1..], drop)
  }

  lemma {:induction false} KeepMembers<T>(s: seq<T>, drop: set<T>, x: T)
    ensures x in Keep(s, drop) <==> x in s && x !in drop
  {
    if s != [] {
      KeepMembers(s[1..], drop, x);
      assert s == [s[0]] + s[1..];
    }
  }

  /** What is kept of one item does not depend on the others, and the order stays. */
  lemma {:induction false} KeepAppend<T>(a: seq<T>, b: seq<T>, drop: set<T>)
    ensures Keep(a + b, drop) == Keep(a, drop) + Keep(b, drop)
  {
    if a == [] {
      assert a + b == b;
    } else {
      assert (a + b)[1..] == a[1..] + b;
      KeepAppend(a[1..], b, drop);
    }
  }

  lemma {:induction false} KeepAll<T>(s: seq<T>)
    ensures Keep(s, {}) == s
  {
    if s != [] {
      KeepAll(s[1..]);
      assert s == [s[0]] + s[1..];
    }
  }

  predicate AllIn<T(==)>(s: seq<T>, within: set<T>) { forall x :: x in s ==> x in within }

  /** The edges to dial: those not cooling, or a single one when all are. */
  function EdgeAttempts<T(==)>(ips: seq<T>, first: nat, cooling: set<T>): seq<T> {
    var allCooling := AllIn(ips, cooling);
    var limit := if allCooling then 1 else |ips|;
    var kept := Keep(Rotated(ips, first), if allCooling then {} else cooling);
    if limit < |kept| then kept[..limit] else kept
  }

  /** The rotated list without cooling edges, or exactly the first when all cool; never nothing. */
  lemma EdgeSelection<T>(ips: seq<T>, first: nat, cooling: set<T>)
    requires ips != []
    ensures EdgeAttempts(ips, first, cooling) == if AllIn(ips, cooling) then [ips[first % |ips|]] else Keep(Rotated(ips, first), cooling)
    ensures 1 <= |EdgeAttempts(ips, first, cooling)| <= |ips|
  {
    var r := Rotated(ips, first);
    assert r[0] == ips[first % |ips|];
    if AllIn(ips, cooling) {
      KeepAll(r);
      hide Rotated, Keep, AllIn;
      assert r[..1] == [r[0]];
    } else {
      var ip :| ip in ips && ip !in cooling;
      RotatedMembers(ips, first, ip);
      KeepMembers(r, cooling, ip);
      hide Rotated, Keep;
      assert ip in Keep(r, cooling);
    }
  }

  /** Only configured edges are dialled, and, unless all cool, exactly the edges that do not. */
  lemma EdgeMembers<T>(ips: seq<T>, first: nat, cooling: set<T>, ip: T)
    ensures ip in EdgeAttempts(ips, first, cooling) ==> ip in ips
    ensures !AllIn(ips, cooling) ==> (ip in EdgeAttempts(ips, first, cooling) <==> ip in ips && ip !in cooling)
  {
    if ips != [] {
      EdgeSelection(ips, first, cooling);
      RotatedMembers(ips, first, ip);
      KeepMembers(Rotated(ips, first), cooling, ip);
      hide EdgeAttempts, Rotated, Keep;
    }
  }
}
