/**
  The least-recently-used order of a cache, and how it depends on the capacity.
*/
module Lru {
  import opened Util

  type Address = int

  /** The order after `a` is touched: oldest first, at most `capacity` long. */
  function Touch(order: seq<Address>, capacity: nat, a: Address): seq<Address> {
    var o := Without(order, a) + [a];
    if |o| > capacity then o[1..] else o
  }

  datatype Use = Touched(address: Address) | Removed(address: Address)

  /** The order after some uses, from the empty order. */
  function Order(capacity: nat, uses: seq<Use>): seq<Address> {
    if uses == [] then []
    else
      var before := Order(capacity, uses[..|uses| - 1]);
      match uses[|uses| - 1]
      case Touched(a) => Touch(before, capacity, a)
      case Removed(a) => Without(before, a)
  }

  lemma {:induction false} OrderBounded(capacity: nat, uses: seq<Use>)
    ensures Distinct(Order(capacity, uses)) && |Order(capacity, uses)| <= capacity
  {
    if uses != [] {
      var front := uses[..|uses| - 1];
      OrderBounded(capacity, front);
      WithoutDistinct(Order(capacity, front), uses[|uses| - 1].address);
      DistinctAppend(Without(Order(capacity, front), uses[|uses| - 1].address), uses[|uses| - 1].address);
    }
  }

  // ---- a smaller cache holds the recent part of a larger one ----------------

  ghost predicate IsSuffix(a: seq<Address>, b: seq<Address>) {
    |a| <= |b| && b[|b| - |a|..] == a
  }

  lemma WithoutSuffix(a: seq<Address>, b: seq<Address>, x: Address)
    requires IsSuffix(a, b)
    ensures IsSuffix(Without(a, x), Without(b, x))
  {
    var p := b[..|b| - |a|];
    assert b == p + a;
    WithoutConcat(p, a, x);
  }

  lemma TouchIsSuffix(a: seq<Address>, s: seq<Address>, k: nat, x: Address)
    requires IsSuffix(a, s)
    ensures IsSuffix(Touch(a, k, x), Without(s, x) + [x])
  {
    WithoutSuffix(a, s, x);
    var a', s' := Without(a, x) + [x], Without(s, x) + [x];
    var n := |s'| - |a'|;
    assert s'[n..] == Without(s, x)[n..] + [x] == a';
    assert s'[n + 1..] == a'[1..];
  }

  lemma TouchSuffix(a: seq<Address>, b: seq<Address>, k: nat, m: nat, x: Address)
    requires IsSuffix(a, b) && k <= m && Distinct(b) && |a| <= k && |b| <= m
    ensures IsSuffix(Touch(a, k, x), Touch(b, m, x))
  {
    WithoutDistinct(b, x);
    WithoutSuffix(a, b, x);
    var a', b' := Without(a, x) + [x], Without(b, x) + [x];
    var n := |b'| - |a'|;
    assert b'[n..] == Without(b, x)[n..] + [x] == a';
    if |a'| > k {
      assert b'[n + 1..] == a'[1..];
    }
  }

  /** Mattson's stack property: after any touches and removals, the order of a smaller capacity is the
      most recent part of the order of a larger one. */
  lemma {:induction false} Inclusion(k: nat, m: nat, uses: seq<Use>)
    requires k <= m
    ensures IsSuffix(Order(k, uses), Order(m, uses))
  {
    if uses != [] {
      var front, last := uses[..|uses| - 1], uses[|uses| - 1];
      Inclusion(k, m, front);
      OrderBounded(k, front);
      OrderBounded(m, front);
      match last
      case Touched(a) => TouchSuffix(Order(k, front), Order(m, front), k, m, a);
      case Removed(a) => WithoutSuffix(Order(k, front), Order(m, front), a);
    }
  }

  /** How many touches find their address in the order. */
  function Hits(capacity: nat, uses: seq<Use>): nat {
    if uses == [] then 0
    else
      var front, last := uses[..|uses| - 1], uses[|uses| - 1];
      Hits(capacity, front) + if last.Touched? && last.address in Order(capacity, front) then 1 else 0
  }

  /** More capacity never costs a hit. */
  lemma {:induction false} MoreCapacityMoreHits(k: nat, m: nat, uses: seq<Use>)
    requires k <= m
    ensures Hits(k, uses) <= Hits(m, uses)
  {
    if uses != [] {
      var front := uses[..|uses| - 1];
      MoreCapacityMoreHits(k, m, front);
      Inclusion(k, m, front);
    }
  }

  // ---- the order is the recency of the last distinct addresses ---------------

  function Touches(trace: seq<Address>): seq<Use> {
    seq(|trace|, i requires 0 <= i < |trace| => Touched(trace[i]))
  }

  /** The position of the last occurrence of `a`. */
  function LastUse(trace: seq<Address>, a: Address): nat
    requires a in trace
  {
    if trace[|trace| - 1] == a then |trace| - 1
    else
      assert a in trace[..|trace| - 1];
      LastUse(trace[..|trace| - 1], a)
  }

  lemma {:induction false} LastUseIsLast(trace: seq<Address>, a: Address)
    requires a in trace
    ensures LastUse(trace, a) < |trace| && trace[LastUse(trace, a)] == a
    ensures forall i :: LastUse(trace, a) < i < |trace| ==> trace[i] != a
  {
    if trace[|trace| - 1] != a {
      assert a in trace[..|trace| - 1];
      LastUseIsLast(trace[..|trace| - 1], a);
    }
  }

  ghost predicate OldestFirst(s: seq<Address>, trace: seq<Address>)
    requires forall a :: a in s ==> a in trace
  {
    forall i, j :: 0 <= i < j < |s| ==> LastUse(trace, s[i]) < LastUse(trace, s[j])
  }

  /** `s` lists the addresses of the trace once each, by their last use, oldest first. */
  ghost predicate ByRecency(s: seq<Address>, trace: seq<Address>) {
    (forall a :: a in s <==> a in trace) && OldestFirst(s, trace)
  }

  /** All addresses of the trace by recency. */
  function Recency(trace: seq<Address>): seq<Address> {
    if trace == [] then []
    else Without(Recency(trace[..|trace| - 1]), trace[|trace| - 1]) + [trace[|trace| - 1]]
  }

  lemma {:induction false} WithoutKeepsOrder(s: seq<Address>, trace: seq<Address>, x: Address)
    requires (forall a :: a in s ==> a in trace) && OldestFirst(s, trace)
    ensures OldestFirst(Without(s, x), trace)
  {
    if s != [] {
      var rest := Without(s[1..], x);
      WithoutKeepsOrder(s[1..], trace, x);
      if s[0] != x {
        forall j | 0 <= j < |rest| ensures LastUse(trace, s[0]) < LastUse(trace, rest[j]) {
          assert rest[j] in s[1..];
          var k :| 0 <= k < |s[1..]| && s[1..][k] == rest[j];
          assert s[k + 1] == rest[j];
        }
        var r := [s[0]] + rest;
        forall i, j | 0 <= i < j < |r| ensures LastUse(trace, r[i]) < LastUse(trace, r[j]) {
          assert r[j] == rest[j - 1] && (i > 0 ==> r[i] == rest[i - 1]);
        }
      }
    }
  }

  /** One more use puts its address last. */
  lemma UsedLast(r: seq<Address>, trace: seq<Address>)
    requires trace != []
    requires var front := trace[..|trace| - 1];
             (forall a :: a in r ==> a in front && a != trace[|trace| - 1]) && OldestFirst(r, front)
    ensures forall a :: a in r + [trace[|trace| - 1]] ==> a in trace
    ensures OldestFirst(r + [trace[|trace| - 1]], trace)
  {
    var front, last := trace[..|trace| - 1], trace[|trace| - 1];
    assert LastUse(trace, last) == |front|;
    forall a | a in r ensures a in trace && LastUse(trace, a) == LastUse(front, a) < |front| {
      LastUseIsLast(front, a);
    }
    var s := r + [last];
    forall i, j | 0 <= i < j < |s| ensures LastUse(trace, s[i]) < LastUse(trace, s[j]) {
      assert s[i] == r[i] && s[i] in r;
      if j < |r| {
        assert s[j] == r[j] && s[j] in r;
      }
    }
  }

  lemma {:induction false} RecencyIsByRecency(trace: seq<Address>)
    ensures ByRecency(Recency(trace), trace)
  {
    if trace != [] {
      var front, last := trace[..|trace| - 1], trace[|trace| - 1];
      RecencyIsByRecency(front);
      WithoutKeepsOrder(Recency(front), front, last);
      UsedLast(Without(Recency(front), last), trace);
      assert forall a :: a in trace <==> a in front || a == last;
    }
  }

  lemma {:induction false} RecencyDistinct(trace: seq<Address>)
    ensures Distinct(Recency(trace)) && |Recency(trace)| <= |trace|
  {
    if trace != [] {
      var front, last := trace[..|trace| - 1], trace[|trace| - 1];
      RecencyDistinct(front);
      WithoutDistinct(Recency(front), last);
      DistinctAppend(Without(Recency(front), last), last);
    }
  }

  function LastOf(s: seq<Address>, k: nat): seq<Address> {
    if |s| <= k then s else s[|s| - k..]
  }

  lemma LastOfSuffix(s: seq<Address>, k: nat)
    ensures IsSuffix(LastOf(s, k), s)
  {
  }

  lemma LastOfUnique(a: seq<Address>, s: seq<Address>, k: nat)
    requires IsSuffix(a, s) && |a| == (if |s| <= k then |s| else k)
    ensures a == LastOf(s, k)
  {
  }

  lemma SuffixDistinct(a: seq<Address>, s: seq<Address>)
    requires IsSuffix(a, s) && Distinct(s)
    ensures Distinct(a) && forall x :: x in a ==> x in s
  {
  }

  lemma TouchLength(s: seq<Address>, k: nat, x: Address)
    requires Distinct(s)
    ensures var n := |Without(s, x) + [x]|;
            |Touch(LastOf(s, k), k, x)| == if n <= k then n else k
  {
    var o := LastOf(s, k);
    LastOfSuffix(s, k);
    SuffixDistinct(o, s);
    WithoutDistinct(o, x);
    WithoutDistinct(s, x);
  }

  lemma TouchLastOf(s: seq<Address>, k: nat, x: Address)
    requires Distinct(s)
    ensures Touch(LastOf(s, k), k, x) == LastOf(Without(s, x) + [x], k)
  {
    LastOfSuffix(s, k);
    TouchIsSuffix(LastOf(s, k), s, k, x);
    TouchLength(s, k, x);
    LastOfUnique(Touch(LastOf(s, k), k, x), Without(s, x) + [x], k);
  }

  /** With capacity `k` the order is exactly the last `k` distinct addresses, by recency. */
  lemma {:induction false} OrderIsRecentPart(k: nat, trace: seq<Address>)
    ensures Order(k, Touches(trace)) == LastOf(Recency(trace), k)
  {
    if trace != [] {
      var front, last := trace[..|trace| - 1], trace[|trace| - 1];
      assert Touches(trace)[..|trace| - 1] == Touches(front);
      OrderIsRecentPart(k, front);
      RecencyDistinct(front);
      TouchLastOf(Recency(front), k, last);
    }
  }

  // ---- the structure as the program has it ----------------------------------

  class LRUReplacement {
    const capacity: nat
    var accessOrder: seq<Address>

    constructor (capacity: nat)
      ensures this.capacity == capacity && accessOrder == []
    {
      this.capacity, accessOrder := capacity, [];
    }

    method TouchAddress(a: Address)
      modifies this
      ensures accessOrder == Touch(old(accessOrder), capacity, a)
    {
      if a in accessOrder {
        Delete(a);
      } else {
        WithoutAbsent(accessOrder, a);
      }
      accessOrder := accessOrder + [a];
      if |accessOrder| > capacity {
        accessOrder := accessOrder[1..];
      }
    }

    method Evict() returns (victim: Option<Address>)
      ensures victim == if accessOrder == [] then None else Some(accessOrder[0])
    {
      return if accessOrder != [] then Some(accessOrder[0]) else None;
    }

    method RemoveAddress(a: Address)
      modifies this
      ensures accessOrder == Without(old(accessOrder), a)
    {
      if a in accessOrder {
        Delete(a);
      } else {
        WithoutAbsent(accessOrder, a);
      }
    }

    /** Deletion of a key from the ordered dictionary. */
    method Delete(a: Address)
      requires a in accessOrder
      modifies this
      ensures accessOrder == Without(old(accessOrder), a)
    {
      accessOrder := Without(accessOrder, a);
    }
  }
}
