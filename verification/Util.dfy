/** Small facts about sequences and sets that several components share. */
module Util {

  datatype Option<+T> = None | Some(value: T)

  /** No element occurs twice. */
  ghost predicate Distinct<T>(s: seq<T>) {
    forall i, j :: 0 <= i < j < |s| ==> s[i] != s[j]
  }

  ghost function Elements<T>(s: seq<T>): set<T> {
    set x | x in s
  }

  lemma {:induction false} DistinctCardinality<T>(s: seq<T>)
    requires Distinct(s)
    ensures |Elements(s)| == |s|
  {
    if |s| == 0 {
      assert Elements(s) == {};
    } else {
      var front := s[..|s| - 1];
      DistinctCardinality(front);
      assert s == front + [s[|s| - 1]];
      assert forall x :: x in s <==> x in front || x == s[|s| - 1];
      assert Elements(s) == Elements(front) + {s[|s| - 1]};
      assert s[|s| - 1] !in Elements(front);
    }
  }

  lemma DistinctAppend<T>(s: seq<T>, x: T)
    requires Distinct(s) && x !in s
    ensures Distinct(s + [x])
  {
  }

  lemma HasMember<T>(s: set<T>) returns (x: T)
    requires s != {}
    ensures x in s
  {
    x :| x in s;
  }

  /** Two sets that together outnumber a common superset share a member. */
  lemma SetsOverlap<T>(a: set<T>, b: set<T>, all: set<T>)
    requires a <= all && b <= all
    requires |a| + |b| > |all|
    ensures exists x :: x in a && x in b
  {
    if a * b == {} {
      assert |a + b| == |a| + |b|;
      SubsetCardinality(a + b, all);
    } else {
      var x :| x in a * b;
    }
  }

  lemma {:induction false} SubsetCardinality<T>(a: set<T>, b: set<T>)
    requires a <= b
    ensures |a| <= |b|
    ensures |a| == |b| ==> a == b
  {
    if a != {} {
      var x :| x in a;
      SubsetCardinality(a - {x}, b - {x});
      if |a| == |b| {
        assert a == (a - {x}) + {x} == (b - {x}) + {x} == b;
      }
    }
  }

  lemma {:induction false} LongerThanAll(s: set<string>) returns (n: nat)
    ensures forall x :: x in s ==> |x| < n
  {
    if s == {} {
      n := 0;
    } else {
      var x :| x in s;
      n := LongerThanAll(s - {x});
      n := if |x| < n then n else |x| + 1;
    }
  }

  /** There is always another name. */
  lemma NewName(s: set<string>) returns (x: string)
    ensures x !in s
  {
    var n := LongerThanAll(s);
    x := seq(n, i => 'n');
  }

  /** `s` without any occurrence of `x`, the other elements in their order. */
  function Without<T(==,!new)>(s: seq<T>, x: T): (r: seq<T>)
    ensures x !in r
    ensures forall y :: y in r <==> y in s && y != x
  {
    if s == [] then []
    else if s[0] == x then Without(s[1..], x)
    else [s[0]] + Without(s[1..], x)
  }

  lemma {:induction false} WithoutAbsent<T(!new)>(s: seq<T>, x: T)
    requires x !in s
    ensures Without(s, x) == s
  {
    if s != [] {
      WithoutAbsent(s[1..], x);
    }
  }

  lemma {:induction false} WithoutConcat<T(!new)>(s: seq<T>, t: seq<T>, x: T)
    ensures Without(s + t, x) == Without(s, x) + Without(t, x)
  {
    if s == [] {
      assert s + t == t;
    } else {
      assert (s + t)[1..] == s[1..] + t;
      WithoutConcat(s[1..], t, x);
    }
  }

  lemma {:induction false} WithoutDistinct<T(!new)>(s: seq<T>, x: T)
    requires Distinct(s)
    ensures Distinct(Without(s, x))
    ensures |Without(s, x)| == if x in s then |s| - 1 else |s|
  {
    if s != [] {
      assert Distinct(s[1..]);
      WithoutDistinct(s[1..], x);
      assert s[0] !in s[1..];
      if s[0] == x {
        WithoutAbsent(s[1..], x);
      } else {
        assert Distinct([s[0]] + Without(s[1..], x));
      }
    }
  }

  /** `s` without the members of `gone`. */
  function Kept<T(==)>(s: seq<T>, gone: set<T>): seq<T> {
    if s == [] then []
    else if s[0] in gone then Kept(s[1..], gone)
    else [s[0]] + Kept(s[1..], gone)
  }

  lemma {:induction false} KeptMembers<T(!new)>(s: seq<T>, gone: set<T>, x: T)
    ensures x in Kept(s, gone) <==> x in s && x !in gone
  {
    if s != [] {
      KeptMembers(s[1..], gone, x);
    }
  }

  lemma {:induction false} KeptAppend<T(!new)>(s: seq<T>, gone: set<T>, x: T)
    requires x !in gone
    ensures Kept(s + [x], gone) == Kept(s, gone) + [x]
  {
    if s == [] {
      assert s + [x] == [x] && Kept([x], gone) == [x];
    } else {
      assert (s + [x])[1..] == s[1..] + [x];
      KeptAppend(s[1..], gone, x);
    }
  }

  lemma {:induction false} KeptWithout<T(!new)>(s: seq<T>, gone: set<T>, x: T)
    ensures Kept(s, gone + {x}) == Without(Kept(s, gone), x)
  {
    if s != [] {
      KeptWithout(s[1..], gone, x);
      if s[0] !in gone {
        assert Kept(s, gone)[1..] == Kept(s[1..], gone);
      }
    }
  }

  lemma {:induction false} KeptDistinct<T(!new)>(s: seq<T>, gone: set<T>)
    requires Distinct(s)
    ensures Distinct(Kept(s, gone))
  {
    if s != [] {
      assert Distinct(s[1..]) && s[0] !in s[1..];
      KeptDistinct(s[1..], gone);
      KeptMembers(s[1..], gone, s[0]);
    }
  }

  /** What is kept keeps its order. */
  lemma {:induction false} KeptOrder<T(!new)>(s: seq<T>, gone: set<T>, i: nat, j: nat, a: nat, b: nat)
    requires Distinct(s) && i < j < |s|
    requires a < |Kept(s, gone)| && Kept(s, gone)[a] == s[i]
    requires b < |Kept(s, gone)| && Kept(s, gone)[b] == s[j]
    ensures a < b
  {
    assert Distinct(s[1..]) && s[0] !in s[1..];
    KeptMembers(s[1..], gone, s[0]);
    var rest := Kept(s[1..], gone);
    if s[0] in gone {
      assert i != 0 by { KeptMembers(s, gone, s[0]); assert s[i] in Kept(s, gone); }
      KeptOrder(s[1..], gone, i - 1, j - 1, a, b);
    } else {
      assert forall c :: 0 <= c < |rest| ==> rest[c] != s[0];
      assert b != 0;
      if i != 0 {
        assert a != 0;
        KeptOrder(s[1..], gone, i - 1, j - 1, a - 1, b - 1);
      }
    }
  }

  lemma {:induction false} KeptAll<T(!new)>(s: seq<T>)
    ensures Kept(s, {}) == s
  {
    if s != [] {
      KeptAll(s[1..]);
    }
  }

  /** In a sequence without repetition, no element is both in an earlier and in a later part. */
  lemma DistinctParts<T>(p: seq<T>, q: seq<T>, x: T)
    requires Distinct(p + q) && x in p
    ensures x !in q
  {
    var i :| 0 <= i < |p| && p[i] == x;
    forall j | 0 <= j < |q| ensures q[j] != x {
      assert (p + q)[i] != (p + q)[|p| + j];
    }
  }

  lemma DistinctConcat<T>(s: seq<T>, t: seq<T>)
    requires Distinct(s) && Distinct(t)
    requires forall x :: x in s ==> x !in t
    ensures Distinct(s + t)
  {
    forall i, j | 0 <= i < j < |s + t| ensures (s + t)[i] != (s + t)[j] {
      if i < |s| && j >= |s| {
        assert (s + t)[i] in s && (s + t)[j] in t;
      }
    }
  }
}
