/**
  The consistent-hash ring: which node owns a key, and what a change of the
  membership does to ownership. The hash is any function into 128 bits.
*/
module HashRing {
  import opened Util

  /** The number of values of the hash. */
  const CIRCLE: nat := 0x1_0000_0000_0000_0000_0000_0000_0000_0000

  type HashValue = h: nat | h < CIRCLE
  type NodeName = string
  type Ring = map<HashValue, NodeName>

  // ---- labels of virtual nodes ----------------------------------------------

  const DIGITS := "0123456789"

  function Decimal(i: nat): string {
    if i < 10 then [DIGITS[i]] else Decimal(i / 10) + [DIGITS[i % 10]]
  }

  function Label(node: NodeName, i: nat): string {
    node + ":vn" + Decimal(i)
  }

  lemma {:induction false} DecimalIsDigits(i: nat, k: nat)
    requires k < |Decimal(i)|
    ensures Decimal(i)[k] in DIGITS
  {
    if i >= 10 && k < |Decimal(i / 10)| {
      DecimalIsDigits(i / 10, k);
    }
  }

  lemma DigitInjective(a: nat, b: nat)
    requires a < 10 && b < 10 && DIGITS[a] == DIGITS[b]
    ensures a == b
  {
  }

  lemma {:induction false} DecimalInjective(i: nat, j: nat)
    requires Decimal(i) == Decimal(j)
    ensures i == j
  {
    var s := Decimal(i);
    assert i >= 10 ==> |Decimal(i / 10)| > 0;
    assert j >= 10 ==> |Decimal(j / 10)| > 0;
    if i >= 10 && j >= 10 {
      assert s[..|s| - 1] == Decimal(i / 10) == Decimal(j / 10);
      DecimalInjective(i / 10, j / 10);
      assert s[|s| - 1] == DIGITS[i % 10] == DIGITS[j % 10];
    }
    DigitInjective(i % 10, j % 10);
  }

  /** A longer number would put a digit where the other label has the `n` of `:vn`. */
  lemma LabelLengths(node: NodeName, i: nat, other: NodeName, j: nat)
    requires Label(node, i) == Label(other, j)
    ensures |Decimal(i)| >= |Decimal(j)|
  {
    var s := Label(node, i);
    var at := |s| - |Decimal(i)| - 1;
    assert s[at] == 'n';
    if |Decimal(i)| < |Decimal(j)| {
      var k := |Decimal(j)| - |Decimal(i)| - 1;
      assert Label(other, j)[at] == Decimal(j)[k];
      DecimalIsDigits(j, k);
    }
  }

  /** Different virtual nodes have different labels, whatever characters the node names contain. */
  lemma LabelInjective(node: NodeName, i: nat, other: NodeName, j: nat)
    requires Label(node, i) == Label(other, j)
    ensures node == other && i == j
  {
    LabelLengths(node, i, other, j);
    LabelLengths(other, j, node, i);
    var s := Label(node, i);
    var n := |s| - |Decimal(i)|;
    assert s[n..] == Decimal(i) && Label(other, j)[n..] == Decimal(j);
    DecimalInjective(i, j);
    assert s[..n - 3] == node && Label(other, j)[..n - 3] == other;
  }

  /** The number that a string of decimal digits writes. */
  function Value(s: string): int {
    if s == [] then 0 else 10 * Value(s[..|s| - 1]) + (s[|s| - 1] as int - '0' as int)
  }

  lemma DigitValue(d: nat)
    requires d < 10
    ensures DIGITS[d] as int - '0' as int == d
  {
  }

  lemma {:induction false} DecimalWrites(i: nat)
    ensures Value(Decimal(i)) == i
    ensures i > 0 ==> Decimal(i)[0] != '0'
  {
    DigitValue(i % 10);
    if i >= 10 {
      DecimalWrites(i / 10);
      assert Decimal(i)[..|Decimal(i)| - 1] == Decimal(i / 10);
    } else {
      assert Decimal(i)[..0] == [];
    }
  }

  /** A label is the node's name, `:vn`, and the number in decimal notation without leading zeros. */
  lemma LabelSpells(node: NodeName, i: nat)
    ensures var s := Label(node, i);
            && |s| > |node| + 3 && s[..|node|] == node && s[|node|..|node| + 3] == ":vn"
            && Value(s[|node| + 3..]) == i && (i > 0 ==> s[|node| + 3] != '0')
  {
    DecimalWrites(i);
    assert Label(node, i)[|node| + 3..] == Decimal(i);
  }

  // ---- the ring as a map ----------------------------------------------------

  /** Where the first `vnodes` virtual nodes of `node` fall on the circle. */
  function Points(hash: string -> HashValue, vnodes: nat, node: NodeName): set<HashValue> {
    set i: nat | i < vnodes :: hash(Label(node, i))
  }

  function Claim(ring: Ring, points: set<HashValue>, node: NodeName): Ring {
    ring + map p | p in points :: node
  }

  lemma ClaimOneMore(ring: Ring, points: set<HashValue>, p: HashValue, node: NodeName)
    ensures Claim(ring, points, node)[p := node] == Claim(ring, points + {p}, node)
  {
  }

  lemma OneMorePoint(hash: string -> HashValue, i: nat, node: NodeName)
    ensures Points(hash, i + 1, node) == Points(hash, i, node) + {hash(Label(node, i))}
  {
  }

  function Add(hash: string -> HashValue, vnodes: nat, ring: Ring, node: NodeName): Ring {
    Claim(ring, Points(hash, vnodes, node), node)
  }

  function Remove(ring: Ring, node: NodeName): Ring {
    map p | p in ring && ring[p] != node :: ring[p]
  }

  function Build(hash: string -> HashValue, vnodes: nat, nodes: seq<NodeName>): Ring {
    if nodes == [] then map[]
    else Add(hash, vnodes, Build(hash, vnodes, nodes[..|nodes| - 1]), nodes[|nodes| - 1])
  }

  // ---- sorted keys ----------------------------------------------------------

  ghost predicate StrictlySorted(s: seq<HashValue>) {
    forall i, j :: 0 <= i < j < |s| ==> s[i] < s[j]
  }

  predicate IsLeast(keys: set<HashValue>, m: HashValue) {
    m in keys && forall x :: x in keys ==> m <= x
  }

  lemma {:induction false} LeastExists(keys: set<HashValue>)
    requires keys != {}
    ensures exists m :: IsLeast(keys, m)
  {
    var k :| k in keys;
    var rest := keys - {k};
    assert forall x :: x in keys ==> x == k || x in rest;
    if rest == {} {
      assert IsLeast(keys, k);
    } else {
      LeastExists(rest);
      var m :| IsLeast(rest, m);
      assert IsLeast(keys, if k <= m then k else m);
    }
  }

  /** The keys in increasing order. */
  function Sorted(keys: set<HashValue>): (s: seq<HashValue>)
    ensures StrictlySorted(s)
    ensures forall x :: x in s <==> x in keys
  {
    if keys == {} then []
    else
      LeastExists(keys);
      var m :| IsLeast(keys, m);
      [m] + Sorted(keys - {m})
  }

  // ---- ownership ------------------------------------------------------------

  /** How far clockwise from `h` to `k`. */
  function Distance(h: HashValue, k: HashValue): nat {
    if h <= k then k - h else k + CIRCLE - h
  }

  ghost predicate IsNearest(keys: set<HashValue>, h: HashValue, k: HashValue) {
    k in keys && forall x :: x in keys ==> Distance(h, k) <= Distance(h, x)
  }

  lemma {:induction false} NearestExists(keys: set<HashValue>, h: HashValue)
    requires keys != {}
    ensures exists k :: IsNearest(keys, h, k)
  {
    var k :| k in keys;
    if keys == {k} {
      assert IsNearest(keys, h, k);
    } else {
      assert keys - {k} != {};
      NearestExists(keys - {k}, h);
      var m :| IsNearest(keys - {k}, h, m);
      assert IsNearest(keys, h, if Distance(h, k) <= Distance(h, m) then k else m);
    }
  }

  lemma NearestUnique(keys: set<HashValue>, h: HashValue, j: HashValue, k: HashValue)
    requires IsNearest(keys, h, j) && IsNearest(keys, h, k)
    ensures j == k
  {
    assert Distance(h, j) == Distance(h, k);
  }

  /** `node` owns hash `h`: it owns the point that is nearest clockwise. */
  ghost predicate Owns(ring: Ring, h: HashValue, node: NodeName) {
    exists k :: IsNearest(ring.Keys, h, k) && ring[k] == node
  }

  /** On a ring with points, every hash has one owner. */
  lemma OwnerUnique(ring: Ring, h: HashValue)
    requires ring != map[]
    ensures exists n :: Owns(ring, h, n)
    ensures forall m, n :: Owns(ring, h, m) && Owns(ring, h, n) ==> m == n
  {
    assert ring.Keys != {};
    NearestExists(ring.Keys, h);
    var k :| IsNearest(ring.Keys, h, k);
    assert Owns(ring, h, ring[k]);
    forall j | IsNearest(ring.Keys, h, j) ensures j == k {
      NearestUnique(ring.Keys, h, j, k);
    }
  }

  /** Removing a node moves no key of any other node. */
  lemma RemoveMovesOnlyItsKeys(ring: Ring, h: HashValue, node: NodeName, owner: NodeName)
    requires Owns(ring, h, owner) && owner != node
    ensures Owns(Remove(ring, node), h, owner)
  {
    var k :| IsNearest(ring.Keys, h, k) && ring[k] == owner;
    assert IsNearest(Remove(ring, node).Keys, h, k);
  }

  /** Some point of `points` is at least as near to `h` as every key of `ring`. */
  ghost predicate Nearer(ring: Ring, points: set<HashValue>, h: HashValue) {
    exists p :: p in points && forall k :: k in ring ==> Distance(h, p) <= Distance(h, k)
  }

  /** A node that claims points takes exactly the keys that one of its points is at least as near to as
      any old point; every other key keeps its owner. */
  lemma AddMovesExactly(ring: Ring, points: set<HashValue>, h: HashValue, node: NodeName)
    requires ring != map[]
    ensures Nearer(ring, points, h) ==> Owns(Claim(ring, points, node), h, node)
    ensures !Nearer(ring, points, h) ==>
              forall m :: Owns(Claim(ring, points, node), h, m) <==> Owns(ring, h, m)
  {
    var grown := Claim(ring, points, node);
    assert grown.Keys == ring.Keys + points;
    assert ring.Keys != {};
    NearestExists(grown.Keys, h);
    var k :| IsNearest(grown.Keys, h, k);
    if Nearer(ring, points, h) {
      var p :| p in points && forall x :: x in ring ==> Distance(h, p) <= Distance(h, x);
      assert points != {};
      NearestExists(points, h);
      var q :| IsNearest(points, h, q);
      assert IsNearest(grown.Keys, h, q);
    } else {
      assert k !in points;
      assert IsNearest(ring.Keys, h, k) && grown[k] == ring[k];
      assert Owns(grown, h, ring[k]) && Owns(ring, h, ring[k]);
      OwnerUnique(ring, h);
      OwnerUnique(grown, h);
    }
  }

  /** Adding a node moves keys only to that node. */
  lemma AddMovesOnlyToIt(hash: string -> HashValue, vnodes: nat, ring: Ring, h: HashValue, node: NodeName,
                         before: NodeName, after: NodeName)
    requires Owns(ring, h, before) && Owns(Add(hash, vnodes, ring, node), h, after)
    ensures after == before || after == node
  {
    var grown := Add(hash, vnodes, ring, node);
    AddMovesExactly(ring, Points(hash, vnodes, node), h, node);
    OwnerUnique(grown, h);
    OwnerUnique(ring, h);
  }

  // ---- which points there are -------------------------------------------------

  /** One of the virtual nodes 0, 1, ..., `vnodes` - 1 of `node` falls on `p`. */
  ghost predicate FallsOn(hash: string -> HashValue, vnodes: nat, node: NodeName, p: HashValue) {
    exists i: nat :: i < vnodes && hash(Label(node, i)) == p
  }

  /** A node that joins takes exactly its points; a node that leaves takes along exactly the points that it owned. */
  lemma ChangesExactly(hash: string -> HashValue, vnodes: nat, ring: Ring, node: NodeName, p: HashValue)
    ensures var grown := Add(hash, vnodes, ring, node);
            if FallsOn(hash, vnodes, node, p) then p in grown && grown[p] == node
            else (p in grown <==> p in ring) && (p in ring ==> grown[p] == ring[p])
    ensures var shrunk := Remove(ring, node);
            && (p in shrunk <==> p in ring && ring[p] != node)
            && (p in shrunk ==> shrunk[p] == ring[p])
  {
    assert p in Points(hash, vnodes, node) <==> FallsOn(hash, vnodes, node, p);
  }

  /** `nodes[k]` has a virtual node on `p`, and no later node of the list has. */
  ghost predicate LastOn(hash: string -> HashValue, vnodes: nat, nodes: seq<NodeName>, p: HashValue, k: nat) {
    && k < |nodes| && FallsOn(hash, vnodes, nodes[k], p)
    && forall j :: k < j < |nodes| ==> !FallsOn(hash, vnodes, nodes[j], p)
  }

  lemma LastOnLonger(hash: string -> HashValue, vnodes: nat, front: seq<NodeName>, last: NodeName, p: HashValue, k: nat)
    requires LastOn(hash, vnodes, front, p, k) && !FallsOn(hash, vnodes, last, p)
    ensures LastOn(hash, vnodes, front + [last], p, k) && (front + [last])[k] == front[k]
  {
  }

  lemma {:induction false} PointOfRing(hash: string -> HashValue, vnodes: nat, nodes: seq<NodeName>, p: HashValue)
    ensures p in Build(hash, vnodes, nodes) <==> exists n :: n in nodes && FallsOn(hash, vnodes, n, p)
  {
    if nodes != [] {
      var front, last := nodes[..|nodes| - 1], nodes[|nodes| - 1];
      PointOfRing(hash, vnodes, front, p);
      assert forall x :: x in nodes <==> x in front || x == last;
      ChangesExactly(hash, vnodes, Build(hash, vnodes, front), last, p);
      hide Add, FallsOn;
    }
  }

  /** Collisions or not, the ring has exactly the points on which some virtual node of a listed node falls, and each is
      owned by the last listed node that falls on it. */
  lemma {:induction false} RingExactly(hash: string -> HashValue, vnodes: nat, nodes: seq<NodeName>, p: HashValue)
    ensures p in Build(hash, vnodes, nodes) <==> exists n :: n in nodes && FallsOn(hash, vnodes, n, p)
    ensures p in Build(hash, vnodes, nodes) ==>
              exists k: nat :: LastOn(hash, vnodes, nodes, p, k) && nodes[k] == Build(hash, vnodes, nodes)[p]
  {
    PointOfRing(hash, vnodes, nodes, p);
    if p in Build(hash, vnodes, nodes) {
      var front, last := nodes[..|nodes| - 1], nodes[|nodes| - 1];
      assert nodes == front + [last];
      RingExactly(hash, vnodes, front, p);
      ChangesExactly(hash, vnodes, Build(hash, vnodes, front), last, p);
      hide Add, FallsOn;
      if FallsOn(hash, vnodes, last, p) {
        assert LastOn(hash, vnodes, nodes, p, |front|);
      } else {
        var k: nat :| LastOn(hash, vnodes, front, p, k) && front[k] == Build(hash, vnodes, front)[p];
        LastOnLonger(hash, vnodes, front, last, p, k);
      }
    }
  }

  // ---- membership and history -----------------------------------------------

  datatype Change = Join(node: NodeName) | Leave(node: NodeName)

  function After(hash: string -> HashValue, vnodes: nat, ring: Ring, changes: seq<Change>): Ring
    decreases |changes|
  {
    if changes == [] then ring
    else
      var next := match changes[0]
        case Join(n) => Add(hash, vnodes, ring, n)
        case Leave(n) => Remove(ring, n);
      After(hash, vnodes, next, changes[1..])
  }

  function Members(members: set<NodeName>, changes: seq<Change>): set<NodeName>
    decreases |changes|
  {
    if changes == [] then members
    else
      var next := match changes[0]
        case Join(n) => members + {n}
        case Leave(n) => members - {n};
      Members(next, changes[1..])
  }

  /** No virtual nodes of two different nodes of `all` fall on one point. */
  ghost predicate NoCollision(hash: string -> HashValue, vnodes: nat, all: set<NodeName>) {
    forall m, n :: m in all && n in all && m != n ==> Points(hash, vnodes, m) !! Points(hash, vnodes, n)
  }

  predicate Held(ring: Ring, p: HashValue, n: NodeName) {
    p in ring && ring[p] == n
  }

  /** The ring has each member's points, owned by it, and nothing else. */
  ghost predicate Canonical(hash: string -> HashValue, vnodes: nat, ring: Ring, members: set<NodeName>) {
    forall p, n :: Held(ring, p, n) <==> (n in members && p in Points(hash, vnodes, n))
  }

  lemma CanonicalUnique(hash: string -> HashValue, vnodes: nat, a: Ring, b: Ring, members: set<NodeName>)
    requires Canonical(hash, vnodes, a, members) && Canonical(hash, vnodes, b, members)
    ensures a == b
  {
    forall p ensures p in a <==> p in b {
      if p in a {
        assert Held(a, p, a[p]) && Held(b, p, a[p]);
      }
      if p in b {
        assert Held(b, p, b[p]) && Held(a, p, b[p]);
      }
    }
    forall p | p in a ensures a[p] == b[p] {
      assert Held(a, p, a[p]) && Held(b, p, a[p]);
    }
  }

  lemma AddCanonical(hash: string -> HashValue, vnodes: nat, all: set<NodeName>, ring: Ring,
                     members: set<NodeName>, node: NodeName)
    requires NoCollision(hash, vnodes, all) && members <= all && node in all
    requires Canonical(hash, vnodes, ring, members)
    ensures Canonical(hash, vnodes, Add(hash, vnodes, ring, node), members + {node})
  {
    var grown := Add(hash, vnodes, ring, node);
    forall p, n
      ensures Held(grown, p, n) <==> (n in members + {node} && p in Points(hash, vnodes, n))
    {
      if p in Points(hash, vnodes, node) {
        assert n != node && n in all ==> p !in Points(hash, vnodes, n);
      } else {
        assert Held(grown, p, n) <==> Held(ring, p, n);
      }
    }
  }

  lemma RemoveCanonical(hash: string -> HashValue, vnodes: nat, ring: Ring, members: set<NodeName>, node: NodeName)
    requires Canonical(hash, vnodes, ring, members)
    ensures Canonical(hash, vnodes, Remove(ring, node), members - {node})
  {
    var shrunk := Remove(ring, node);
    forall p, n
      ensures Held(shrunk, p, n) <==> (n in members - {node} && p in Points(hash, vnodes, n))
    {
      assert Held(shrunk, p, n) <==> Held(ring, p, n) && n != node;
    }
  }

  lemma {:induction false} BuildCanonical(hash: string -> HashValue, vnodes: nat, all: set<NodeName>,
                                          nodes: seq<NodeName>)
    requires NoCollision(hash, vnodes, all) && Elements(nodes) <= all
    ensures Canonical(hash, vnodes, Build(hash, vnodes, nodes), Elements(nodes))
  {
    if nodes != [] {
      var front, last := nodes[..|nodes| - 1], nodes[|nodes| - 1];
      assert forall x :: x in nodes <==> x in front || x == last;
      assert Elements(nodes) == Elements(front) + {last};
      BuildCanonical(hash, vnodes, all, front);
      AddCanonical(hash, vnodes, all, Build(hash, vnodes, front), Elements(front), last);
    }
  }

  lemma {:induction false} AfterCanonical(hash: string -> HashValue, vnodes: nat, all: set<NodeName>, ring: Ring,
                                          members: set<NodeName>, changes: seq<Change>)
    requires NoCollision(hash, vnodes, all) && members <= all && forall c :: c in changes ==> c.node in all
    requires Canonical(hash, vnodes, ring, members)
    ensures Canonical(hash, vnodes, After(hash, vnodes, ring, changes), Members(members, changes))
    decreases |changes|
  {
    if changes != [] {
      match changes[0]
      case Join(n) =>
        AddCanonical(hash, vnodes, all, ring, members, n);
        AfterCanonical(hash, vnodes, all, Add(hash, vnodes, ring, n), members + {n}, changes[1..]);
      case Leave(n) =>
        RemoveCanonical(hash, vnodes, ring, members, n);
        AfterCanonical(hash, vnodes, all, Remove(ring, n), members - {n}, changes[1..]);
    }
  }

  /** Starting from `start`, the changes lead to the ring that is built from `end` in one go. */
  ghost predicate SameRing(hash: string -> HashValue, vnodes: nat, start: seq<NodeName>, changes: seq<Change>,
                           end: seq<NodeName>)
  {
    After(hash, vnodes, Build(hash, vnodes, start), changes) == Build(hash, vnodes, end)
  }

  /** `start`, `changes` and `end` speak of nodes in `all`, and lead to the members in `end`. */
  ghost predicate Leads(all: set<NodeName>, start: seq<NodeName>, changes: seq<Change>, end: seq<NodeName>) {
    && Elements(start) <= all && Elements(end) <= all && (forall c :: c in changes ==> c.node in all)
    && Members(Elements(start), changes) == Elements(end)
  }

  lemma HistoryDoesNotMatter(hash: string -> HashValue, vnodes: nat, all: set<NodeName>,
                             start: seq<NodeName>, changes: seq<Change>, end: seq<NodeName>)
    requires NoCollision(hash, vnodes, all) && Leads(all, start, changes, end)
    ensures SameRing(hash, vnodes, start, changes, end)
  {
    var built := Build(hash, vnodes, start);
    BuildCanonical(hash, vnodes, all, start);
    AfterCanonical(hash, vnodes, all, built, Elements(start), changes);
    BuildCanonical(hash, vnodes, all, end);
    CanonicalUnique(hash, vnodes, After(hash, vnodes, built, changes), Build(hash, vnodes, end), Elements(end));
  }

  /** If two nodes collide, the order in which they are listed shows. */
  lemma CollisionShows(hash: string -> HashValue, vnodes: nat, m: NodeName, n: NodeName, p: HashValue)
    requires m != n && p in Points(hash, vnodes, m) && p in Points(hash, vnodes, n)
    ensures !SameRing(hash, vnodes, [m, n], [], [n, m])
  {
    assert [m, n][..1] == [m] && [n, m][..1] == [n];
    assert Build(hash, vnodes, [m, n])[p] == n;
    assert Build(hash, vnodes, [n, m])[p] == m;
  }

  /** The ring depends on the current members alone, whatever the history that led to them,
      exactly when no two of the possible members collide. */
  lemma HistoryIndependentExactly(hash: string -> HashValue, vnodes: nat, all: set<NodeName>)
    ensures NoCollision(hash, vnodes, all) <==>
            forall start, changes, end :: Leads(all, start, changes, end)
                                          ==> SameRing(hash, vnodes, start, changes, end)
  {
    if NoCollision(hash, vnodes, all) {
      forall start, changes, end | Leads(all, start, changes, end)
        ensures SameRing(hash, vnodes, start, changes, end)
      {
        HistoryDoesNotMatter(hash, vnodes, all, start, changes, end);
      }
    } else {
      var m, n :| m in all && n in all && m != n && !(Points(hash, vnodes, m) !! Points(hash, vnodes, n));
      var p :| p in Points(hash, vnodes, m) && p in Points(hash, vnodes, n);
      CollisionShows(hash, vnodes, m, n, p);
      assert Elements([m, n]) == {m, n} == Elements([n, m]);
      assert Leads(all, [m, n], [], [n, m]);
    }
  }

  lemma AheadOrWrapped(h: HashValue, k: HashValue, x: HashValue, wrapped: bool)
    requires h <= k && if wrapped then x < h else k <= x
    ensures Distance(h, k) <= Distance(h, x)
  {
  }

  /** The first sorted key that is not less than `h` is the nearest. */
  lemma FirstAtOrAfter(keys: set<HashValue>, h: HashValue, i: nat)
    requires i < |Sorted(keys)| && h <= Sorted(keys)[i]
    requires forall j :: 0 <= j < i ==> Sorted(keys)[j] < h
    ensures IsNearest(keys, h, Sorted(keys)[i])
  {
    hide Sorted;
    var s := Sorted(keys);
    assert s[i] in keys;
    forall x | x in keys ensures Distance(h, s[i]) <= Distance(h, x) {
      var j :| 0 <= j < |s| && s[j] == x;
      AheadOrWrapped(h, s[i], x, j < i);
    }
  }

  /** If all keys are less than `h`, the first one is the nearest. */
  lemma WrapAround(keys: set<HashValue>, h: HashValue)
    requires Sorted(keys) != [] && forall j :: 0 <= j < |Sorted(keys)| ==> Sorted(keys)[j] < h
    ensures IsNearest(keys, h, Sorted(keys)[0])
  {
    var s := Sorted(keys);
    assert s[0] in keys;
    forall x | x in keys ensures Distance(h, s[0]) <= Distance(h, x) {
      var j :| 0 <= j < |s| && s[j] == x;
    }
  }

  // ---- the ring as the program has it ---------------------------------------

  class ConsistentHashRing {
    const hash: string -> HashValue
    const virtualNodes: nat
    var ring: Ring
    var sortedKeys: seq<HashValue>

    ghost predicate Valid()
      reads this
    {
      sortedKeys == Sorted(ring.Keys)
    }

    constructor (hash: string -> HashValue, nodes: seq<NodeName>, virtualNodes: nat)
      ensures Valid() && this.hash == hash && this.virtualNodes == virtualNodes
      ensures ring == Build(hash, virtualNodes, nodes)
    {
      this.hash, this.virtualNodes := hash, virtualNodes;
      ring, sortedKeys := map[], [];
      new;
      BuildRing(nodes);
    }

    method BuildRing(nodes: seq<NodeName>)
      modifies this
      ensures Valid() && ring == Build(hash, virtualNodes, nodes)
    {
      ring := map[];
      sortedKeys := [];
      for j := 0 to |nodes|
        invariant ring == Build(hash, virtualNodes, nodes[..j])
      {
        ClaimPoints(nodes[j]);
        assert nodes[..j + 1][..j] == nodes[..j];
      }
      assert nodes[..|nodes|] == nodes;
      sortedKeys := Sorted(ring.Keys);
    }

    /** The loop over a node's virtual nodes. */
    method ClaimPoints(node: NodeName)
      modifies this`ring
      ensures ring == Add(hash, virtualNodes, old(ring), node)
    {
      for i := 0 to virtualNodes
        invariant ring == Claim(old(ring), Points(hash, i, node), node)
      {
        var key := hash(Label(node, i));
        OneMorePoint(hash, i, node);
        ClaimOneMore(old(ring), Points(hash, i, node), key, node);
        ring := ring[key := node];
      }
    }

    method AddNode(node: NodeName)
      modifies this
      ensures Valid() && ring == Add(hash, virtualNodes, old(ring), node)
    {
      ClaimPoints(node);
      sortedKeys := Sorted(ring.Keys);
    }

    method RemoveNode(node: NodeName)
      modifies this
      ensures Valid() && ring == Remove(old(ring), node)
    {
      ring := map p | p in ring && ring[p] != node :: ring[p];
      sortedKeys := Sorted(ring.Keys);
    }

    /** The scan with wrap-around finds the nearest point clockwise. */
    method GetNode(key: string) returns (node: Option<NodeName>)
      requires Valid()
      ensures node == None <==> ring == map[]
      ensures node.Some? ==> Owns(ring, hash(key), node.value)
    {
      if sortedKeys == [] {
        return None;
      }
      var h := hash(key);
      for i := 0 to |sortedKeys|
        invariant forall j :: 0 <= j < i ==> sortedKeys[j] < h
      {
        var k := sortedKeys[i];
        if h <= k {
          FirstAtOrAfter(ring.Keys, h, i);
          return Some(ring[k]);
        }
      }
      WrapAround(ring.Keys, h);
      return Some(ring[sortedKeys[0]]);
    }
  }
}
