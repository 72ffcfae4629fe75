/** Walks in a finite graph of named nodes, and what a breadth-first exploration knows of them. */
module Walks {
  import opened Text

  type Link = (string, string)

  ghost predicate Walk(g: set<Link>, a: string, b: string, p: seq<string>) {
    && |p| >= 1 && p[0] == a && p[|p| - 1] == b
    && forall i :: 0 <= i < |p| - 1 ==> (p[i], p[i + 1]) in g
  }

  /** `b` is reachable from `a` in at most `k` hops. */
  ghost predicate Within(g: set<Link>, a: string, b: string, k: int) {
    exists p :: Walk(g, a, b, p) && |p| - 1 <= k
  }

  /** `d` hops lead from `a` to `b`, and fewer do not. */
  ghost predicate Distance(g: set<Link>, a: string, b: string, d: nat) {
    Within(g, a, b, d) && !Within(g, a, b, d - 1)
  }

  lemma WalkStart(g: set<Link>, a: string)
    ensures Walk(g, a, a, [a])
    ensures Distance(g, a, a, 0)
  {
    assert Walk(g, a, a, [a]) && |[a]| - 1 <= 0;
  }

  lemma WalkStep(g: set<Link>, a: string, b: string, c: string, p: seq<string>)
    requires Walk(g, a, b, p) && (b, c) in g
    ensures Walk(g, a, c, p + [c])
  {
  }

  lemma DistanceUnique(g: set<Link>, a: string, b: string, d: nat, e: nat)
    requires Distance(g, a, b, d) && Distance(g, a, b, e)
    ensures d == e
  {
    if d < e {
      WithinMonotone(g, a, b, d, e - 1);
    } else if e < d {
      WithinMonotone(g, a, b, e, d - 1);
    }
  }

  lemma WithinMonotone(g: set<Link>, a: string, b: string, k: int, m: int)
    requires k <= m
    ensures Within(g, a, b, k) ==> Within(g, a, b, m)
  {
  }

  function Reversed(p: seq<string>): seq<string> {
    seq(|p|, i requires 0 <= i < |p| => p[|p| - 1 - i])
  }

  ghost predicate Symmetric(g: set<Link>) {
    forall a, b :: (a, b) in g ==> (b, a) in g
  }

  /** In an undirected graph a walk can be walked back. */
  lemma WithinSymmetric(g: set<Link>, a: string, b: string, k: int)
    requires Symmetric(g) && Within(g, a, b, k)
    ensures Within(g, b, a, k)
  {
    var p :| Walk(g, a, b, p) && |p| - 1 <= k;
    var r := Reversed(p);
    forall i | 0 <= i < |r| - 1 ensures (r[i], r[i + 1]) in g {
      var j := |p| - 2 - i;
      assert (p[j], p[j + 1]) in g;
    }
    assert Walk(g, b, a, r);
  }

  lemma WalkBoundsDistance(g: set<Link>, a: string, b: string, d: nat, p: seq<string>)
    requires Distance(g, a, b, d) && Walk(g, a, b, p)
    ensures d <= |p| - 1
  {
    assert Within(g, a, b, |p| - 1);
    if |p| - 1 < d {
      WithinMonotone(g, a, b, |p| - 1, d - 1);
    }
  }

  lemma ShortestWalk(g: set<Link>, a: string, b: string, d: nat)
    requires Distance(g, a, b, d)
    ensures forall p :: Walk(g, a, b, p) ==> d + 1 <= |p|
  {
    forall p | Walk(g, a, b, p) ensures d + 1 <= |p| {
      WalkBoundsDistance(g, a, b, d, p);
    }
  }

  // ----- breadth-first exploration -----

  /** A node met by a search, and its distance from the root. */
  datatype Found = Found(id: string, level: nat)

  ghost predicate Sorted(order: seq<Found>) {
    forall i, j :: 0 <= i <= j < |order| ==> order[i].level <= order[j].level
  }

  ghost predicate Distinct(order: seq<Found>) {
    forall i, j :: 0 <= i < j < |order| ==> order[i].id != order[j].id
  }

  /** Everything met so far, in the order it was met: the root first, each node once, by distance. */
  ghost predicate Discovered(g: set<Link>, root: string, order: seq<Found>, visited: set<string>) {
    && |order| >= 1 && order[0] == Found(root, 0)
    && Sorted(order) && Distinct(order)
    && (forall i :: 0 <= i < |order| ==> order[i].id in visited && Distance(g, root, order[i].id, order[i].level))
    && (forall v :: v in visited ==> exists i :: 0 <= i < |order| && order[i].id == v)
  }

  /** Nodes at the depth limit, if there is one, are not expanded. */
  ghost predicate Below(level: nat, limit: Option<int>) {
    limit.None? || level < limit.value
  }

  /** The links out of the first `head` nodes lead to nodes already met. */
  ghost predicate Closed(g: set<Link>, order: seq<Found>, head: nat, limit: Option<int>, visited: set<string>) {
    head <= |order| &&
    forall i, v :: 0 <= i < head && Below(order[i].level, limit) && (order[i].id, v) in g ==> v in visited
  }

  lemma StartSearch(g: set<Link>, root: string, limit: Option<int>)
    ensures Discovered(g, root, [Found(root, 0)], {root})
    ensures Closed(g, [Found(root, 0)], 0, limit, {root})
  {
    WalkStart(g, root);
    assert [Found(root, 0)][0].id == root;
  }

  lemma Discover(g: set<Link>, root: string, order: seq<Found>, visited: set<string>, v: string, level: nat)
    requires Discovered(g, root, order, visited) && v !in visited && Distance(g, root, v, level)
    requires order[|order| - 1].level <= level
    ensures Discovered(g, root, order + [Found(v, level)], visited + {v})
  {
    hide Distance;
    var more := order + [Found(v, level)];
    assert more[|order|].id == v;
    forall u | u in visited ensures exists i :: 0 <= i < |more| && more[i].id == u {
      var i :| 0 <= i < |order| && order[i].id == u;
      assert more[i].id == u;
    }
  }

  /** If the nodes from `head` on are at least `level` hops away, and the depth limit is no lower,
      then every walk of up to `level` hops ends in a node already met. */
  lemma {:induction false} LevelMet(g: set<Link>, root: string, order: seq<Found>, visited: set<string>,
                                    head: nat, limit: Option<int>, level: int, x: string, p: seq<string>)
    requires Discovered(g, root, order, visited) && Closed(g, order, head, limit, visited)
    requires forall i :: head <= i < |order| ==> order[i].level >= level
    requires limit.Some? ==> level <= limit.value
    requires Walk(g, root, x, p) && |p| - 1 <= level
    ensures x in visited
    decreases |p|
  {
    if |p| == 1 {
      assert order[0].id in visited;
    } else {
      var q, y := p[..|p| - 1], p[|p| - 2];
      assert Walk(g, root, y, q);
      LevelMet(g, root, order, visited, head, limit, level, y, q);
      var i :| 0 <= i < |order| && order[i].id == y;
      WalkBoundsDistance(g, root, y, order[i].level, q);
      assert (p[|p| - 2], p[|p| - 2 + 1]) in g;
      assert i < head && Below(order[i].level, limit);
    }
  }

  /** A node first met across a link out of the node at `head` is one level further. */
  lemma NextLevel(g: set<Link>, root: string, order: seq<Found>, visited: set<string>,
                  head: nat, limit: Option<int>, v: string)
    requires Discovered(g, root, order, visited) && Closed(g, order, head, limit, visited)
    requires head < |order| && Below(order[head].level, limit)
    requires (order[head].id, v) in g && v !in visited
    ensures Distance(g, root, v, order[head].level + 1)
  {
    var u, d := order[head].id, order[head].level;
    var p :| Walk(g, root, u, p) && |p| - 1 <= d;
    WalkStep(g, root, u, v, p);
    assert Within(g, root, v, d + 1);
    if Within(g, root, v, d) {
      var q :| Walk(g, root, v, q) && |q| - 1 <= d;
      LevelMet(g, root, order, visited, head, limit, d, v, q);
    }
  }

  /** One more node is expanded when all its links lead to nodes met, or when it is at the limit. */
  lemma Advance(g: set<Link>, before: seq<Found>, order: seq<Found>, head: nat, limit: Option<int>,
                seen: set<string>, visited: set<string>)
    requires Closed(g, before, head, limit, seen) && before <= order && seen <= visited && head < |before|
    requires Below(order[head].level, limit) ==> forall v :: (order[head].id, v) in g ==> v in visited
    ensures Closed(g, order, head + 1, limit, visited)
  {
    assert forall i :: 0 <= i < head ==> order[i] == before[i];
  }

  /** When nothing is left to expand, the nodes met are those within the limit. */
  lemma AllMet(g: set<Link>, root: string, order: seq<Found>, visited: set<string>, limit: Option<int>, x: string)
    requires Discovered(g, root, order, visited) && Closed(g, order, |order|, limit, visited)
    ensures limit.None? ==> forall p :: Walk(g, root, x, p) ==> x in visited
    ensures limit.Some? && Within(g, root, x, limit.value) ==> x in visited
  {
    if limit.None? {
      forall p | Walk(g, root, x, p) ensures x in visited {
        LevelMet(g, root, order, visited, |order|, limit, |p| - 1, x, p);
      }
    } else if Within(g, root, x, limit.value) {
      var p :| Walk(g, root, x, p) && |p| - 1 <= limit.value;
      LevelMet(g, root, order, visited, |order|, limit, limit.value, x, p);
    }
  }
}
