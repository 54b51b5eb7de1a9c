/**
  Finite directed graphs given by their edge sets: non-empty paths, acyclicity, and the rank an
  acyclic graph gives its nodes. Every other module that speaks of task or component graphs uses
  these definitions.
*/
module Digraph {

  /** `p` walks along edges; a single node is a (trivial) walk. */
  ghost predicate IsWalk<V(!new)>(edges: set<(V, V)>, p: seq<V>) {
    && p != []
    && forall i :: 0 <= i < |p| - 1 ==> (p[i], p[i + 1]) in edges
  }

  /** A walk with at least one edge leads from `u` to `v`. */
  ghost predicate Reaches<V(!new)>(edges: set<(V, V)>, u: V, v: V) {
    exists p :: IsWalk(edges, p) && |p| >= 2 && p[0] == u && p[|p| - 1] == v
  }

  ghost predicate Acyclic<V(!new)>(edges: set<(V, V)>) {
    forall v :: !Reaches(edges, v, v)
  }

  /** Both ends of every edge are nodes. */
  predicate Closed<V>(nodes: set<V>, edges: set<(V, V)>) {
    forall e :: e in edges ==> e.0 in nodes && e.1 in nodes
  }

  /** The number of nodes that lead to `v`. */
  ghost function Rank<V(!new)>(nodes: set<V>, edges: set<(V, V)>, v: V): nat {
    |set u | u in nodes && Reaches(edges, u, v)|
  }

  lemma EdgeReaches<V(!new)>(edges: set<(V, V)>, u: V, v: V)
    requires (u, v) in edges
    ensures Reaches(edges, u, v)
  {
    var p := [u, v];
    assert IsWalk(edges, p) && p[0] == u && p[|p| - 1] == v;
  }

  lemma ReachesTransitive<V(!new)>(edges: set<(V, V)>, u: V, v: V, w: V)
    requires Reaches(edges, u, v) && Reaches(edges, v, w)
    ensures Reaches(edges, u, w)
  {
    var p :| IsWalk(edges, p) && |p| >= 2 && p[0] == u && p[|p| - 1] == v;
    var q :| IsWalk(edges, q) && |q| >= 2 && q[0] == v && q[|q| - 1] == w;
    var r := p + q[1..];
    forall i | 0 <= i < |r| - 1
      ensures (r[i], r[i + 1]) in edges
    {
      if i == |p| - 1 {
        assert r[i] == q[0] && r[i + 1] == q[1];
      } else if i >= |p| {
        assert r[i] == q[i - |p| + 1] && r[i + 1] == q[i - |p| + 2];
      }
    }
    assert IsWalk(edges, r) && r[0] == u && r[|r| - 1] == w;
  }

  /** The last edge of a walk: its start either is the edge's source or reaches it. */
  lemma ReachesLast<V(!new)>(edges: set<(V, V)>, u: V, v: V) returns (w: V)
    requires Reaches(edges, u, v)
    ensures (w, v) in edges && (w == u || Reaches(edges, u, w))
  {
    var p :| IsWalk(edges, p) && |p| >= 2 && p[0] == u && p[|p| - 1] == v;
    w := p[|p| - 2];
    if |p| > 2 {
      var q := p[..|p| - 1];
      assert IsWalk(edges, q) && q[0] == u && q[|q| - 1] == w;
    }
  }

  /** The first edge of a walk: its target either is the walk's end or reaches it. */
  lemma ReachesFirst<V(!new)>(edges: set<(V, V)>, u: V, v: V) returns (w: V)
    requires Reaches(edges, u, v)
    ensures (u, w) in edges && (w == v || Reaches(edges, w, v))
  {
    var p :| IsWalk(edges, p) && |p| >= 2 && p[0] == u && p[|p| - 1] == v;
    w := p[1];
    if |p| > 2 {
      var q := p[1..];
      assert IsWalk(edges, q) && q[0] == w && q[|q| - 1] == v;
    }
  }

  lemma ReachesMonotone<V(!new)>(edges: set<(V, V)>, more: set<(V, V)>, u: V, v: V)
    requires edges <= more && Reaches(edges, u, v)
    ensures Reaches(more, u, v)
  {
    var p :| IsWalk(edges, p) && |p| >= 2 && p[0] == u && p[|p| - 1] == v;
    assert IsWalk(more, p);
  }

  /** Acyclic graphs are ranked: every edge leads to a node with strictly more ancestors. */
  lemma RankIncreases<V(!new)>(nodes: set<V>, edges: set<(V, V)>, u: V, v: V)
    requires Acyclic(edges) && Closed(nodes, edges) && (u, v) in edges
    ensures Rank(nodes, edges, u) < Rank(nodes, edges, v)
  {
    var before := set w | w in nodes && Reaches(edges, w, u);
    var after := set w | w in nodes && Reaches(edges, w, v);
    EdgeReaches(edges, u, v);
    forall w | w in before
      ensures w in after
    {
      ReachesTransitive(edges, w, u, v);
    }
    assert u in after && u !in before;
    StrictSubsetSmaller(before, after);
  }

  /** The number of nodes that `v` leads to. */
  ghost function Height<V(!new)>(nodes: set<V>, edges: set<(V, V)>, v: V): nat {
    |set u | u in nodes && Reaches(edges, v, u)|
  }

  lemma HeightDecreases<V(!new)>(nodes: set<V>, edges: set<(V, V)>, u: V, v: V)
    requires Acyclic(edges) && Closed(nodes, edges) && (u, v) in edges
    ensures Height(nodes, edges, u) > Height(nodes, edges, v)
  {
    var fromU := set w | w in nodes && Reaches(edges, u, w);
    var fromV := set w | w in nodes && Reaches(edges, v, w);
    EdgeReaches(edges, u, v);
    forall w | w in fromV
      ensures w in fromU
    {
      ReachesTransitive(edges, u, v, w);
    }
    assert v in fromU && v !in fromV;
    StrictSubsetSmaller(fromV, fromU);
  }

  /** Some member of a non-empty set has no predecessor in the set. */
  lemma {:induction false} FirstOf<V(!new)>(nodes: set<V>, edges: set<(V, V)>, some: set<V>, start: V) returns (m: V)
    requires Acyclic(edges) && Closed(nodes, edges) && start in some
    ensures m in some && forall e :: e in edges && e.1 == m ==> e.0 !in some
    decreases Rank(nodes, edges, start)
  {
    if e :| e in edges && e.1 == start && e.0 in some {
      RankIncreases(nodes, edges, e.0, start);
      m := FirstOf(nodes, edges, some, e.0);
    } else {
      m := start;
    }
  }

  lemma StrictSubsetSmaller<V(!new)>(a: set<V>, b: set<V>)
    requires a < b
    ensures |a| < |b|
  {
    assert |b| == |a| + |b - a| by { assert b == a + (b - a) && a !! (b - a); }
    assert b - a != {};
  }

  /** Any pair of numberings that grows lexicographically along every edge rules out cycles. */
  lemma LexicographicAcyclic<V(!new)>(edges: set<(V, V)>, major: V -> int, minor: V -> int)
    requires forall e :: e in edges ==> Before(e.0, e.1, major, minor)
    ensures Acyclic(edges)
  {
    forall v | Reaches(edges, v, v)
      ensures false
    {
      var p :| IsWalk(edges, p) && |p| >= 2 && p[0] == v && p[|p| - 1] == v;
      WalkAscends(edges, major, minor, p);
    }
  }

  ghost predicate Before<V(!new)>(u: V, v: V, major: V -> int, minor: V -> int) {
    major(u) < major(v) || (major(u) == major(v) && minor(u) < minor(v))
  }

  lemma {:induction false} WalkAscends<V(!new)>(edges: set<(V, V)>, major: V -> int, minor: V -> int, p: seq<V>)
    requires forall e :: e in edges ==> Before(e.0, e.1, major, minor)
    requires IsWalk(edges, p) && |p| >= 2
    ensures Before(p[0], p[|p| - 1], major, minor)
  {
    var q := p[..|p| - 1];
    assert (p[|p| - 2], p[|p| - 1]) in edges;
    assert Before((p[|p| - 2], p[|p| - 1]).0, (p[|p| - 2], p[|p| - 1]).1, major, minor);
    if |p| > 2 {
      WalkAscends(edges, major, minor, q);
    }
  }
}
