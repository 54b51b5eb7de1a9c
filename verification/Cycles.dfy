/** When adding or replacing edges closes a cycle. */
module Cycles {
  import opened Digraph

  /** A walk that leaves `v` leaves it for the last time somewhere. */
  lemma {:induction false} LastVisit<V(!new)>(edges: set<(V, V)>, fewer: set<(V, V)>, v: V, p: seq<V>)
    requires IsWalk(edges, p) && |p| >= 2 && p[0] == v && p[|p| - 1] != v
    requires fewer <= edges && forall e :: e in edges - fewer ==> e.1 == v
    ensures Reaches(fewer, v, p[|p| - 1])
    decreases |p|
  {
    if k :| 0 < k < |p| && p[k] == v {
      var q := p[k..];
      assert IsWalk(edges, q);
      LastVisit(edges, fewer, v, q);
    } else {
      forall i | 0 <= i < |p| - 1
        ensures (p[i], p[i + 1]) in fewer
      {
        assert (p[i], p[i + 1]) in edges;
        assert (p[i], p[i + 1]).1 == p[i + 1];
      }
      assert IsWalk(fewer, p);
    }
  }

  lemma ClosedWalk<V(!new)>(edges: set<(V, V)>, p: seq<V>)
    requires |p| >= 2 && p[0] == p[|p| - 1] && forall i :: 0 <= i < |p| - 1 ==> (p[i], p[i + 1]) in edges
    ensures !Acyclic(edges)
  {
    assert IsWalk(edges, p);
    assert Reaches(edges, p[0], p[0]);
  }

  /** A cycle through a new edge is a way back from its end to its start. */
  lemma {:induction false} CycleUsesEdge<V(!new)>(edges: set<(V, V)>, u: V, v: V, p: seq<V>)
    requires Acyclic(edges) && u != v
    requires IsWalk(edges + {(u, v)}, p) && |p| >= 2 && p[0] == p[|p| - 1]
    ensures Reaches(edges, v, u)
  {
    if forall i :: 0 <= i < |p| - 1 ==> (p[i], p[i + 1]) in edges {
      ClosedWalk(edges, p);
      assert false;
    } else {
      var k :| 0 <= k < |p| - 1 && (p[k], p[k + 1]) !in edges;
      var around := p[k + 1..] + p[1..k + 1];
      RotateWalk(edges + {(u, v)}, p, k + 1);
      AvoidEdge(edges, u, v, around);
    }
  }

  /** A closed walk may be started at any of its nodes. */
  lemma RotateWalk<V(!new)>(edges: set<(V, V)>, p: seq<V>, k: nat)
    requires IsWalk(edges, p) && |p| >= 2 && p[0] == p[|p| - 1] && 1 <= k < |p|
    ensures IsWalk(edges, p[k..] + p[1..k])
    ensures (p[k..] + p[1..k])[|p| - 2] == p[k - 1]
  {
    var q := p[k..] + p[1..k];
    var m := |p| - k;
    forall i | 0 <= i < |q| - 1
      ensures (q[i], q[i + 1]) in edges
    {
      if i < m - 1 {
        assert q[i] == p[k + i] && q[i + 1] == p[k + i + 1];
      } else {
        assert q[i] == p[i - m + 1] && q[i + 1] == p[i - m + 2];
      }
    }
  }

  /** From the new edge's end to its start there is a way that does not use the new edge. */
  lemma {:induction false} AvoidEdge<V(!new)>(edges: set<(V, V)>, u: V, v: V, p: seq<V>)
    requires u != v && IsWalk(edges + {(u, v)}, p) && p[0] == v && p[|p| - 1] == u
    ensures Reaches(edges, v, u)
  {
    LastVisit(edges + {(u, v)}, edges, v, p);
  }

  /**
    Replacing the edges `edges - rest` into `v` by one edge from `u` closes a cycle exactly when `v`
    led to `u` before.
  */
  lemma ReplaceExact<V(!new)>(edges: set<(V, V)>, rest: set<(V, V)>, u: V, v: V)
    requires Acyclic(edges) && u != v
    requires rest <= edges && forall e :: e in edges - rest ==> e.1 == v
    ensures Acyclic(rest + {(u, v)}) <==> !Reaches(edges, v, u)
  {
    var new_ := rest + {(u, v)};
    if Reaches(edges, v, u) {
      var p :| IsWalk(edges, p) && |p| >= 2 && p[0] == v && p[|p| - 1] == u;
      LastVisit(edges, rest, v, p);
      ReachesMonotone(rest, new_, v, u);
      EdgeReaches(new_, u, v);
      ReachesTransitive(new_, v, u, v);
    } else {
      forall w | Reaches(new_, w, w)
        ensures false
      {
        var p :| IsWalk(new_, p) && |p| >= 2 && p[0] == w && p[|p| - 1] == w;
        FewerEdgesAcyclic(edges, rest);
        CycleUsesEdge(rest, u, v, p);
        ReachesMonotone(rest, edges, v, u);
      }
    }
  }

  lemma FewerEdgesAcyclic<V(!new)>(edges: set<(V, V)>, fewer: set<(V, V)>)
    requires Acyclic(edges) && fewer <= edges
    ensures Acyclic(fewer)
  {
    forall v | Reaches(fewer, v, v)
      ensures false
    {
      ReachesMonotone(fewer, edges, v, v);
    }
  }

  lemma ReachesOn<V(!new)>(edges: set<(V, V)>, u: V, v: V, w: V)
    requires Reaches(edges, u, v) && (v == w || Reaches(edges, v, w))
    ensures Reaches(edges, u, w)
  {
    if v != w { ReachesTransitive(edges, u, v, w); }
  }

  lemma NoEdges<V(!new)>(edges: set<(V, V)>, v: V)
    requires edges == {}
    ensures !Reaches(edges, v, v)
  {
    if Reaches(edges, v, v) {
      var w := ReachesLast(edges, v, v);
    }
  }

  // ---- edges from one node -------------------------------------------------------------------

  function Star<V>(hub: V, targets: set<V>): set<(V, V)> {
    set t | t in targets :: (hub, t)
  }

  /** A way from a target to the hub ends with a way that uses none of the new edges. */
  lemma {:induction false} WayBack<V(!new)>(edges: set<(V, V)>, hub: V, targets: set<V>, p: seq<V>) returns (t: V)
    requires IsWalk(edges + Star(hub, targets), p) && p[0] in targets && p[|p| - 1] == hub
    ensures t in targets && (t == hub || Reaches(edges, t, hub))
    decreases |p|
  {
    if k :| 0 <= k < |p| - 1 && (p[k], p[k + 1]) !in edges {
      assert (p[k], p[k + 1]) in Star(hub, targets);
      var q := p[k + 1..];
      assert IsWalk(edges + Star(hub, targets), q);
      t := WayBack(edges, hub, targets, q);
    } else {
      t := p[0];
      assert IsWalk(edges, p);
    }
  }

  /** Edges from a hub close a cycle exactly when some target is the hub or leads to it. */
  lemma StarExact<V(!new)>(edges: set<(V, V)>, hub: V, targets: set<V>)
    ensures Acyclic(edges + Star(hub, targets)) <==>
      Acyclic(edges) && forall t :: t in targets ==> t != hub && !Reaches(edges, t, hub)
  {
    var more := edges + Star(hub, targets);
    if Acyclic(more) {
      FewerEdgesAcyclic(more, edges);
      forall t | t in targets
        ensures t != hub && !Reaches(edges, t, hub)
      {
        EdgeReaches(more, hub, t);
        if Reaches(edges, t, hub) {
          ReachesMonotone(edges, more, t, hub);
          ReachesTransitive(more, hub, t, hub);
        }
      }
    }
    if Acyclic(edges) && forall t :: t in targets ==> t != hub && !Reaches(edges, t, hub) {
      forall v | Reaches(more, v, v)
        ensures false
      {
        var p :| IsWalk(more, p) && |p| >= 2 && p[0] == v && p[|p| - 1] == v;
        CycleFindsWayBack(edges, hub, targets, p);
      }
    }
  }

  lemma CycleFindsWayBack<V(!new)>(edges: set<(V, V)>, hub: V, targets: set<V>, p: seq<V>)
    requires IsWalk(edges + Star(hub, targets), p) && |p| >= 2 && p[0] == p[|p| - 1]
    ensures !Acyclic(edges) || exists t :: t in targets && (t == hub || Reaches(edges, t, hub))
  {
    if k :| 0 <= k < |p| - 1 && (p[k], p[k + 1]) !in edges {
      assert (p[k], p[k + 1]) in Star(hub, targets);
      RotateWalk(edges + Star(hub, targets), p, k + 1);
      var t := WayBack(edges, hub, targets, p[k + 1..] + p[1..k + 1]);
    } else {
      ClosedWalk(edges, p);
    }
  }
}
