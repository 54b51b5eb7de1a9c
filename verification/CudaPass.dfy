/**
  The pass that gathers GPU components into groups. It adds a task for every group, after all its
  members and before everything that a member leads to outside the group; the members' own edges
  stay. What it leaves is acyclic exactly when the graph was and stays so with each group contracted.
*/
module CudaPass {
  import opened Digraph
  import opened Cycles
  import opened TaskGraphs

  /** Two tasks of one group. */
  predicate SameGroup(groups: map<string, string>, a: string, b: string) {
    a in groups && b in groups && groups[a] == groups[b]
  }

  /** Group names are not task names. */
  predicate NamesApart(ids: set<string>, groups: map<string, string>) {
    groups.Keys <= ids && forall m :: m in groups ==> groups[m] !in ids
  }

  /** The edges that one member brings its group's task. */
  function GroupEdges(edges: set<(string, string)>, groups: map<string, string>, m: string): set<(string, string)> {
    if m in groups then
      {(m, groups[m])} + set e | e in edges && e.0 == m && !SameGroup(groups, m, e.1) :: (groups[m], e.1)
    else {}
  }

  function Rewritten(edges: set<(string, string)>, groups: map<string, string>): set<(string, string)> {
    edges + set m, e | m in groups && e in GroupEdges(edges, groups, m) :: e
  }

  function Contract(groups: map<string, string>, v: string): string {
    if v in groups then groups[v] else v
  }

  function Contracted(edges: set<(string, string)>, groups: map<string, string>): set<(string, string)> {
    set e | e in edges && Contract(groups, e.0) != Contract(groups, e.1)
      :: (Contract(groups, e.0), Contract(groups, e.1))
  }

  // ---- order ---------------------------------------------------------------------------------

  /** The group's task runs after each member and before each of its successors outside the group. */
  lemma GroupRunsBetween(edges: set<(string, string)>, groups: map<string, string>, m: string, s: string)
    requires m in groups
    ensures (m, groups[m]) in Rewritten(edges, groups)
    ensures (m, s) in edges && !SameGroup(groups, m, s) ==> (groups[m], s) in Rewritten(edges, groups)
  {
    assert (m, groups[m]) in GroupEdges(edges, groups, m);
    if (m, s) in edges && !SameGroup(groups, m, s) {
      assert (groups[m], s) in GroupEdges(edges, groups, m);
    }
  }

  /** Every new edge is one of these two kinds. */
  lemma NewEdgeKinds(edges: set<(string, string)>, groups: map<string, string>, e: (string, string)) returns (m: string)
    requires e in Rewritten(edges, groups) && e !in edges
    ensures m in groups
    ensures e == (m, groups[m]) || (e.0 == groups[m] && (m, e.1) in edges && !SameGroup(groups, m, e.1))
  {
    m :| m in groups && e in GroupEdges(edges, groups, m);
    if e != (m, groups[m]) {
      var f :| f in edges && f.0 == m && !SameGroup(groups, m, f.1) && e == (groups[m], f.1);
      assert f == (m, e.1);
    }
  }

  // ---- acyclicity ----------------------------------------------------------------------------

  lemma ContractEdge(edges: set<(string, string)>, groups: map<string, string>, u: string, v: string)
    requires (u, v) in edges && Contract(groups, u) != Contract(groups, v)
    ensures (Contract(groups, u), Contract(groups, v)) in Contracted(edges, groups)
  {
    assert (u, v).0 == u && (u, v).1 == v;
  }

  /** Ranks of the contracted graph first, then of the original one, with the group's task last. */
  lemma RewrittenAcyclic(ids: set<string>, edges: set<(string, string)>, groups: map<string, string>)
    requires NamesApart(ids, groups) && Closed(ids, edges)
    requires Acyclic(edges) && Acyclic(Contracted(edges, groups))
    ensures Acyclic(Rewritten(edges, groups))
  {
    var all := ids + groups.Values;
    var contracted := Contracted(edges, groups);
    var major := (v: string) => Rank(all, contracted, Contract(groups, v));
    var minor := (v: string) => if v in ids then Rank(ids, edges, v) else |ids| + 1;
    forall e | e in Rewritten(edges, groups)
      ensures Before(e.0, e.1, major, minor)
    {
      if e in edges {
        EdgeAscends(ids, edges, groups, e.0, e.1);
      } else {
        var m := NewEdgeKinds(edges, groups, e);
        if e == (m, groups[m]) {
          RankBounded(ids, edges, m);
          GroupIsNoMember(ids, groups, m);
        } else {
          GroupIsNoMember(ids, groups, m);
          EdgeAscends(ids, edges, groups, m, e.1);
        }
      }
    }
    LexicographicAcyclic(Rewritten(edges, groups), major, minor);
  }

  lemma GroupIsNoMember(ids: set<string>, groups: map<string, string>, m: string)
    requires NamesApart(ids, groups) && m in groups
    ensures groups[m] !in groups && groups[m] !in ids
  {
  }

  lemma RankBounded(ids: set<string>, edges: set<(string, string)>, v: string)
    ensures Rank(ids, edges, v) <= |ids|
  {
    var before := set u | u in ids && Reaches(edges, u, v);
    assert before <= ids;
    if before != ids { StrictSubsetSmaller(before, ids); }
  }

  /** An original edge stays in its group and grows the original rank, or grows the contracted one. */
  lemma EdgeAscends(ids: set<string>, edges: set<(string, string)>, groups: map<string, string>, u: string, v: string)
    requires NamesApart(ids, groups) && Closed(ids, edges) && (u, v) in edges
    requires Acyclic(edges) && Acyclic(Contracted(edges, groups))
    ensures var all, contracted := ids + groups.Values, Contracted(edges, groups);
      if Contract(groups, u) == Contract(groups, v) then Rank(ids, edges, u) < Rank(ids, edges, v)
      else Rank(all, contracted, Contract(groups, u)) < Rank(all, contracted, Contract(groups, v))
  {
    if Contract(groups, u) == Contract(groups, v) {
      RankIncreases(ids, edges, u, v);
    } else {
      ContractEdge(edges, groups, u, v);
      ContractedClosed(ids, edges, groups);
      RankIncreases(ids + groups.Values, Contracted(edges, groups), Contract(groups, u), Contract(groups, v));
    }
  }

  lemma ContractedClosed(ids: set<string>, edges: set<(string, string)>, groups: map<string, string>)
    requires Closed(ids, edges)
    ensures Closed(ids + groups.Values, Contracted(edges, groups))
  {
    forall e | e in Contracted(edges, groups)
      ensures e.0 in ids + groups.Values && e.1 in ids + groups.Values
    {
      var f :| f in edges && e == (Contract(groups, f.0), Contract(groups, f.1));
    }
  }

  /** A contracted edge is a way in the rewritten graph: out of the group's task, into the next member, and on. */
  lemma ContractedEdgeReaches(edges: set<(string, string)>, groups: map<string, string>, e: (string, string))
    requires e in Contracted(edges, groups)
    ensures Reaches(Rewritten(edges, groups), e.0, e.1)
  {
    var f :| f in edges && Contract(groups, f.0) != Contract(groups, f.1)
             && e == (Contract(groups, f.0), Contract(groups, f.1));
    var more := Rewritten(edges, groups);
    assert f == (f.0, f.1);
    if f.0 in groups { GroupRunsBetween(edges, groups, f.0, f.1); }
    EdgeReaches(more, e.0, f.1);
    if f.1 in groups {
      GroupRunsBetween(edges, groups, f.1, f.1);
      EdgeReaches(more, f.1, e.1);
      ReachesTransitive(more, e.0, f.1, e.1);
    }
  }

  lemma {:induction false} ContractedWalkReaches(edges: set<(string, string)>, groups: map<string, string>, p: seq<string>)
    requires IsWalk(Contracted(edges, groups), p) && |p| >= 2
    ensures Reaches(Rewritten(edges, groups), p[0], p[|p| - 1])
  {
    var k := |p| - 1;
    ContractedEdgeReaches(edges, groups, (p[k - 1], p[k]));
    if k > 1 {
      assert IsWalk(Contracted(edges, groups), p[..k]);
      ContractedWalkReaches(edges, groups, p[..k]);
      ReachesTransitive(Rewritten(edges, groups), p[0], p[k - 1], p[k]);
    }
  }

  /** The rewritten graph is acyclic if and only if the original and the contracted ones are. */
  lemma RewrittenAcyclicExactly(ids: set<string>, edges: set<(string, string)>, groups: map<string, string>)
    requires NamesApart(ids, groups) && Closed(ids, edges)
    ensures Acyclic(Rewritten(edges, groups)) <==> Acyclic(edges) && Acyclic(Contracted(edges, groups))
  {
    if Acyclic(edges) && Acyclic(Contracted(edges, groups)) {
      RewrittenAcyclic(ids, edges, groups);
    }
    if Acyclic(Rewritten(edges, groups)) {
      FewerEdgesAcyclic(Rewritten(edges, groups), edges);
      forall v | Reaches(Contracted(edges, groups), v, v)
        ensures false
      {
        var p :| IsWalk(Contracted(edges, groups), p) && |p| >= 2 && p[0] == v && p[|p| - 1] == v;
        ContractedWalkReaches(edges, groups, p);
      }
    }
  }

  // ---- the pass ------------------------------------------------------------------------------

  class CudaGraphBuilder {
    /** The group of each GPU component. */
    const groups: map<string, string>
    /** The successors of each member inside its own group. */
    var internalSuccessors: map<string, set<string>>

    constructor (groups: map<string, string>)
      ensures this.groups == groups && internalSuccessors == map[]
    {
      this.groups := groups;
      internalSuccessors := map[];
    }

    function InternalOf(m: string): set<string>
      reads this
    {
      if m in internalSuccessors then internalSuccessors[m] else {}
    }

    method AddInternalSuccessor(m: string, successor: string)
      modifies this
      ensures InternalOf(m) == old(InternalOf(m)) + {successor}
      ensures forall x :: x != m ==> InternalOf(x) == old(InternalOf(x))
    {
      internalSuccessors := internalSuccessors[m := InternalOf(m) + {successor}];
    }

    /** One task for every group. */
    method CreateTasks(graph: TraactGraph)
      requires graph.Valid()
      modifies graph`tasks
      ensures graph.Valid() && graph.tasks.Keys == old(graph.tasks.Keys) + groups.Values
      ensures fresh(graph.tasks.Values - old(graph.tasks.Values))
    {
      var rest := groups.Values;
      ghost var done := {};
      while rest != {}
        invariant rest + done == groups.Values && graph.Valid()
        invariant graph.tasks.Keys == old(graph.tasks.Keys) + done
        invariant fresh(graph.tasks.Values - old(graph.tasks.Values))
      {
        var name :| name in rest;
        var _ := graph.AddTask(name);
        rest, done := rest - {name}, done + {name};
      }
    }

    /** Moves a member's outside successors behind its group's task, and remembers the inside ones. */
    method UpdateComponentSuccessors(graph: TraactGraph, m: string)
      requires graph.Valid() && m in groups && m in graph.tasks && groups[m] in graph.tasks
      modifies this, graph`edges, graph.tasks.Values
      ensures graph.Valid() && graph.edges == old(graph.edges) + GroupEdges(old(graph.edges), groups, m)
      ensures InternalOf(m) == old(InternalOf(m)) + InsideSuccessors(old(graph.edges), m)
      ensures forall x :: x != m ==> InternalOf(x) == old(InternalOf(x))
    {
      var all := graph.tasks[m].successors;
      ghost var before := graph.edges;
      SuccessorsOfTask(graph, m);
      SuccessorsAreEdges(before, m, all);
      UpdateSuccessors(graph, m, all);
      graph.Connect(m, groups[m]);
    }

    lemma SuccessorsOfTask(graph: TraactGraph, m: string)
      requires graph.Valid() && m in graph.tasks
      ensures graph.tasks[m].successors <= graph.tasks.Keys
      ensures forall s :: s in graph.tasks[m].successors <==> (m, s) in graph.edges
    {
      assert graph.Knows(m);
      forall s | s in graph.tasks[m].successors
        ensures s in graph.tasks
      {
        assert (m, s) in graph.edges && (m, s).1 == s;
      }
    }

    method UpdateSuccessors(graph: TraactGraph, m: string, all: set<string>)
      requires graph.Valid() && m in groups && groups[m] in graph.tasks && all <= graph.tasks.Keys
      modifies this, graph`edges, graph.tasks.Values
      ensures graph.Valid() && graph.edges == old(graph.edges) + Outside(m, all)
      ensures InternalOf(m) == old(InternalOf(m)) + Inside(m, all)
      ensures forall x :: x != m ==> InternalOf(x) == old(InternalOf(x))
    {
      ghost var before, inside, done := graph.edges, InternalOf(m), {};
      var rest := all;
      while rest != {}
        invariant rest + done == all && graph.Valid()
        invariant graph.edges == before + Outside(m, done)
        invariant InternalOf(m) == inside + Inside(m, done)
        invariant forall x :: x != m ==> InternalOf(x) == old(InternalOf(x))
      {
        var s :| s in rest;
        OneMoreSuccessor(m, done, s, before, inside);
        UpdateSuccessor(graph, m, s);
        rest, done := rest - {s}, done + {s};
      }
    }

    method UpdateSuccessor(graph: TraactGraph, m: string, s: string)
      requires graph.Valid() && m in groups && groups[m] in graph.tasks && s in graph.tasks
      modifies this, graph`edges, graph.tasks.Values
      ensures graph.Valid()
      ensures graph.edges == old(graph.edges) + if SameGroup(groups, m, s) then {} else {(groups[m], s)}
      ensures InternalOf(m) == old(InternalOf(m)) + if SameGroup(groups, m, s) then {s} else {}
      ensures forall x :: x != m ==> InternalOf(x) == old(InternalOf(x))
    {
      if s in groups && groups[s] == groups[m] {
        AddInternalSuccessor(m, s);
      } else {
        graph.Connect(groups[m], s);
      }
    }

    function Outside(m: string, successors: set<string>): set<(string, string)>
      requires m in groups
    {
      set s | s in successors && !SameGroup(groups, m, s) :: (groups[m], s)
    }

    function Inside(m: string, successors: set<string>): set<string> {
      set s | s in successors && SameGroup(groups, m, s)
    }

    ghost function InsideSuccessors(edges: set<(string, string)>, m: string): set<string> {
      set e | e in edges && e.0 == m && SameGroup(groups, m, e.1) :: e.1
    }

    lemma OneMoreSuccessor(
      m: string, done: set<string>, s: string, before: set<(string, string)>, inside: set<string>)
      requires m in groups
      ensures before + Outside(m, done + {s})
           == before + Outside(m, done) + if SameGroup(groups, m, s) then {} else {(groups[m], s)}
      ensures inside + Inside(m, done + {s}) == inside + Inside(m, done) + if SameGroup(groups, m, s) then {s} else {}
    {
    }

    lemma SuccessorsAreEdges(edges: set<(string, string)>, m: string, successors: set<string>)
      requires m in groups && forall s :: s in successors <==> (m, s) in edges
      ensures Outside(m, successors) + {(m, groups[m])} == GroupEdges(edges, groups, m)
      ensures Inside(m, successors) == InsideSuccessors(edges, m)
    {
      forall e | e in edges && e.0 == m
        ensures e.1 in successors
      {
        assert e == (m, e.1);
      }
      forall s | s in successors
        ensures (m, s) in edges && (m, s).0 == m
      {
      }
    }
  
    /** The inside successors of `done` members are remembered. */
    ghost predicate Remembers(before: set<(string, string)>, done: set<string>)
      reads this
    {
      forall m {:trigger InternalOf(m)} :: InternalOf(m) == if m in done then InsideSuccessors(before, m) else {}
    }

    ghost predicate HasMembers(graph: TraactGraph)
      reads graph`tasks
    {
      forall m :: m in groups ==> m in graph.tasks && groups[m] in graph.tasks
    }

    /** Every member in turn; the order does not matter. */
    method CreateDependencies(graph: TraactGraph, ghost ids: set<string>)
      requires graph.Valid() && NamesApart(ids, groups) && HasMembers(graph) && internalSuccessors == map[]
      modifies this, graph`edges, graph.tasks.Values
      ensures graph.Valid() && graph.edges == Rewritten(old(graph.edges), groups)
      ensures forall m :: InternalOf(m) == InsideSuccessors(old(graph.edges), m)
    {
      ghost var before, done := graph.edges, {};
      NoMembers(before);
      var rest := groups.Keys;
      while rest != {}
        invariant rest + done == groups.Keys && rest !! done && graph.Valid()
        invariant graph.edges == before + AddedBy(before, groups, done)
        invariant Remembers(before, done)
      {
        var m :| m in rest;
        UpdateMember(graph, m, ids, before, done);
        rest, done := rest - {m}, done + {m};
      }
      AllMembers(before);
    }

    method UpdateMember(
      graph: TraactGraph, m: string, ghost ids: set<string>, ghost before: set<(string, string)>, ghost done: set<string>)
      requires graph.Valid() && NamesApart(ids, groups) && HasMembers(graph)
      requires m in groups && m !in done && done <= groups.Keys
      requires graph.edges == before + AddedBy(before, groups, done)
      requires Remembers(before, done)
      modifies this, graph`edges, graph.tasks.Values
      ensures graph.Valid() && graph.edges == before + AddedBy(before, groups, done + {m})
      ensures Remembers(before, done + {m})
    {
      NotTouchedYet(ids, before, done, m);
      OneMoreMember(before, done, m);
      UpdateComponentSuccessors(graph, m);
    }

    lemma NoMembers(before: set<(string, string)>)
      ensures before + AddedBy(before, groups, {}) == before
    {
    }

    lemma AllMembers(before: set<(string, string)>)
      ensures before + AddedBy(before, groups, groups.Keys) == Rewritten(before, groups)
      ensures forall m :: m !in groups ==> InsideSuccessors(before, m) == {}
    {
    }

    /** A member's own edges are still the original ones when its turn comes. */
    lemma NotTouchedYet(ids: set<string>, before: set<(string, string)>, done: set<string>, m: string)
      requires NamesApart(ids, groups) && done <= groups.Keys && m in groups && m !in done
      ensures GroupEdges(before + AddedBy(before, groups, done), groups, m) == GroupEdges(before, groups, m)
      ensures InsideSuccessors(before + AddedBy(before, groups, done), m) == InsideSuccessors(before, m)
    {
      forall e | e in AddedBy(before, groups, done)
        ensures e.0 != m
      {
        var x :| x in done && e in GroupEdges(before, groups, x);
        GroupIsNoMember(ids, groups, x);
      }
    }

    lemma OneMoreMember(before: set<(string, string)>, done: set<string>, m: string)
      ensures before + AddedBy(before, groups, done + {m})
           == before + AddedBy(before, groups, done) + GroupEdges(before, groups, m)
    {
    }

    /** The edges inside the groups are those whose ends have the same group. */
    lemma InsideExactly(before: set<(string, string)>)
      ensures forall m, s :: s in InsideSuccessors(before, m) <==>
        (m, s) in before && m in groups && s in groups && groups[m] == groups[s]
    {
      forall m, s
        ensures s in InsideSuccessors(before, m) <==> (m, s) in before && SameGroup(groups, m, s)
      {
        assert (m, s).0 == m && (m, s).1 == s;
        if s in InsideSuccessors(before, m) {
          var e :| e in before && e.0 == m && SameGroup(groups, m, e.1) && e.1 == s;
          assert e == (m, s);
        }
      }
    }

    /**
      The whole pass: the graph is rewritten as `Rewritten` says, and the edges remembered inside the
      groups are exactly the original ones.
    */
    method BuildGraph(graph: TraactGraph)
      requires graph.Valid() && NamesApart(graph.tasks.Keys, groups) && internalSuccessors == map[]
      modifies this, graph`tasks, graph`edges, graph.tasks.Values
      ensures graph.Valid() && graph.tasks.Keys == old(graph.tasks.Keys) + groups.Values
      ensures graph.edges == Rewritten(old(graph.edges), groups)
      ensures forall m, s :: s in InternalOf(m) <==>
        (m, s) in old(graph.edges) && m in groups && s in groups && groups[m] == groups[s]
      ensures Acyclic(graph.edges) <==> Acyclic(old(graph.edges)) && Acyclic(Contracted(old(graph.edges), groups))
    {
      ghost var ids, before := graph.tasks.Keys, graph.edges;
      CreateTasks(graph);
      CreateDependencies(graph, ids);
      RewrittenAcyclicExactly(ids, before, groups);
      InsideExactly(before);
    }
  }

  /** The edges that `some` members bring. */
  function AddedBy(edges: set<(string, string)>, groups: map<string, string>, some: set<string>): set<(string, string)> {
    set m, e | m in some && e in GroupEdges(edges, groups, m) :: e
  }
}
