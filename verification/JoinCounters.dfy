/**
  The runtime does not track tokens edge by edge. It keeps one counter per node with the number of
  predecessors it still waits for, makes a node ready when its counter reaches zero, and sets the
  counter back when the node has finished. Because the marking is safe, this is the same thing: the
  ready nodes are exactly the enabled ones, and no counter ever drops below zero.
*/
module JoinCounters {
  import opened Digraph
  import opened Network
  import opened Marking

  datatype Runtime = Runtime(join: map<Node, int>, ready: set<Node>)

  /** The nodes that `v` waits for. */
  function Predecessors(net: Network, v: Node): set<Node>
    requires net.n >= 1
  {
    match v
    case Step(s, t) =>
      (set e | e in net.SlotEdges() && e.1 == t :: Step(s, e.0))
      + (if net.RunsInOrder(t) && s > 0 then {Step(s - 1, t)} else {})
      + (if net.RunsInOrder(t) && s == 0 then {SeamStart(TaskRing(t))} else {})
      + (if t == TimeStepStart then {SeamStart(SelfRing(s))} else {})
    case SeamEntry(r) => {net.RingLast(r)}
    case _ => {}
  }

  lemma PredecessorsAreEdges(net: Network, u: Node, v: Node)
    requires net.n >= 1 && IsNode(net, v)
    ensures u in Predecessors(net, v) <==> net.Edge(u, v)
  {
    if v.Step? && u.Step? && net.Edge(u, v) && u.slot == v.slot {
      assert (u.task, v.task) in net.SlotEdges();
    }
  }

  /** The predecessors whose token is missing. */
  function Missing(net: Network, c: Counts, v: Node): set<Node>
    requires net.n >= 1
  {
    set u | u in Predecessors(net, v) && Tokens(c, u, v) <= 0
  }

  /** The runtime counts what the marking says. */
  ghost predicate Matches(net: Network, r: Runtime, c: Counts)
    requires net.n >= 1
  {
    && (forall v :: v in r.join <==> IsNode(net, v))
    && (forall v :: IsNode(net, v) && !c.Running(v) ==> r.join[v] == |Missing(net, c, v)|)
    && (forall v :: v in r.ready <==> Enabled(net, c, v))
  }

  /** A node that starts leaves the ready pool. */
  function Begun(r: Runtime, v: Node): Runtime { r.(ready := r.ready - {v}) }

  /** The counters once `v` has finished: its own is set back, its successors' are decremented. */
  function Counters(net: Network, r: Runtime, v: Node): (join: map<Node, int>)
    requires net.n >= 1
    ensures join.Keys == r.join.Keys
  {
    map w | w in r.join ::
      if w == v then |Predecessors(net, v)|
      else if v in Predecessors(net, w) then r.join[w] - 1
      else r.join[w]
  }

  /** Successors whose counter reaches zero become ready; a seam's entry makes the one it chose ready. */
  function Finished(net: Network, r: Runtime, v: Node, again: bool): Runtime
    requires net.n >= 1
  {
    var join := Counters(net, r, v);
    var woken := set w | w in join && v in Predecessors(net, w) && join[w] == 0;
    var chosen := if v.SeamEntry? then {if again then SeamStart(v.ring) else SeamEnd(v.ring)} else {};
    Runtime(join, r.ready + woken + chosen)
  }

  // ---- what a step does to the missing tokens ------------------------------------------------

  /** An enabled node is not running. */
  lemma EnabledIsIdle(net: Network, c: Counts, v: Node)
    requires net.WellFormed() && Consistent(net, c) && Enabled(net, c, v)
    ensures !c.Running(v)
  {
    BeginConsistent(net, c, v);
    NeverOverlaps(net, Begin(c, v), v);
  }

  /** A running node misses every token. */
  lemma RunningMissesAll(net: Network, c: Counts, v: Node)
    requires net.WellFormed() && Consistent(net, c) && IsNode(net, v) && c.Running(v)
    ensures Missing(net, c, v) == Predecessors(net, v)
  {
    forall u | u in Predecessors(net, v)
      ensures Tokens(c, u, v) <= 0
    {
      PredecessorsAreEdges(net, u, v);
      MarkingIsSafe(net, c, u, v);
    }
  }

  /** The token that a running node is about to leave is not there yet. */
  lemma RunnerOwesToken(net: Network, c: Counts, v: Node, w: Node, again: bool)
    requires net.WellFormed() && Consistent(net, c) && c.Running(v) && net.Edge(v, w)
    ensures Tokens(c, v, w) == 0
  {
    FinishConsistent(net, c, v, again);
    MarkingIsSafe(net, Finish(c, v, again), v, w);
    MarkingIsSafe(net, c, v, w);
  }

  /** A finish adds a token to the edges behind it. */
  lemma FinishTokens(c: Counts, v: Node, again: bool, w: Node)
    ensures forall u :: Tokens(Finish(c, v, again), u, w) == Tokens(c, u, w) + if u == v then 1 else 0
  {
    var d := Finish(c, v, again);
    assert forall u :: d.Finished(u) == c.Finished(u) + if u == v then 1 else 0;
    assert d.Started(w) == c.Started(w);
  }

  /** A predecessor that finishes supplies the token that was missing. */
  lemma FinisherWasMissing(net: Network, c: Counts, v: Node, again: bool, w: Node)
    requires net.WellFormed() && Consistent(net, c) && c.Running(v) && IsNode(net, w) && v in Predecessors(net, w)
    ensures Tokens(c, v, w) == 0 && v in Missing(net, c, w)
  {
    PredecessorsAreEdges(net, v, w);
    RunnerOwesToken(net, c, v, w, again);
  }

  lemma FinishMissing(net: Network, c: Counts, v: Node, again: bool, w: Node)
    requires net.WellFormed() && Consistent(net, c) && IsNode(net, v) && c.Running(v) && IsNode(net, w)
    ensures Missing(net, Finish(c, v, again), w) == Missing(net, c, w) - {v}
    ensures v in Predecessors(net, w) ==> v in Missing(net, c, w)
  {
    if v in Predecessors(net, w) { FinisherWasMissing(net, c, v, again, w); }
    MissingShrinks(net, c, v, again, w);
  }

  lemma MissingShrinks(net: Network, c: Counts, v: Node, again: bool, w: Node)
    requires net.n >= 1 && (v in Predecessors(net, w) ==> Tokens(c, v, w) == 0)
    ensures Missing(net, Finish(c, v, again), w) == Missing(net, c, w) - {v}
  {
    FinishTokens(c, v, again, w);
  }

  lemma RemoveOne(s: set<Node>, v: Node)
    requires v in s
    ensures |s - {v}| == |s| - 1
  {
  }

  /** A node may start exactly when it misses no token and, behind a seam, was chosen. */
  lemma EnabledMeansNoneMissing(net: Network, c: Counts, v: Node)
    requires net.n >= 1 && IsNode(net, v)
    ensures Enabled(net, c, v) <==>
      && Missing(net, c, v) == {}
      && (v.SeamStart? ==> c.Started(v) < c.Jumped(v.ring))
      && (v.SeamEnd? ==> c.Started(v) < c.Finished(SeamEntry(v.ring)) - c.Jumped(v.ring))
  {
    if Missing(net, c, v) == {} {
      forall u | net.Edge(u, v)
        ensures Tokens(c, u, v) > 0
      {
        PredecessorsAreEdges(net, u, v);
        assert u !in Missing(net, c, v);
      }
    } else {
      var u :| u in Missing(net, c, v);
      PredecessorsAreEdges(net, u, v);
    }
  }

  // ---- refinement ----------------------------------------------------------------------------

  /** The counters start with all predecessors, and the start entry has made every seam's entry ready. */
  lemma InitialMatches(net: Network, nodes: set<Node>)
    requires net.n >= 1 && forall v :: v in nodes <==> IsNode(net, v)
    ensures Matches(net, Runtime(map v | v in nodes :: if v.SeamEntry? then 0 else |Predecessors(net, v)|,
                                 set v | v in nodes && v.SeamEntry?), INITIAL)
  {
    forall v | IsNode(net, v)
      ensures Missing(net, INITIAL, v) == if v.SeamEntry? then {} else Predecessors(net, v)
      ensures v.SeamEntry? <==> Enabled(net, INITIAL, v)
    {
      EnabledMeansNoneMissing(net, INITIAL, v);
      if v.Step? { HasPredecessor(net, v.slot, v.task); }
    }
  }

  /** Every task of a slot waits for something. */
  lemma HasPredecessor(net: Network, s: nat, t: Task)
    requires net.n >= 1 && t in net.SlotTasks()
    ensures Predecessors(net, Step(s, t)) != {}
  {
    if t == TimeStepStart {
      assert SeamStart(SelfRing(s)) in Predecessors(net, Step(s, t));
    } else if net.RunsInOrder(t) {
      assert (if s > 0 then Step(s - 1, t) else SeamStart(TaskRing(t))) in Predecessors(net, Step(s, t));
    } else if net.IsStartPoint(t) {
      assert (TimeStepStart, t) in net.SlotEdges();
      assert Step(s, (TimeStepStart, t).0) in Predecessors(net, Step(s, t));
    } else {
      var e :| e in net.edges && e.1 == t;
      assert Step(s, e.0) in Predecessors(net, Step(s, t));
    }
  }

  lemma BeginLeavesOthers(net: Network, c: Counts, v: Node, w: Node)
    requires net.n >= 1 && IsNode(net, w) && w != v
    ensures Enabled(net, Begin(c, v), w) <==> Enabled(net, c, w)
    ensures Missing(net, Begin(c, v), w) == Missing(net, c, w)
  {
    assert forall u :: Tokens(Begin(c, v), u, w) == Tokens(c, u, w);
    EnabledMeansNoneMissing(net, c, w);
    EnabledMeansNoneMissing(net, Begin(c, v), w);
  }

  /** A node that has just started runs and may not start again. */
  lemma BegunRuns(net: Network, c: Counts, v: Node)
    requires net.WellFormed() && Consistent(net, c) && Enabled(net, c, v)
    ensures Begin(c, v).Running(v) && !Enabled(net, Begin(c, v), v)
  {
    BeginConsistent(net, c, v);
    if Enabled(net, Begin(c, v), v) { EnabledIsIdle(net, Begin(c, v), v); }
  }

  /** Starting a ready node is starting an enabled one. */
  lemma BeginMatches(net: Network, r: Runtime, c: Counts, v: Node)
    requires net.WellFormed() && Consistent(net, c) && Matches(net, r, c) && v in r.ready
    ensures Enabled(net, c, v)
    ensures Matches(net, Begun(r, v), Begin(c, v))
  {
    var d := Begin(c, v);
    BegunRuns(net, c, v);
    forall w | IsNode(net, w) && !d.Running(w)
      ensures r.join[w] == |Missing(net, d, w)|
    {
      BeginLeavesOthers(net, c, v, w);
    }
    forall w
      ensures w in Begun(r, v).ready <==> Enabled(net, d, w)
    {
      if IsNode(net, w) && w != v { BeginLeavesOthers(net, c, v, w); }
    }
  }

  /** A node that counts becomes enabled when the finishing node's token was the only one missing. */
  lemma FinishEnables(net: Network, c: Counts, v: Node, again: bool, w: Node)
    requires net.WellFormed() && Consistent(net, c) && IsNode(net, v) && c.Running(v)
    requires IsNode(net, w) && (w.Step? || w.SeamEntry?)
    ensures Enabled(net, Finish(c, v, again), w) <==> Missing(net, c, w) - {v} == {}
  {
    FinishMissing(net, c, v, again, w);
    EnabledMeansNoneMissing(net, Finish(c, v, again), w);
  }

  /** Behind a seam, only the chosen node becomes enabled. */
  lemma FinishChooses(net: Network, c: Counts, v: Node, again: bool, w: Node)
    requires net.WellFormed() && Consistent(net, c) && IsNode(net, v) && c.Running(v)
    requires IsNode(net, w) && (w.SeamStart? || w.SeamEnd?)
    ensures Enabled(net, Finish(c, v, again), w) <==>
      Enabled(net, c, w) || (v == SeamEntry(w.ring) && w == if again then SeamStart(w.ring) else SeamEnd(w.ring))
  {
    SeamDelays(net, c, w.ring);
    RingNeverLaps(net, c, w.ring);
  }

  /** While a node runs, none of its successors does. */
  lemma SuccessorIsIdle(net: Network, c: Counts, v: Node, w: Node)
    requires net.WellFormed() && Consistent(net, c)
    requires IsNode(net, v) && c.Running(v) && IsNode(net, w) && v in Predecessors(net, w)
    ensures v != w && !c.Running(w)
  {
    PredecessorsAreEdges(net, v, w);
    if v == w {
      SlotEdgesAcyclic(net);
      EdgeReaches(net.SlotEdges(), w.task, w.task);
      assert false;
    }
    if c.Running(w) {
      FinishConsistent(net, c, v, false);
      MarkingIsSafe(net, Finish(c, v, false), v, w);
      MarkingIsSafe(net, c, v, w);
    }
  }

  /** No counter drops below zero: one that is decremented counts at least the finishing node. */
  lemma CountersStayPositive(net: Network, r: Runtime, c: Counts, v: Node, w: Node)
    requires net.WellFormed() && Consistent(net, c) && Matches(net, r, c)
    requires IsNode(net, v) && c.Running(v) && IsNode(net, w) && v in Predecessors(net, w)
    ensures r.join[w] >= 1 && w !in r.ready
  {
    SuccessorIsIdle(net, c, v, w);
    FinishMissing(net, c, v, false, w);
    RemoveOne(Missing(net, c, w), v);
    EnabledMeansNoneMissing(net, c, w);
  }

  lemma CounterMatches(net: Network, r: Runtime, c: Counts, v: Node, again: bool, w: Node)
    requires net.WellFormed() && Consistent(net, c) && Matches(net, r, c)
    requires IsNode(net, v) && c.Running(v) && IsNode(net, w)
    requires !Finish(c, v, again).Running(w)
    ensures Counters(net, r, v)[w] == |Missing(net, Finish(c, v, again), w)|
  {
    FinishMissing(net, c, v, again, w);
    if v in Predecessors(net, w) {
      SuccessorIsIdle(net, c, v, w);
      RemoveOne(Missing(net, c, w), v);
    } else if w == v {
      NeverOverlaps(net, c, v);
      RunningMissesAll(net, c, v);
      assert Missing(net, c, v) - {v} == Predecessors(net, v);
    } else {
      assert Missing(net, c, w) - {v} == Missing(net, c, w);
    }
  }

  /** A counter reaches zero when the last missing token arrives. */
  lemma LastToken(s: set<Node>, v: Node)
    requires v in s
    ensures |s| - 1 == 0 <==> s - {v} == {}
  {
    RemoveOne(s, v);
  }

  lemma ReadyAfter(net: Network, r: Runtime, v: Node, again: bool, w: Node)
    requires net.n >= 1 && w in r.join && v in Predecessors(net, w) && v != w
    ensures w in Finished(net, r, v, again).ready <==> w in r.ready || r.join[w] - 1 == 0
  {
  }

  lemma SuccessorMatches(net: Network, r: Runtime, c: Counts, v: Node, again: bool, w: Node)
    requires net.WellFormed() && Consistent(net, c) && Matches(net, r, c)
    requires IsNode(net, v) && c.Running(v) && IsNode(net, w) && v in Predecessors(net, w)
    ensures w in Finished(net, r, v, again).ready <==> Enabled(net, Finish(c, v, again), w)
  {
    SuccessorIsIdle(net, c, v, w);
    CountersStayPositive(net, r, c, v, w);
    FinishEnables(net, c, v, again, w);
    ReadyAfter(net, r, v, again, w);
    assert v in Missing(net, c, w) by { FinishMissing(net, c, v, again, w); }
    LastToken(Missing(net, c, w), v);
  }

  lemma ReadyElsewhere(net: Network, r: Runtime, v: Node, again: bool, w: Node)
    requires net.n >= 1 && v !in Predecessors(net, w) && (w.Step? || w.SeamEntry?)
    ensures w in Finished(net, r, v, again).ready <==> w in r.ready
  {
  }

  lemma OtherMatches(net: Network, r: Runtime, c: Counts, v: Node, again: bool, w: Node)
    requires net.WellFormed() && Consistent(net, c) && Matches(net, r, c)
    requires IsNode(net, v) && c.Running(v) && IsNode(net, w) && v !in Predecessors(net, w)
    requires w.Step? || w.SeamEntry?
    ensures w in Finished(net, r, v, again).ready <==> Enabled(net, Finish(c, v, again), w)
  {
    OtherEnabled(net, c, v, again, w);
    ReadyElsewhere(net, r, v, again, w);
  }

  /** A finish changes nothing for a node that does not follow it, seams' choices apart. */
  lemma OtherEnabled(net: Network, c: Counts, v: Node, again: bool, w: Node)
    requires net.WellFormed() && Consistent(net, c)
    requires IsNode(net, v) && c.Running(v) && IsNode(net, w) && v !in Predecessors(net, w)
    requires w.Step? || w.SeamEntry?
    ensures Enabled(net, Finish(c, v, again), w) <==> Enabled(net, c, w)
  {
    FinishEnables(net, c, v, again, w);
    EnabledMeansNoneMissing(net, c, w);
    assert Missing(net, c, w) - {v} == Missing(net, c, w);
  }

  lemma ReadyMatches(net: Network, r: Runtime, c: Counts, v: Node, again: bool, w: Node)
    requires net.WellFormed() && Consistent(net, c) && Matches(net, r, c)
    requires IsNode(net, v) && c.Running(v) && IsNode(net, w)
    ensures w in Finished(net, r, v, again).ready <==> Enabled(net, Finish(c, v, again), w)
  {
    if v in Predecessors(net, w) {
      SuccessorMatches(net, r, c, v, again, w);
    } else if w.Step? || w.SeamEntry? {
      OtherMatches(net, r, c, v, again, w);
    } else {
      FinishChooses(net, c, v, again, w);
    }
  }

  lemma NeverReady(net: Network, r: Runtime, v: Node, again: bool, w: Node)
    requires net.n >= 1 && IsNode(net, v) && !IsNode(net, w) && w !in r.join && w !in r.ready
    ensures w !in Finished(net, r, v, again).ready
  {
    if v.SeamEntry? {
      assert IsNode(net, SeamStart(v.ring)) && IsNode(net, SeamEnd(v.ring));
    }
  }

  lemma ReadyAndEnabledMatch(net: Network, r: Runtime, c: Counts, v: Node, again: bool, w: Node)
    requires net.WellFormed() && Consistent(net, c) && Matches(net, r, c) && IsNode(net, v) && c.Running(v)
    ensures w in Finished(net, r, v, again).ready <==> Enabled(net, Finish(c, v, again), w)
  {
    if IsNode(net, w) {
      ReadyMatches(net, r, c, v, again, w);
    } else {
      assert w !in r.ready;
      NeverReady(net, r, v, again, w);
    }
  }

  /**
    Finishing a node in the runtime is finishing it in the marking: afterwards the counters again
    count the missing tokens and the ready nodes are the enabled ones.
  */
  lemma FinishMatches(net: Network, r: Runtime, c: Counts, v: Node, again: bool)
    requires net.WellFormed() && Consistent(net, c) && Matches(net, r, c) && IsNode(net, v) && c.Running(v)
    ensures Matches(net, Finished(net, r, v, again), Finish(c, v, again))
  {
    var d, q := Finish(c, v, again), Finished(net, r, v, again);
    forall w | IsNode(net, w) && !d.Running(w)
      ensures q.join[w] == |Missing(net, d, w)|
    {
      CounterMatches(net, r, c, v, again, w);
    }
    forall w
      ensures w in q.ready <==> Enabled(net, d, w)
    {
      ReadyAndEnabledMatch(net, r, c, v, again, w);
    }
  }
}
