/**
  Once every slot holds a stop event, nothing more is scheduled: each task runs at most once more,
  every continuation contains only boundedly many node actions, no source task waits for an event
  that will not come, and when the network is at rest every event before the stop has ended.
*/
module Shutdown {
  import opened Events
  import opened Network
  import opened Marking
  import opened SchedulerCore
  import opened SchedulerWindow
  import opened Requests
  import opened SourceInputs
  import opened DataflowSystem
  import opened Pipeline
  import opened PipelineSteps
  import opened PipelineTheorems
  import opened Lifecycle
  import opened Progress
  import SR = SourceRequests
  import R = Ring
  import Runs

  lemma RunKeepsFull(x: Setup, states: seq<System>, actions: seq<Action>, i: nat)
    requires IsRun(x, states, actions) && i < |states|
    ensures Full(x, states[i])
  {
    var inv := (s: System) => Full(x, s);
    forall s, a, t | inv(s) && Steps(x)(s, a, t)
      ensures inv(t)
    {
      ActionKeepsFull(x, s, a);
    }
    InitialFull(x);
    Runs.Keeps(Steps(x), inv, states, actions, i);
  }

  /**
    The lifecycle of every run: CONFIGURE, START, then frames and parameter changes, then STOP,
    TEARDOWN and stop events, in this order. There are at most as many stop events as slots, and
    they are the last events of the history.
  */
  lemma RunFollowsScript(x: Setup, states: seq<System>, actions: seq<Action>, i: nat, k: nat)
    requires IsRun(x, states, actions) && i < |states| && k < |History(states[i].sched.flow)|
    ensures var h := History(states[i].sched.flow);
      && Fits(h[k].kind, k, |h|, Tail(states[i].phase))
      && (states[i].phase.ShuttingDown? ==> states[i].phase.sent <= x.config.slots)
      && (IsStop(h[k]) <==> states[i].phase.ShuttingDown? && |h| - k <= states[i].phase.sent)
  {
    RunKeepsFull(x, states, actions, i);
    StopsAreTail(states[i], k);
  }

  /** In the script the stop events are the last ones. */
  lemma StopsAreTail(s: System, k: nat)
    requires Script(s) && k < |History(s.sched.flow)|
    ensures var h := History(s.sched.flow);
      && Fits(h[k].kind, k, |h|, Tail(s.phase))
      && (IsStop(h[k]) <==> s.phase.ShuttingDown? && |h| - k <= s.phase.sent)
  {
  }

  /**
    TEARDOWN has ended before the first stop event is scheduled exactly when TEARDOWN did not have
    to wait for a slot. If it waited, its slot's previous step reports it finished when it is
    merely loaded, and the main thread may go on.
  */
  lemma TeardownReport(x: Setup, s: System, k: nat)
    requires Full(x, s) && IsPlaceOf(s, TEARDOWN, k)
    ensures TEARDOWN in s.direct ==> (s.phase.ShuttingDown? ==> k < s.sched.flow.ended)
    ensures TEARDOWN !in s.direct && s.phase.TearingDown? ==>
      (MainMayGo(x, s) <==> k < |s.sched.flow.taken|)
    ensures TEARDOWN !in s.direct && k < |s.sched.flow.taken| ==> Reported(s, TEARDOWN)
  {
    assert ReportOk(s, TEARDOWN, k);
  }

  // ---- after the last stop event -------------------------------------------------------------

  /** All stop events have been scheduled and loaded. */
  predicate Final(x: Setup, s: System) {
    s.phase == ShuttingDown(x.config.slots) && s.sched.flow.queue == []
  }

  lemma FinalEvents(x: Setup, s: System)
    requires Full(x, s) && Final(x, s)
    ensures |s.sched.flow.taken| >= x.net.n + 4
    ensures forall k :: |s.sched.flow.taken| - x.net.n <= k < |s.sched.flow.taken| ==> IsStop(s.sched.flow.taken[k])
    ensures forall j: nat :: j < x.net.n ==> s.sched.flow.slots[j].kind == DATAFLOW_STOP
  {
    var f, n := s.sched.flow, x.net.n;
    var h := History(f);
    assert h == f.taken;
    forall k | |f.taken| - n <= k < |f.taken|
      ensures IsStop(f.taken[k])
    {
      assert Fits(h[k].kind, k, |h|, Tail(s.phase));
    }
    forall j: nat | j < n
      ensures f.slots[j].kind == DATAFLOW_STOP
    {
      var m := LatestInSlot(x.config, f, j);
      assert IsStop(f.taken[m]);
    }
  }

  /** Nothing more is taken, and no ring goes on. */
  ghost predicate StandsStill(x: Setup, s: System, t: System)
    requires x.net.n >= 1
  {
    && Final(x, t) && t.sched.flow.taken == s.sched.flow.taken
    && forall r :: x.net.IsRing(r) ==> t.counts.Jumped(r) == s.counts.Jumped(r)
  }

  /** Nothing is scheduled any more, and no ring goes on. */
  lemma FinalStays(x: Setup, s: System, a: Action)
    requires Full(x, s) && Final(x, s) && Allowed(x, s, a)
    ensures StandsStill(x, s, Apply(x, s, a))
  {
    if IsQuiet(a) {
      FinalEvents(x, s);
      FinalQuiet(x, s, a);
    } else {
      match a {
        case AskFor(i, ts) => FinalRequest(x, s, i, ts);
        case CompleteNode(v) => FinalEnd(x, s, v.slot);
      }
    }
  }

  lemma FinalQuiet(x: Setup, s: System, a: Action)
    requires x.Valid() && Sane(x.config, s.sched) && AskingShape(x.config, s.asking)
    requires Final(x, s) && Allowed(x, s, a) && IsQuiet(a)
    requires forall j: nat :: j < x.net.n ==> s.sched.flow.slots[j].kind == DATAFLOW_STOP
    ensures StandsStill(x, s, Apply(x, s, a))
  {
    QuietActions(x, s, a);
  }

  lemma FinalEnd(x: Setup, s: System, j: nat)
    requires Inv(x, s) && Final(x, s) && j < x.net.n && s.counts.Running(Step(j, TimeStepEnd))
    ensures StandsStill(x, s, Complete(x, s, Step(j, TimeStepEnd)))
  {
    EndsOldest(x, s, j);
    FreeWindow(x.config, s.sched.flow);
  }

  lemma FinalRequest(x: Setup, s: System, i: nat, ts: int)
    requires Full(x, s) && Final(x, s) && Allowed(x, s, AskFor(i, ts))
    ensures StandsStill(x, s, Asked(x, s, i, ts))
  {
    RequestHistory(x.config, s.sched, ts, i);
    RequestExtends(x.config, s.sched, ts, i);
    var f, g := s.sched.flow, Asked(x, s, i, ts).sched.flow;
    assert |g.taken| + |g.queue| == |f.taken|;
  }

  /** The final states agree on the events and the seams' jumps. */
  ghost predicate SameFinal(x: Setup, s: System, t: System)
    requires x.net.n >= 1
  {
    Full(x, t) && StandsStill(x, s, t)
  }

  lemma NextStaysFinal(x: Setup, s: System, a: Action, t: System)
    requires Full(x, s) && Final(x, s) && Next(x, s, a, t)
    ensures SameFinal(x, s, t)
  {
    ActionKeepsFull(x, s, a);
    FinalStays(x, s, a);
  }

  ghost function FinalFrom(x: Setup, first: System): System -> bool
    requires x.net.n >= 1
  {
    (s: System) => SameFinal(x, first, s)
  }

  lemma FinalIsKept(x: Setup, first: System)
    requires x.net.n >= 1
    ensures Runs.IsKept(Steps(x), FinalFrom(x, first))
  {
    forall s, a, t | SameFinal(x, first, s) && Next(x, s, a, t)
      ensures SameFinal(x, first, t)
    {
      NextStaysFinal(x, s, a, t);
    }
  }

  lemma StretchStaysFinal(x: Setup, states: seq<System>, actions: seq<Action>, i: nat)
    requires Runs.IsStretch(Steps(x), states, actions) && i < |states|
    requires Full(x, states[0]) && Final(x, states[0])
    ensures SameFinal(x, states[0], states[i])
  {
    FinalIsKept(x, states[0]);
    Runs.Keeps(Steps(x), FinalFrom(x, states[0]), states, actions, i);
  }

  /** Each task starts at most once more. */
  lemma OnceMore(x: Setup, states: seq<System>, actions: seq<Action>, i: nat, j: nat, t: Task)
    requires Runs.IsStretch(Steps(x), states, actions) && i < |states|
    requires Full(x, states[0]) && Final(x, states[0])
    requires j < x.net.n && t in x.net.SlotTasks()
    ensures states[i].counts.Started(Step(j, t)) <= states[0].counts.Started(Step(j, t)) + 1
  {
    StretchStaysFinal(x, states, actions, i);
    StartsWithinJumps(x, states[0], j, t);
    StartsWithinJumps(x, states[i], j, t);
  }

  lemma StartsWithinJumps(x: Setup, s: System, j: nat, t: Task)
    requires Inv(x, s) && j < x.net.n && t in x.net.SlotTasks()
    ensures s.counts.Jumped(SelfRing(j)) - 1 <= s.counts.Started(Step(j, t)) <= s.counts.Jumped(SelfRing(j))
  {
    SlotWindow(x.net, s.counts, j, t);
    SeamDelays(x.net, s.counts, SelfRing(j));
  }

  // ---- a bound on all that is left to do -----------------------------------------------------

  function AllSeams(net: Network): set<Seam> {
    (set j | 0 <= j < net.n :: SelfRing(j))
    + (set t | t in net.serial + {TimeStepStart, TimeStepEnd} :: TaskRing(t))
  }

  function Nodes(net: Network): set<Node> {
    (set j, t | 0 <= j < net.n && t in net.SlotTasks() :: Step(j, t))
    + (set r | r in AllSeams(net) :: SeamEntry(r))
    + (set r | r in AllSeams(net) :: SeamStart(r))
    + (set r | r in AllSeams(net) :: SeamEnd(r))
  }

  /** The set consists of exactly the network's nodes. */
  ghost predicate AllNodes(net: Network, nodes: set<Node>) {
    forall v :: v in nodes <==> IsNode(net, v)
  }

  /** There are finitely many nodes. */
  lemma NodesAreAll(net: Network)
    ensures AllNodes(net, Nodes(net))
  {
    forall v | IsNode(net, v)
      ensures v in Nodes(net)
    {
      match v {
        case Step(_, _) =>
        case SeamEntry(r) => assert r in AllSeams(net);
        case SeamStart(r) => assert r in AllSeams(net);
        case SeamEnd(r) => assert r in AllSeams(net);
      }
    }
  }

  function Visits(c: Counts, v: Node): nat { c.Started(v) + c.Finished(v) }

  /** How often the nodes have started and finished, all together. */
  ghost function Work(c: Counts, nodes: set<Node>): nat {
    if nodes == {} then 0
    else
      var v :| v in nodes;
      Visits(c, v) + Work(c, nodes - {v})
  }

  lemma {:induction false} WorkSplits(c: Counts, nodes: set<Node>, v: Node)
    requires v in nodes
    ensures Work(c, nodes) == Visits(c, v) + Work(c, nodes - {v})
    decreases nodes
  {
    var w :| w in nodes && Work(c, nodes) == Visits(c, w) + Work(c, nodes - {w});
    if w != v {
      WorkSplits(c, nodes - {w}, v);
      WorkSplits(c, nodes - {v}, w);
      assert nodes - {w} - {v} == nodes - {v} - {w};
    }
  }

  lemma {:induction false} WorkSame(c: Counts, d: Counts, nodes: set<Node>)
    requires forall v :: v in nodes ==> Visits(c, v) == Visits(d, v)
    ensures Work(c, nodes) == Work(d, nodes)
    decreases nodes
  {
    if nodes != {} {
      var v :| v in nodes;
      WorkSplits(c, nodes, v);
      WorkSplits(d, nodes, v);
      WorkSame(c, d, nodes - {v});
    }
  }

  lemma {:induction false} WorkBound(c: Counts, nodes: set<Node>, bound: nat)
    requires forall v :: v in nodes ==> Visits(c, v) <= bound
    ensures Work(c, nodes) <= Times(|nodes|, bound)
    decreases nodes
  {
    if nodes != {} {
      var v :| v in nodes;
      WorkSplits(c, nodes, v);
      WorkBound(c, nodes - {v}, bound);
      assert |nodes| == |nodes - {v}| + 1;
    }
  }

  /** Multiplication by counting. */
  function Times(k: nat, bound: nat): nat {
    if k == 0 then 0 else Times(k - 1, bound) + bound
  }

  predicate IsNodeAction(a: Action) { a.BeginNode? || a.CompleteNode? }

  function NodeWeight(a: Action): nat { if IsNodeAction(a) then 1 else 0 }

  /** What an action changes of the counts. */
  lemma ActionCounts(x: Setup, s: System, a: Action)
    requires x.Valid() && Sane(x.config, s.sched) && AskingShape(x.config, s.asking) && Allowed(x, s, a)
    ensures var c, d := s.counts, Apply(x, s, a).counts;
      if IsNodeAction(a) then
        && IsNode(x.net, a.node) && Visits(d, a.node) == Visits(c, a.node) + 1
        && forall w :: w != a.node ==> Visits(d, w) == Visits(c, w)
      else d == c
  {
    match a {
      case BeginNode(v) => BeginVisits(s.counts, v);
      case CompleteNode(v) =>
        FinishVisits(s.counts, v, false);
        FinishVisits(s.counts, v, true);
      case _ =>
    }
  }

  lemma BeginVisits(c: Counts, v: Node)
    ensures Visits(Begin(c, v), v) == Visits(c, v) + 1
    ensures forall w :: w != v ==> Visits(Begin(c, v), w) == Visits(c, w)
  {
  }

  lemma FinishVisits(c: Counts, v: Node, again: bool)
    ensures Visits(Finish(c, v, again), v) == Visits(c, v) + 1
    ensures forall w :: w != v ==> Visits(Finish(c, v, again), w) == Visits(c, w)
  {
  }

  lemma {:induction false} WorkStep(c: Counts, d: Counts, nodes: set<Node>, v: Node)
    requires v in nodes && Visits(d, v) == Visits(c, v) + 1
    requires forall w :: w != v ==> Visits(d, w) == Visits(c, w)
    ensures Work(d, nodes) == Work(c, nodes) + 1
  {
    WorkSplits(c, nodes, v);
    WorkSplits(d, nodes, v);
    WorkSame(c, d, nodes - {v});
  }

  /** Every start and every finish is one unit of work; nothing else is. */
  lemma ActionWork(x: Setup, nodes: set<Node>, s: System, a: Action)
    requires Inv(x, s) && Allowed(x, s, a) && AllNodes(x.net, nodes)
    ensures Work(Apply(x, s, a).counts, nodes) == Work(s.counts, nodes) + NodeWeight(a)
  {
    ActionCounts(x, s, a);
    if IsNodeAction(a) { WorkStep(s.counts, Apply(x, s, a).counts, nodes, a.node); }
  }

  /** No node starts much more often than events have been taken. */
  lemma StartsBounded(x: Setup, s: System, v: Node)
    requires Inv(x, s) && IsNode(x.net, v)
    ensures s.counts.Finished(v) <= s.counts.Started(v)
    ensures s.counts.Started(v) <= |s.sched.flow.taken| + 2
  {
    match v {
      case Step(j, t) =>
        SlotWindow(x.net, s.counts, j, t);
        EndsBounded(x, s, j);
      case SeamEntry(r) => SeamBounded(x, s, r);
      case SeamStart(r) => SeamBounded(x, s, r);
      case SeamEnd(r) => SeamBounded(x, s, r);
    }
  }

  lemma EndsBounded(x: Setup, s: System, j: nat)
    requires Inv(x, s) && j < x.net.n
    ensures s.counts.Finished(Step(j, TimeStepEnd)) <= |s.sched.flow.taken|
  {
    assert LogInOrder(x, s, TimeStepEnd);
    UsesAtMost(s.sched.flow.ended, j, x.net.n);
  }

  lemma {:induction false} UsesAtMost(k: nat, j: nat, n: nat)
    requires j < n
    ensures R.Uses(k, j, n) <= k
  {
    if k > 0 {
      UsesAtMost(k - 1, j, n);
      R.UsesStep(k - 1, j, n);
    }
  }

  lemma SeamBounded(x: Setup, s: System, r: Seam)
    requires Inv(x, s) && x.net.IsRing(r)
    ensures s.counts.Started(SeamStart(r)) <= s.counts.Started(SeamEntry(r)) <= |s.sched.flow.taken| + 2
    ensures s.counts.Started(SeamEnd(r)) <= s.counts.Started(SeamEntry(r))
  {
    SeamDelays(x.net, s.counts, r);
    var j := if r.SelfRing? then r.slot else x.net.n - 1;
    var t := if r.SelfRing? then TimeStepEnd else r.task;
    SlotWindow(x.net, s.counts, j, t);
    EndsBounded(x, s, j);
  }

  ghost function NodeWork(nodes: set<Node>): System -> nat {
    (s: System) => Work(s.counts, nodes)
  }

  lemma StretchWork(x: Setup, nodes: set<Node>, states: seq<System>, actions: seq<Action>)
    requires Runs.IsStretch(Steps(x), states, actions) && Inv(x, states[0]) && AllNodes(x.net, nodes)
    ensures Work(states[|actions|].counts, nodes) == Work(states[0].counts, nodes) + Runs.Sum(NodeWeight, actions)
  {
    var inv := (s: System) => Inv(x, s);
    forall s, a, t | inv(s) && Steps(x)(s, a, t)
      ensures inv(t) && NodeWork(nodes)(t) == NodeWork(nodes)(s) + NodeWeight(a)
    {
      ActionKeepsInv(x, s, a);
      ActionWork(x, nodes, s, a);
    }
    Runs.Adds(Steps(x), inv, NodeWork(nodes), NodeWeight, states, actions);
  }

  /**
    After the last stop event has been loaded, no run has more node actions than a bound fixed by
    the network and the number of events: every node of every slot starts and finishes at most two
    times more than events were taken.
  */
  lemma ShutdownIsFinite(x: Setup, nodes: set<Node>, states: seq<System>, actions: seq<Action>)
    requires Runs.IsStretch(Steps(x), states, actions) && Full(x, states[0]) && Final(x, states[0])
    requires AllNodes(x.net, nodes)
    ensures Runs.Sum(NodeWeight, actions) <= Times(|nodes|, 2 * |states[0].sched.flow.taken| + 4)
  {
    assert FinalFrom(x, states[0])(states[0]);
    FinalWork(x, nodes, states, actions);
    WorkCountsActions(x, nodes, states, actions);
  }

  lemma FinalWork(x: Setup, nodes: set<Node>, states: seq<System>, actions: seq<Action>)
    requires Runs.IsStretch(Steps(x), states, actions) && x.net.n >= 1 && FinalFrom(x, states[0])(states[0])
    requires AllNodes(x.net, nodes)
    ensures Work(states[|actions|].counts, nodes) <= Times(|nodes|, 2 * |states[0].sched.flow.taken| + 4)
  {
    FinalIsKept(x, states[0]);
    FinalIsBounded(x, nodes, states[0]);
    Runs.Implies(Steps(x), FinalFrom(x, states[0]), BoundedFrom(nodes, states[0]), states, actions, |actions|);
  }

  ghost function BoundedFrom(nodes: set<Node>, first: System): System -> bool {
    (t: System) => Work(t.counts, nodes) <= Times(|nodes|, 2 * |first.sched.flow.taken| + 4)
  }

  lemma FinalIsBounded(x: Setup, nodes: set<Node>, first: System)
    requires x.net.n >= 1 && AllNodes(x.net, nodes)
    ensures Runs.IsEnough(FinalFrom(x, first), BoundedFrom(nodes, first))
  {
    forall t | FinalFrom(x, first)(t)
      ensures BoundedFrom(nodes, first)(t)
    {
      LastWork(x, nodes, first, t);
    }
  }

  lemma LastWork(x: Setup, nodes: set<Node>, first: System, t: System)
    requires x.net.n >= 1 && FinalFrom(x, first)(t) && AllNodes(x.net, nodes)
    ensures BoundedFrom(nodes, first)(t)
  {
    FinalIsInv(x, first, t);
    WorkStaysBounded(x, nodes, first, t);
  }

  lemma FinalIsInv(x: Setup, first: System, t: System)
    requires x.net.n >= 1 && FinalFrom(x, first)(t)
    ensures IsInv(x)(t) && t.sched.flow.taken == first.sched.flow.taken
  {
  }

  ghost function IsInv(x: Setup): System -> bool {
    (s: System) => Inv(x, s)
  }

  lemma WorkStaysBounded(x: Setup, nodes: set<Node>, first: System, t: System)
    requires IsInv(x)(t) && t.sched.flow.taken == first.sched.flow.taken && AllNodes(x.net, nodes)
    ensures BoundedFrom(nodes, first)(t)
  {
    WorkIsBounded(x, nodes, t, |first.sched.flow.taken|);
  }

  lemma WorkCountsActions(x: Setup, nodes: set<Node>, states: seq<System>, actions: seq<Action>)
    requires Runs.IsStretch(Steps(x), states, actions) && Inv(x, states[0]) && AllNodes(x.net, nodes)
    ensures Runs.Sum(NodeWeight, actions) <= Work(states[|actions|].counts, nodes)
  {
    StretchWork(x, nodes, states, actions);
  }

  lemma WorkIsBounded(x: Setup, nodes: set<Node>, s: System, events: nat)
    requires Inv(x, s) && |s.sched.flow.taken| == events && AllNodes(x.net, nodes)
    ensures Work(s.counts, nodes) <= Times(|nodes|, 2 * events + 4)
  {
    forall v | v in nodes
      ensures Visits(s.counts, v) <= 2 * events + 4
    {
      StartsBounded(x, s, v);
    }
    WorkBound(s.counts, nodes, 2 * events + 4);
  }

  // ---- nothing is left behind ----------------------------------------------------------------

  /**
    In the final phase a source task can wait only for the data of a frame in flight; none waits
    for an event that will never come.
  */
  lemma NoSourceStarves(x: Setup, s: System, i: nat, j: nat)
    requires Full(x, s) && Final(x, s) && j < x.net.n && Blocked(x, s, i, j)
    ensures var k := R.StepOf(j, s.counts.Finished(Step(j, x.net.sources[i])), x.net.n);
      s.sched.flow.ended <= k < |s.sched.flow.taken| && s.sched.flow.taken[k].kind == DATA
  {
    var k := R.StepOf(j, s.counts.Finished(Step(j, x.net.sources[i])), x.net.n);
    FinalEvents(x, s);
    BlockedInFlight(x, s, i, j);
    OpenInputIsData(x.config, s.sched.flow, s.asking, i, j, k);
  }

  /** A waiting source task is on a step in flight. */
  lemma BlockedInFlight(x: Setup, s: System, i: nat, j: nat)
    requires Inv(x, s) && Seams(x, s) && j < x.net.n && Blocked(x, s, i, j)
    requires |s.sched.flow.taken| >= x.net.n
    requires forall k :: |s.sched.flow.taken| - x.net.n <= k < |s.sched.flow.taken| ==> IsStop(s.sched.flow.taken[k])
    ensures var k := R.StepOf(j, s.counts.Finished(Step(j, x.net.sources[i])), x.net.n);
      s.sched.flow.ended <= k < |s.sched.flow.taken| && R.Slot(k, x.net.n) == j
  {
    var f, n, u := s.sched.flow, x.net.n, s.counts.Finished(Step(j, x.net.sources[i]));
    BlockedRound(x, s, i, j);
    R.WindowStep(f.ended, j, n);
    R.SplitStep(j, u, n);
    assert SelfOk(x, s, j);
    BeyondTheEnd(f.taken, s.counts.Jumped(SelfRing(j)), j, u, n);
  }

  /** It is on the round its slot has not ended, which the slot's own seam let it go on to. */
  lemma BlockedRound(x: Setup, s: System, i: nat, j: nat)
    requires Inv(x, s) && j < x.net.n && Blocked(x, s, i, j)
    ensures var u := s.counts.Finished(Step(j, x.net.sources[i]));
      u == R.Uses(s.sched.flow.ended, j, x.net.n) && u < s.counts.Jumped(SelfRing(j))
  {
    var src := x.net.sources[i];
    assert src in x.net.sources;
    RunningRound(x, s, j, src);
    StartsWithinJumps(x, s, j, src);
  }

  /** Only a frame leaves a promise open. */
  lemma OpenInputIsData(c: Config, f: Flow, a: Asking, i: nat, j: nat, k: nat)
    requires Window(c, f) && Inputs(c, f, a) && i < c.sources && (i, j) !in f.promises
    requires f.ended <= k < |f.taken| && R.Slot(k, c.slots) == j
    ensures f.taken[k].kind == DATA
  {
    R.SlotBound(k, c.slots);
    assert Hosts(c, f, k) && Shows(c, f, k);
    assert InputOk(c, f, a, i, j);
  }

  /** No slot is let go on to a round after its stop event. */
  lemma BeyondTheEnd(taken: seq<ScheduledEvent>, q: nat, j: nat, u: nat, n: nat)
    requires j < n <= |taken| && u < q
    requires forall k :: |taken| - n <= k < |taken| ==> IsStop(taken[k])
    requires q >= 2 ==> R.StepOf(j, q - 2, n) < |taken| && !IsStop(taken[R.StepOf(j, q - 2, n)])
    ensures R.StepOf(j, u, n) < |taken|
  {
    if u >= 1 {
      R.StepOfMonotone(j, u - 1, q - 2, n);
      R.StepOfMonotone(j, 0, q - 2, n);
    }
  }

  /** When the network is at rest, every event before the stop has been processed to its end. */
  lemma RestMeansDone(x: Setup, s: System, k: nat)
    requires Full(x, s) && (forall v :: !Active(x.net, s.counts, v))
    requires k < |s.sched.flow.taken| && !IsStop(s.sched.flow.taken[k])
    ensures k < s.sched.flow.ended
  {
    if !StopBy(s.sched.flow, s.sched.flow.ended) {
      var v := NeverAtRest(x, s);
      assert false;
    }
    var m :| 0 <= m < |s.sched.flow.taken| && m <= s.sched.flow.ended && IsStop(s.sched.flow.taken[m]);
    if m <= k { StopsAreLast(s, m, k); }
  }
}
