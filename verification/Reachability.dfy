/**
  Which states runs reach. From every state whose oldest step has all its inputs, starts and
  finishes of tasks alone lead on to the end of that step; and whatever way they go, they come to
  rest, with that step ended.
*/
module Reachability {
  import opened Events
  import opened Network
  import opened Marking
  import opened SchedulerCore
  import opened SchedulerWindow
  import opened Requests
  import opened SourceInputs
  import opened DataflowSystem
  import opened Pipeline
  import opened PipelineSteps
  import opened PipelineTheorems
  import opened Lifecycle
  import opened Progress
  import opened Shutdown
  import R = Ring
  import Runs

  /** Some run gets to `s`. */
  ghost predicate Reachable(x: Setup, s: System) {
    x.Valid() && Runs.Leads(Steps(x), InitialSystem(x), s)
  }

  lemma InitialIsReachable(x: Setup)
    requires x.Valid()
    ensures Reachable(x, InitialSystem(x))
  {
    Runs.StaysThere(Steps(x), InitialSystem(x));
  }

  lemma ReachableIsFull(x: Setup, s: System)
    requires Reachable(x, s)
    ensures Full(x, s)
  {
    var states, actions :| Runs.IsWay(Steps(x), states, actions, InitialSystem(x), s);
    RunKeepsFull(x, states, actions, |actions|);
  }

  lemma GoesOn(x: Setup, s: System, t: System)
    requires Reachable(x, s) && Runs.Leads(Steps(x), s, t)
    ensures Reachable(x, t)
  {
    Runs.LeadsOn(Steps(x), InitialSystem(x), s, t);
  }

  lemma ActionReaches(x: Setup, s: System, a: Action)
    requires Reachable(x, s) && x.Valid() && Sane(x.config, s.sched) && AskingShape(x.config, s.asking)
    requires Allowed(x, s, a)
    ensures Reachable(x, Apply(x, s, a))
  {
    var t := Apply(x, s, a);
    assert Next(x, s, a, t);
    Runs.OneStep(Steps(x), s, a, t);
    GoesOn(x, s, t);
  }

  lemma MainReaches(x: Setup, s: System)
    requires Reachable(x, s) && MainMayGo(x, s)
    ensures Shape(x.config, s.sched.flow) && Reachable(x, MainStep(x, s))
  {
    ReachableIsFull(x, s);
    ActionReaches(x, s, MainThread);
  }

  // ---- starts and finishes of nodes ----------------------------------------------------------

  /** The steps that are starts and finishes of nodes. */
  ghost function NodeSteps(x: Setup): (System, Action, System) -> bool {
    (s, a, t) => Next(x, s, a, t) && IsNodeAction(a)
  }

  lemma NodeStepsAreSteps(x: Setup)
    ensures Runs.IsWider(NodeSteps(x), Steps(x))
  {
  }

  // ---- the oldest step runs on to its end ----------------------------------------------------

  /** Nothing but the task network has moved on. */
  predicate OnlyNetworkMoved(s: System, t: System) {
    t == s.(counts := t.counts, log := t.log)
  }

  /** The oldest step is no stop event, follows none, and has all its inputs. */
  ghost predicate MayEnd(x: Setup, s: System)
    requires x.net.n >= 1
  {
    && s.sched.flow.ended < |s.sched.flow.taken|
    && !StopBy(s.sched.flow, s.sched.flow.ended)
    && AllSettled(x.config, s.sched.flow, R.Slot(s.sched.flow.ended, x.net.n))
  }

  /** A node of the oldest step may move, and moving it changes nothing but the network. */
  lemma NodeMoves(x: Setup, s: System) returns (a: Action)
    requires Full(x, s) && MayEnd(x, s)
    requires !s.counts.Running(Step(R.Slot(s.sched.flow.ended, x.net.n), TimeStepEnd))
    ensures IsNodeAction(a) && Allowed(x, s, a) && OnlyNetworkMoved(s, Apply(x, s, a))
  {
    var i: nat;
    a, i := DeadlockFree(x, s);
    if a.CompleteNode? && a.node.Step? && a.node.task == TimeStepEnd && Allowed(x, s, a) {
      EndsOldest(x, s, a.node.slot);
    }
  }

  /** How much the network can still do for the events taken so far. */
  ghost function Left(s: System, nodes: set<Node>): int {
    Times(|nodes|, 2 * |s.sched.flow.taken| + 4) - Work(s.counts, nodes)
  }

  lemma MovesOn(x: Setup, s: System, nodes: set<Node>) returns (a: Action, t: System)
    requires Full(x, s) && MayEnd(x, s) && AllNodes(x.net, nodes)
    requires !s.counts.Running(Step(R.Slot(s.sched.flow.ended, x.net.n), TimeStepEnd))
    ensures IsNodeAction(a) && Next(x, s, a, t) && OnlyNetworkMoved(s, t)
    ensures Full(x, t) && MayEnd(x, t) && 0 <= Left(t, nodes) < Left(s, nodes)
  {
    a := NodeMoves(x, s);
    t := Apply(x, s, a);
    ActionKeepsFull(x, s, a);
    MoveShrinks(x, s, nodes, a, t);
    StillLeft(x, nodes, t);
  }

  lemma MoveShrinks(x: Setup, s: System, nodes: set<Node>, a: Action, t: System)
    requires Inv(x, s) && AllNodes(x.net, nodes) && Next(x, s, a, t) && IsNodeAction(a)
    requires t.sched.flow.taken == s.sched.flow.taken
    ensures Left(t, nodes) == Left(s, nodes) - 1
  {
    ActionWork(x, nodes, s, a);
  }

  lemma StillLeft(x: Setup, nodes: set<Node>, t: System)
    requires Inv(x, t) && AllNodes(x.net, nodes)
    ensures Left(t, nodes) >= 0
  {
    WorkIsBounded(x, nodes, t, |t.sched.flow.taken|);
  }

  /**
    From any state whose oldest step has its inputs, starts and finishes of nodes alone lead to the
    state in which that step's TimeStepEnd runs.
  */
  lemma {:induction false} RunsToItsEnd(x: Setup, s: System, nodes: set<Node>) returns (t: System)
    requires Full(x, s) && MayEnd(x, s) && AllNodes(x.net, nodes)
    ensures Runs.Leads(NodeSteps(x), s, t) && Full(x, t) && OnlyNetworkMoved(s, t)
    ensures t.counts.Running(Step(R.Slot(s.sched.flow.ended, x.net.n), TimeStepEnd))
    decreases Left(s, nodes)
  {
    if s.counts.Running(Step(R.Slot(s.sched.flow.ended, x.net.n), TimeStepEnd)) {
      t := s;
      Runs.StaysThere(NodeSteps(x), s);
    } else {
      var a, u := MovesOn(x, s, nodes);
      t := RunsToItsEnd(x, u, nodes);
      Runs.OneStep(NodeSteps(x), s, a, u);
      Runs.LeadsOn(NodeSteps(x), s, u, t);
    }
  }

  /** What ending the oldest step changes besides the network: exactly the scheduler's transition. */
  predicate OnlyEnded(x: Setup, s: System, t: System)
    requires x.net.n >= 1
  {
    var j := R.Slot(s.sched.flow.ended, x.net.n);
    && Shape(x.config, s.sched.flow) && j < x.config.slots
    && t == s.(counts := t.counts, log := t.log, sched := TimeStepEnded(x.config, s.sched, j))
  }

  /** And from there to the end of the step. */
  lemma StepEnds(x: Setup, s: System) returns (t: System)
    requires Full(x, s) && MayEnd(x, s)
    ensures Runs.Leads(NodeSteps(x), s, t) && Full(x, t) && OnlyEnded(x, s, t)
  {
    NodesAreAll(x.net);
    var u := RunsToItsEnd(x, s, Nodes(x.net));
    t := EndsNow(x, u);
    Runs.LeadsOn(NodeSteps(x), s, u, t);
    NodesKeepFull(x, s, t);
  }

  ghost function IsFull(x: Setup): System -> bool {
    (s: System) => Full(x, s)
  }

  lemma NodesKeepFull(x: Setup, s: System, t: System)
    requires IsFull(x)(s) && Runs.Leads(NodeSteps(x), s, t)
    ensures IsFull(x)(t)
  {
    forall s, a, t | Full(x, s) && NodeSteps(x)(s, a, t)
      ensures Full(x, t)
    {
      ActionKeepsFull(x, s, a);
    }
    Runs.LeadsKeeps(NodeSteps(x), IsFull(x), s, t);
  }

  /** TimeStepEnd waits for no source's promise. */
  lemma EndIsNoSource(net: Network)
    requires net.WellFormed()
    ensures TimeStepEnd !in net.sources
  {
    assert TimeStepEnd in net.sources ==> TimeStepEnd in net.tasks;
  }

  lemma EndIsAllowed(x: Setup, s: System)
    requires Full(x, s) && s.counts.Running(Step(R.Slot(s.sched.flow.ended, x.net.n), TimeStepEnd))
    ensures R.Slot(s.sched.flow.ended, x.net.n) < x.net.n
    ensures Allowed(x, s, CompleteNode(Step(R.Slot(s.sched.flow.ended, x.net.n), TimeStepEnd)))
  {
    R.SlotBound(s.sched.flow.ended, x.net.n);
    EndIsNoSource(x.net);
  }

  lemma EndIsAStep(x: Setup, s: System, v: Node)
    requires x.Valid() && Sane(x.config, s.sched) && AskingShape(x.config, s.asking) && IsNode(x.net, v)
    requires Allowed(x, s, CompleteNode(v))
    ensures NodeSteps(x)(s, CompleteNode(v), Complete(x, s, v))
  {
    assert Apply(x, s, CompleteNode(v)) == Complete(x, s, v);
    assert Next(x, s, CompleteNode(v), Complete(x, s, v));
  }

  lemma EndsNow(x: Setup, s: System) returns (t: System)
    requires Full(x, s) && s.counts.Running(Step(R.Slot(s.sched.flow.ended, x.net.n), TimeStepEnd))
    ensures Runs.Leads(NodeSteps(x), s, t) && OnlyEnded(x, s, t)
  {
    var v := Step(R.Slot(s.sched.flow.ended, x.net.n), TimeStepEnd);
    EndIsAllowed(x, s);
    EndIsAStep(x, s, v);
    t := Complete(x, s, v);
    CompleteOnlyEnds(x, s);
    Runs.OneStep(NodeSteps(x), s, CompleteNode(v), t);
  }

  lemma CompleteOnlyEnds(x: Setup, s: System)
    requires x.net.n >= 1 && Shape(x.config, s.sched.flow) && x.config.slots == x.net.n
    requires IsNode(x.net, Step(R.Slot(s.sched.flow.ended, x.net.n), TimeStepEnd))
    ensures OnlyEnded(x, s, Complete(x, s, Step(R.Slot(s.sched.flow.ended, x.net.n), TimeStepEnd)))
  {
  }

  lemma ReachesEnd(x: Setup, s: System) returns (t: System)
    requires Reachable(x, s) && x.net.n >= 1 && MayEnd(x, s)
    ensures Reachable(x, t) && OnlyNetworkMoved(s, t)
    ensures t.counts.Running(Step(R.Slot(s.sched.flow.ended, x.net.n), TimeStepEnd))
  {
    ReachableIsFull(x, s);
    NodesAreAll(x.net);
    t := RunsToItsEnd(x, s, Nodes(x.net));
    NodesReach(x, s, t);
  }

  lemma NodesReach(x: Setup, s: System, t: System)
    requires Reachable(x, s) && Runs.Leads(NodeSteps(x), s, t)
    ensures Reachable(x, t)
  {
    NodeStepsAreSteps(x);
    Runs.LeadsWidens(NodeSteps(x), Steps(x), s, t);
    GoesOn(x, s, t);
  }

  // ---- every way the nodes may go ------------------------------------------------------------

  /** The nodes have moved on, and ended steps perhaps; nothing was scheduled. */
  ghost predicate Onward(x: Setup, s: System, t: System) {
    && Full(x, t) && History(t.sched.flow) == History(s.sched.flow)
    && s.sched.flow.ended <= t.sched.flow.ended
    && (t.sched.flow.ended == s.sched.flow.ended ==> OnlyNetworkMoved(s, t))
  }

  lemma MoveIsOnward(x: Setup, first: System, s: System, a: Action)
    requires Onward(x, first, s) && Allowed(x, s, a) && IsNodeAction(a)
    ensures Onward(x, first, Apply(x, s, a))
  {
    ActionKeepsFull(x, s, a);
    if a.CompleteNode? && a.node.Step? && a.node.task == TimeStepEnd {
      EndsOldest(x, s, a.node.slot);
      KindReadAtEnd(x, s, a.node.slot);
    }
  }

  ghost function OnwardFrom(x: Setup, first: System): System -> bool {
    (s: System) => Onward(x, first, s)
  }

  lemma StretchIsOnward(x: Setup, states: seq<System>, actions: seq<Action>)
    requires Runs.IsStretch(NodeSteps(x), states, actions) && IsFull(x)(states[0])
    ensures OnwardFrom(x, states[0])(states[|actions|])
  {
    OnwardIsKept(x, states[0]);
    Runs.Keeps(NodeSteps(x), OnwardFrom(x, states[0]), states, actions, |actions|);
  }

  lemma {:induction false} AllCount(actions: seq<Action>)
    requires forall k :: 0 <= k < |actions| ==> IsNodeAction(actions[k])
    ensures Runs.Sum(NodeWeight, actions) == |actions|
  {
    if actions != [] { AllCount(actions[..|actions| - 1]); }
  }

  lemma VisitsWithinHistory(x: Setup, nodes: set<Node>, s: System, v: Node)
    requires Full(x, s) && AllNodes(x.net, nodes) && v in nodes
    ensures Visits(s.counts, v) <= 2 * |History(s.sched.flow)| + 4
  {
    StartsBounded(x, s, v);
  }

  lemma WorkWithinHistory(x: Setup, nodes: set<Node>, s: System)
    requires IsFull(x)(s) && AllNodes(x.net, nodes)
    ensures Work(s.counts, nodes) <= Times(|nodes|, 2 * |History(s.sched.flow)| + 4)
  {
    forall v | v in nodes
      ensures Visits(s.counts, v) <= 2 * |History(s.sched.flow)| + 4
    {
      VisitsWithinHistory(x, nodes, s, v);
    }
    WorkBound(s.counts, nodes, 2 * |History(s.sched.flow)| + 4);
  }

  /** However the nodes move, they come to rest: no stretch of starts and finishes is longer than this. */
  lemma NodeMovesAreBounded(x: Setup, nodes: set<Node>, states: seq<System>, actions: seq<Action>)
    requires Runs.IsStretch(NodeSteps(x), states, actions) && Full(x, states[0]) && AllNodes(x.net, nodes)
    ensures |actions| <= Times(|nodes|, 2 * |History(states[0].sched.flow)| + 4)
  {
    MovesAreWork(x, nodes, states, actions);
    assert OnwardFrom(x, states[0])(states[0]);
    MovesStayWithin(x, nodes, states, actions);
  }

  ghost function WithinFrom(nodes: set<Node>, first: System): System -> bool {
    (t: System) => Work(t.counts, nodes) <= Times(|nodes|, 2 * |History(first.sched.flow)| + 4)
  }

  lemma OnwardIsEnough(x: Setup, nodes: set<Node>, first: System)
    requires AllNodes(x.net, nodes)
    ensures Runs.IsEnough(OnwardFrom(x, first), WithinFrom(nodes, first))
  {
    forall t | OnwardFrom(x, first)(t)
      ensures WithinFrom(nodes, first)(t)
    {
      OnwardIsWithin(x, nodes, first, t);
    }
  }

  lemma OnwardIsWithin(x: Setup, nodes: set<Node>, first: System, t: System)
    requires OnwardFrom(x, first)(t) && AllNodes(x.net, nodes)
    ensures WithinFrom(nodes, first)(t)
  {
    WorkWithinHistory(x, nodes, t);
  }

  lemma OnwardIsKept(x: Setup, first: System)
    ensures Runs.IsKept(NodeSteps(x), OnwardFrom(x, first))
  {
    forall s, a, t | Onward(x, first, s) && NodeSteps(x)(s, a, t)
      ensures Onward(x, first, t)
    {
      MoveIsOnward(x, first, s, a);
    }
  }

  lemma MovesStayWithin(x: Setup, nodes: set<Node>, states: seq<System>, actions: seq<Action>)
    requires Runs.IsStretch(NodeSteps(x), states, actions) && OnwardFrom(x, states[0])(states[0])
    requires AllNodes(x.net, nodes)
    ensures Work(states[|actions|].counts, nodes) <= Times(|nodes|, 2 * |History(states[0].sched.flow)| + 4)
  {
    OnwardIsKept(x, states[0]);
    OnwardIsEnough(x, nodes, states[0]);
    Runs.Implies(NodeSteps(x), OnwardFrom(x, states[0]), WithinFrom(nodes, states[0]), states, actions, |actions|);
  }

  lemma MovesAreWork(x: Setup, nodes: set<Node>, states: seq<System>, actions: seq<Action>)
    requires Runs.IsStretch(NodeSteps(x), states, actions) && Inv(x, states[0]) && AllNodes(x.net, nodes)
    ensures Work(states[|actions|].counts, nodes) == Work(states[0].counts, nodes) + |actions|
  {
    NodeStepsAreSteps(x);
    Runs.StretchWidens(NodeSteps(x), Steps(x), states, actions);
    StretchWork(x, nodes, states, actions);
    forall k: nat | k < |actions|
      ensures IsNodeAction(actions[k])
    {
      assert Runs.StepAt(NodeSteps(x), states, actions, k);
    }
    AllCount(actions);
  }

  ghost predicate NodesAtRest(x: Setup, s: System)
    requires x.Valid() && Sane(x.config, s.sched) && AskingShape(x.config, s.asking)
  {
    forall a :: IsNodeAction(a) ==> !Allowed(x, s, a)
  }

  /** And when they come to rest, an oldest step that had its inputs has ended, whatever way they went. */
  lemma RestEndsOldest(x: Setup, states: seq<System>, actions: seq<Action>)
    requires Runs.IsStretch(NodeSteps(x), states, actions) && Full(x, states[0]) && MayEnd(x, states[0])
    requires Full(x, states[|actions|]) ==> NodesAtRest(x, states[|actions|])
    ensures states[|actions|].sched.flow.ended > states[0].sched.flow.ended
  {
    var s, t := states[0], states[|actions|];
    StretchIsOnward(x, states, actions);
    if t.sched.flow.ended == s.sched.flow.ended {
      CannotRest(x, t);
    }
  }

  lemma CannotRest(x: Setup, s: System)
    requires Full(x, s) && MayEnd(x, s)
    ensures !NodesAtRest(x, s)
  {
    if s.counts.Running(Step(R.Slot(s.sched.flow.ended, x.net.n), TimeStepEnd)) {
      EndIsAllowed(x, s);
    } else {
      var a := NodeMoves(x, s);
    }
  }

  // ---- control events ------------------------------------------------------------------------

  /** A step without a frame has its inputs. */
  lemma ControlMayEnd(x: Setup, s: System)
    requires Full(x, s) && s.sched.flow.ended < |s.sched.flow.taken|
    requires s.sched.flow.taken[s.sched.flow.ended].kind != DATA
    requires forall k :: 0 <= k <= s.sched.flow.ended ==> !IsStop(s.sched.flow.taken[k])
    ensures MayEnd(x, s)
  {
    var f, c := s.sched.flow, x.config;
    R.SlotBound(f.ended, c.slots);
    assert Hosts(c, f, f.ended) && Shows(c, f, f.ended);
    forall i: nat | i < c.sources
      ensures (i, R.Slot(f.ended, c.slots)) in f.promises
    {
      assert InputOk(c, f, s.asking, i, R.Slot(f.ended, c.slots));
    }
  }

  /** A control event that runs gets to its end. */
  lemma ControlEnds(x: Setup, s: System) returns (t: System)
    requires Reachable(x, s) && s.sched.flow.ended < |s.sched.flow.taken|
    requires s.sched.flow.taken[s.sched.flow.ended].kind != DATA
    requires forall k :: 0 <= k <= s.sched.flow.ended ==> !IsStop(s.sched.flow.taken[k])
    ensures Reachable(x, t) && x.net.n >= 1 && OnlyEnded(x, s, t)
  {
    ReachableIsFull(x, s);
    ControlMayEnd(x, s);
    t := StepEnds(x, s);
    NodesReach(x, s, t);
  }
}
