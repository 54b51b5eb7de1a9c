/** What holds in every run of the dataflow. */
module PipelineTheorems {
  import opened Events
  import opened Digraph
  import opened Network
  import opened Marking
  import opened SchedulerCore
  import opened SchedulerWindow
  import opened Requests
  import opened SourceInputs
  import opened DataflowSystem
  import opened Pipeline
  import opened PipelineSteps
  import SR = SourceRequests
  import R = Ring
  import Runs

  ghost predicate Next(x: Setup, s: System, a: Action, t: System) {
    && x.Valid() && Sane(x.config, s.sched) && AskingShape(x.config, s.asking)
    && Allowed(x, s, a) && t == Apply(x, s, a)
  }

  ghost function Steps(x: Setup): (System, Action, System) -> bool {
    (s, a, t) => Next(x, s, a, t)
  }

  /** A run: any interleaving of allowed actions from the initial state. */
  ghost predicate IsRun(x: Setup, states: seq<System>, actions: seq<Action>) {
    && x.Valid()
    && Runs.IsStretch(Steps(x), states, actions)
    && states[0] == InitialSystem(x)
  }

  lemma RunKeepsInv(x: Setup, states: seq<System>, actions: seq<Action>, i: nat)
    requires IsRun(x, states, actions) && i < |states|
    ensures Inv(x, states[i])
  {
    var inv := (s: System) => Inv(x, s);
    forall s, a, t | inv(s) && Steps(x)(s, a, t)
      ensures inv(t)
    {
      ActionKeepsInv(x, s, a);
    }
    InitialInv(x);
    Runs.Keeps(Steps(x), inv, states, actions, i);
  }

  // ---- refinement of one-at-a-time execution -------------------------------------------------

  /**
    In every run, with any number of slots and any interleaving, the k-th execution of a task that
    runs in order sees exactly the k-th event taken from the queue; and a task never gets ahead of
    a predecessor in its slot.
  */
  lemma RunRefinesSequential(x: Setup, states: seq<System>, actions: seq<Action>, i: nat, t: Task)
    requires IsRun(x, states, actions) && i < |states|
    requires t == TimeStepEnd || t in x.net.serial
    ensures var s := states[i];
      && |s.Log(TimeStepEnd)| == s.sched.flow.ended <= |s.Log(t)| <= |s.sched.flow.taken|
      && (forall k :: 0 <= k < |s.Log(t)| ==> Sees(s.Log(t)[k], s.sched.flow.taken[k]))
      && (forall u :: Reaches(x.net.SlotEdges(), t, u) && (u == TimeStepEnd || u in x.net.serial) ==>
            |s.Log(u)| <= |s.Log(t)|)
  {
    var s := states[i];
    RunKeepsInv(x, states, actions, i);
    assert LogSeesEvents(s, t);
    forall u | Reaches(x.net.SlotEdges(), t, u) && (u == TimeStepEnd || u in x.net.serial)
      ensures |s.Log(u)| <= |s.Log(t)|
    {
      LogsFollow(x, s, t, u);
    }
    if t != TimeStepEnd {
      BracketsEnclose(x.net, t);
      LogsFollow(x, s, t, TimeStepEnd);
    }
  }

  lemma LogsFollow(x: Setup, s: System, t: Task, u: Task)
    requires Inv(x, s) && x.net.RunsInOrder(t) && x.net.RunsInOrder(u)
    requires Reaches(x.net.SlotEdges(), t, u)
    ensures |s.Log(u)| <= |s.Log(t)|
  {
    var n, k, l := x.net.n, |s.Log(t)|, |s.Log(u)|;
    R.SlotBound(k, n);
    var j := R.Slot(k, n);
    assert LogInOrder(x, s, t) && LogInOrder(x, s, u);
    ReachDelays(x.net, s.counts, j, t, u);
    FewerUses(k, l, n);
  }

  /** If a slot has been used no more often in `l` steps than in the `k` before its next use, `l` is no more. */
  lemma FewerUses(k: nat, l: nat, n: nat)
    requires n > 0
    ensures R.Slot(k, n) < n
    ensures R.Uses(l, R.Slot(k, n), n) <= R.Uses(k, R.Slot(k, n), n) ==> l <= k
  {
    R.SlotBound(k, n);
    if l > k {
      UsesGrow(k + 1, l, R.Slot(k, n), n);
      R.UsesStep(k, R.Slot(k, n), n);
    }
  }

  lemma {:induction false} UsesGrow(k: nat, l: nat, j: nat, n: nat)
    requires n > 0 && k <= l && j < n
    ensures R.Uses(k, j, n) <= R.Uses(l, j, n)
    decreases l - k
  {
    if k < l {
      R.UsesStep(k, j, n);
      UsesGrow(k + 1, l, j, n);
    }
  }

  /**
    An ordered task that runs is executing exactly once more than it has logged: all its earlier
    executions have finished, none of its later ones has begun, and the event it sees is the one
    with its execution's number.
  */
  lemma OrderedTaskRunsAlone(x: Setup, s: System, j: nat, t: Task)
    requires Inv(x, s) && j < x.net.n && (t == TimeStepEnd || t in x.net.serial)
    requires t !in x.net.sources && s.counts.Running(Step(j, t))
    ensures var k := |s.Log(t)|;
      && j == R.Slot(k, x.net.n) && k < |s.sched.flow.taken|
      && Sees(s.sched.flow.slots[j], s.sched.flow.taken[k])
      && (forall i: nat :: i < x.net.n && i != j ==> !s.counts.Running(Step(i, t)))
  {
    RunsNext(x, s, j, t);
    RunsItsEvent(x, s, j, t);
    forall i: nat | i < x.net.n && s.counts.Running(Step(i, t))
      ensures i == j
    {
      RunsNext(x, s, i, t);
    }
  }

  // ---- settled inputs ------------------------------------------------------------------------

  /**
    When a step ends, each of its inputs has been fulfilled, no source still holds one of its
    buffers, and in the whole run no promise was ever fulfilled twice.
  */
  lemma StepEndsSettled(x: Setup, s: System, j: nat)
    requires Inv(x, s) && j < x.net.n && s.counts.Running(Step(j, TimeStepEnd))
    ensures forall i: nat :: i < x.config.sources ==> (i, j) in s.sched.flow.promises * s.sched.flow.setInput
    ensures forall i: nat :: i < x.config.sources ==> s.asking.states[i] != Holding(j)
    ensures s.sched.flow.faults == 0
  {
    EndIsSettled(x, s, j);
    forall i: nat | i < x.config.sources
      ensures (i, j) in s.sched.flow.promises * s.sched.flow.setInput && s.asking.states[i] != Holding(j)
    {
      assert (i, j) in s.sched.flow.promises;
      PromiseInFlight(x, s, i, j);
      assert InputOk(x.config, s.sched.flow, s.asking, i, j);
      assert SourceOk(x.config, s.sched.flow, s.asking, i);
    }
  }

  lemma MainExtends(x: Setup, s: System)
    requires Shape(x.config, s.sched.flow)
    ensures Extends(s.sched.flow, MainStep(x, s).sched.flow)
  {
    if Submits(s.phase) { ScheduleExtends(x.config, s.sched.flow, ControlEvent(NextEvent(s.phase))); }
  }

  /** A fulfilled input stays fulfilled until its step ends. */
  lemma SettledStaysSettled(x: Setup, s: System, a: Action, i: nat, j: nat)
    requires Inv(x, s) && Allowed(x, s, a) && j < x.net.n && (i, j) in s.sched.flow.promises
    ensures (i, j) in Apply(x, s, a).sched.flow.promises || a == CompleteNode(Step(j, TimeStepEnd))
  {
    match a {
      case CompleteNode(v) =>
        if v.Step? && v.task == TimeStepEnd && v.slot != j {
          EndsOldest(x, s, v.slot);
          EndScheduler(x, s, v.slot);
        }
      case AskFor(k, ts) => RequestExtends(x.config, s.sched, ts, k);
      case MainThread => MainExtends(x, s);
      case SetParameter(p) =>
        ScheduleExtends(x.config, s.sched.flow, ScheduledEvent(TIMESTAMP_ZERO, PARAMETER_CHANGE, [], p));
      case _ =>
    }
  }

  // ---- no stale data -------------------------------------------------------------------------

  /** The test that chooses between a component's normal call and its call with invalid inputs. */
  predicate AllInputsValid(x: Setup, f: Flow, j: nat, t: Task) {
    forall c :: c in x.Inputs(t) ==> (c, j) in f.valid
  }

  /**
    A component that runs for step k finds all its inputs valid exactly when each was marked valid
    during step k, and no one writes any of them any more.
  */
  lemma NoStaleData(x: Setup, s: System, j: nat, t: Task)
    requires Inv(x, s) && j < x.net.n && t in x.net.tasks && t !in x.net.sources
    requires s.counts.Running(Step(j, t))
    ensures var k := R.StepOf(j, s.counts.Finished(Step(j, t)), x.net.n);
      && s.sched.flow.ended <= k < |s.sched.flow.taken| && R.Slot(k, x.net.n) == j
      && Sees(s.sched.flow.slots[j], s.sched.flow.taken[k])
      && (AllInputsValid(x, s.sched.flow, j, t) <==> x.Inputs(t) <= s.Marks(k))
    ensures forall c :: c in x.Inputs(t) ==> c < |x.cells| && !Writes(x, s, j, x.cells[c])
  {
    RunsItsEvent(x, s, j, t);
    RunningRound(x, s, j, t);
    var k := R.StepOf(j, s.counts.Finished(Step(j, t)), x.net.n);
    ValidMeansMarked(x, s, j, t, k);
    InputsAreFinal(x, s, j, t);
  }

  lemma ValidMeansMarked(x: Setup, s: System, j: nat, t: Task, k: nat)
    requires Inv(x, s)
    requires s.sched.flow.ended <= k < |s.sched.flow.taken| && R.Slot(k, x.net.n) == j
    ensures AllInputsValid(x, s.sched.flow, j, t) <==> x.Inputs(t) <= s.Marks(k)
  {
    assert MarksMatch(x, s, k);
    if AllInputsValid(x, s.sched.flow, j, t) {
      forall c | c in x.Inputs(t)
        ensures c in s.Marks(k)
      {
        assert (c, j) in s.sched.flow.valid;
      }
    } else {
      var c :| c in x.Inputs(t) && (c, j) !in s.sched.flow.valid;
      assert c !in s.Marks(k);
    }
  }

  lemma InputsAreFinal(x: Setup, s: System, j: nat, t: Task)
    requires Inv(x, s) && j < x.net.n && t in x.net.tasks
    requires s.counts.Running(Step(j, t))
    ensures forall c :: c in x.Inputs(t) ==> c < |x.cells| && !Writes(x, s, j, x.cells[c])
  {
    forall c | c in x.Inputs(t)
      ensures c < |x.cells| && !Writes(x, s, j, x.cells[c])
    {
      assert c < |x.cells| && (x.cells[c], t) in x.net.edges;
      ProducerIsDone(x, s, j, x.cells[c], t);
    }
  }

  lemma ProducerIsDone(x: Setup, s: System, j: nat, p: Task, t: Task)
    requires Inv(x, s) && j < x.net.n && (p, t) in x.net.edges && t in x.net.tasks
    requires s.counts.Running(Step(j, t))
    ensures !Writes(x, s, j, p)
  {
    assert (p, t) in x.net.SlotEdges();
    assert x.net.Edge(Step(j, p), Step(j, t));
    RunningRound(x, s, j, t);
    SlotWindow(x.net, s.counts, j, p);
    if p in x.net.sources {
      forall i: nat | i < |x.net.sources| && x.net.sources[i] == p
        ensures s.asking.states[i] != Holding(j)
      {
        assert SourceWaited(x, s, i, j);
        assert SourceOk(x.config, s.sched.flow, s.asking, i);
      }
    }
  }

  /** Slot `j` hosts one of the steps that have been taken and have not ended. */
  ghost predicate InFlight(f: Flow, j: nat, n: nat)
    requires n >= 1
  {
    exists k: nat :: f.ended <= k < |f.taken| && R.Slot(k, n) == j
  }

  // ---- window --------------------------------------------------------------------------------

  /**
    At all times the steps in flight are at most the slots, the semaphore counts the free ones,
    events wait only when none is free, and a slot runs exactly while it hosts a step in flight.
  */
  lemma RingWindowAlways(x: Setup, states: seq<System>, actions: seq<Action>, i: nat)
    requires IsRun(x, states, actions) && i < |states|
    ensures var f := states[i].sched.flow;
      && f.ended <= |f.taken| <= f.ended + x.net.n
      && f.free == x.net.n - (|f.taken| - f.ended)
      && (f.queue != [] ==> f.free == 0)
      && |f.running| == x.net.n && -1 <= f.latest < x.net.n
      && (forall j: nat :: j < x.net.n ==>
            (f.running[j] <==> InFlight(f, j, x.net.n)))
      && (f.free > 0 ==> !f.running[R.Next(f.latest, x.net.n)])
  {
    var s := states[i];
    var f := s.sched.flow;
    RunKeepsInv(x, states, actions, i);
    forall j: nat | j < x.net.n
      ensures f.running[j] <==> InFlight(f, j, x.net.n)
    {
      RunningMeansInFlight(x, s, j);
    }
    NextIsFree(x.config, f);
    if f.free > 0 { assert Vacant(x.config, f, |f.taken|); }
  }

  lemma RunningMeansInFlight(x: Setup, s: System, j: nat)
    requires Inv(x, s) && j < x.net.n
    ensures var f := s.sched.flow;
      f.running[j] <==> InFlight(f, j, x.net.n)
  {
    var f := s.sched.flow;
    if f.running[j] { RunningInFlight(x, s, j); }
    forall k: nat | f.ended <= k < |f.taken| && R.Slot(k, x.net.n) == j
      ensures f.running[j]
    {
      assert Hosts(x.config, f, k);
    }
  }
}
