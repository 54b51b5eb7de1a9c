/**
  Pipelined execution refines one-at-a-time execution. Every run keeps `Inv`; from it follow that
  the k-th execution of an ordered task sees exactly the k-th event taken, that time steps end in
  ring order, that all inputs of a step are settled when it ends, and that what a component reads
  was written for its own event.
*/
module Pipeline {
  import opened Events
  import opened Digraph
  import opened Network
  import opened Marking
  import opened SchedulerCore
  import opened SchedulerWindow
  import opened Requests
  import opened SourceInputs
  import opened DataflowSystem
  import SR = SourceRequests
  import R = Ring

  /** A slot's event as the slot shows it. */
  predicate Sees(e: SlotEvent, ev: ScheduledEvent) {
    e == SlotEvent(ev.timestamp, ev.kind, PatternShown(ev))
  }

  /** The copies of an ordered task have finished exactly the first executions in ring order. */
  ghost predicate LogInOrder(x: Setup, s: System, t: Task)
    requires x.net.n >= 1
  {
    forall j: nat :: j < x.net.n ==> s.counts.Finished(Step(j, t)) == R.Uses(|s.Log(t)|, j, x.net.n)
  }

  /** The k-th execution logged is the k-th event taken. */
  ghost predicate LogSeesEvents(s: System, t: Task) {
    && |s.Log(t)| <= |s.sched.flow.taken|
    && forall k :: 0 <= k < |s.Log(t)| ==> Sees(s.Log(t)[k], s.sched.flow.taken[k])
  }

  /** A source task is past its round's wait only if its input was settled. */
  ghost predicate SourceWaited(x: Setup, s: System, i: nat, j: nat)
    requires i < |x.net.sources|
  {
    s.counts.Finished(Step(j, x.net.sources[i])) > s.counts.Finished(Step(j, TimeStepEnd))
    ==> (i, j) in s.sched.flow.promises
  }

  ghost predicate Linked(x: Setup, s: System)
    requires x.net.n >= 1
  {
    && (forall t :: x.net.RunsInOrder(t) ==> LogInOrder(x, s, t))
    && (forall t :: x.net.RunsInOrder(t) && t != TimeStepStart ==> LogSeesEvents(s, t))
    && |s.Log(TimeStepEnd)| == s.sched.flow.ended
    && (forall i: nat, j: nat :: i < |x.net.sources| && j < x.net.n ==> SourceWaited(x, s, i, j))
  }

  /** The flags of a slot are the marks its current step has made. */
  ghost predicate MarksMatch(x: Setup, s: System, k: nat)
    requires x.net.n >= 1
  {
    forall c: nat :: (c, R.Slot(k, x.net.n)) in s.sched.flow.valid <==> c in s.Marks(k)
  }

  ghost predicate MarksOk(x: Setup, s: System)
    requires x.net.n >= 1
  {
    && (forall k: nat :: s.sched.flow.ended <= k < |s.sched.flow.taken| ==> MarksMatch(x, s, k))
    && (forall k: nat :: k >= |s.sched.flow.taken| ==> s.Marks(k) == {})
  }

  ghost predicate Inv(x: Setup, s: System) {
    && x.Valid()
    && SR.Good(x.config, s.sched, s.asking)
    && Consistent(x.net, s.counts)
    && Linked(x, s)
    && MarksOk(x, s)
  }

  lemma InitialInv(x: Setup)
    requires x.Valid()
    ensures Inv(x, InitialSystem(x))
  {
    var s := InitialSystem(x);
    SR.StartGood(x.config, x.delta);
    InitialConsistent(x.net);
    forall t | x.net.RunsInOrder(t)
      ensures LogInOrder(x, s, t) && LogSeesEvents(s, t)
    {
    }
  }

  // ---- where a running task is ---------------------------------------------------------------

  /** Every task but the sources has a source before it. */
  lemma {:induction false} SourceBefore(net: Network, t: Task) returns (src: Task)
    requires net.WellFormed() && t in net.tasks && t !in net.sources
    ensures src in net.sources && Reaches(net.SlotEdges(), src, t)
    decreases Rank(net.tasks, net.edges, t)
  {
    assert !net.IsStartPoint(t);
    var e :| e in net.edges && e.1 == t;
    src := e.0;
    assert (e.0, t) in net.SlotEdges();
    EdgeReaches(net.SlotEdges(), e.0, t);
    if e.0 !in net.sources {
      RankIncreases(net.tasks, net.edges, e.0, t);
      src := SourceBefore(net, e.0);
      ReachesTransitive(net.SlotEdges(), src, e.0, t);
    }
  }

  /** A task in progress is on its slot's current step, and its round's input has been settled. */
  lemma RunningRound(x: Setup, s: System, j: nat, t: Task)
    requires Inv(x, s) && j < x.net.n && t in x.net.SlotTasks()
    requires s.counts.Running(Step(j, t))
    ensures s.counts.Finished(Step(j, t)) == s.counts.Finished(Step(j, TimeStepEnd)) == R.Uses(s.sched.flow.ended, j, x.net.n)
    ensures s.counts.Started(Step(j, t)) == s.counts.Finished(Step(j, t)) + 1
  {
    SlotWindow(x.net, s.counts, j, t);
    assert LogInOrder(x, s, TimeStepEnd);
  }

  /** A fulfilled promise belongs to a step in flight. */
  lemma PromiseInFlight(x: Setup, s: System, i: nat, j: nat)
    requires Inv(x, s) && j < x.net.n && (i, j) in s.sched.flow.promises
    ensures var k := R.StepOf(j, R.Uses(s.sched.flow.ended, j, x.net.n), x.net.n);
      && s.sched.flow.ended <= k < |s.sched.flow.taken|
      && R.Slot(k, x.net.n) == j
      && s.sched.flow.running[j]
      && Sees(s.sched.flow.slots[j], s.sched.flow.taken[k])
  {
    var f, c, e := s.sched.flow, x.config, s.sched.flow.ended;
    var u := R.Uses(e, j, x.net.n);
    var k := R.StepOf(j, u, x.net.n);
    R.WindowStep(e, j, x.net.n);
    R.SplitStep(j, u, x.net.n);
    assert k >= |f.taken| ==> Vacant(c, f, k);
    assert k < |f.taken|;
    assert Hosts(c, f, k) && Shows(c, f, k);
  }

  /**
    A component task, or TimeStepEnd, in progress works on the event of its slot's current step:
    that event has been taken, its step has not ended, and the slot shows it. The same holds for a
    source task once its wait is over.
  */
  lemma RunsItsEvent(x: Setup, s: System, j: nat, t: Task)
    requires Inv(x, s) && j < x.net.n && t in x.net.SlotTasks() && t != TimeStepStart
    requires s.counts.Running(Step(j, t))
    requires forall i: nat :: i < |x.net.sources| && x.net.sources[i] == t ==> (i, j) in s.sched.flow.promises
    ensures var k := R.StepOf(j, s.counts.Finished(Step(j, t)), x.net.n);
      && s.sched.flow.ended <= k < |s.sched.flow.taken|
      && R.Slot(k, x.net.n) == j
      && Sees(s.sched.flow.slots[j], s.sched.flow.taken[k])
  {
    RunningRound(x, s, j, t);
    var i: nat;
    if t in x.net.sources {
      i :| i < |x.net.sources| && x.net.sources[i] == t;
    } else {
      i := SettledSource(x, s, j, t);
    }
    PromiseInFlight(x, s, i, j);
  }

  lemma SettledSource(x: Setup, s: System, j: nat, t: Task) returns (i: nat)
    requires Inv(x, s) && j < x.net.n && t in x.net.SlotTasks() && t != TimeStepStart && t !in x.net.sources
    requires s.counts.Running(Step(j, t))
    ensures i < |x.net.sources| && (i, j) in s.sched.flow.promises
  {
    RunningRound(x, s, j, t);
    var src := x.net.sources[0];
    if t == TimeStepEnd {
      assert src in x.net.sources;
      BracketsEnclose(x.net, src);
    } else {
      src := SourceBefore(x.net, t);
    }
    ReachDelays(x.net, s.counts, j, src, t);
    i :| i < |x.net.sources| && x.net.sources[i] == src;
    assert SourceWaited(x, s, i, j);
  }

  /** When TimeStepEnd runs, every input of its step has been settled. */
  lemma EndIsSettled(x: Setup, s: System, j: nat)
    requires Inv(x, s) && j < x.net.n && s.counts.Running(Step(j, TimeStepEnd))
    ensures AllSettled(x.config, s.sched.flow, j)
  {
    RunningRound(x, s, j, TimeStepEnd);
    forall i: nat | i < x.config.sources
      ensures (i, j) in s.sched.flow.promises
    {
      var src := x.net.sources[i];
      assert src in x.net.sources;
      BracketsEnclose(x.net, src);
      ReachDelays(x.net, s.counts, j, src, TimeStepEnd);
      assert SourceWaited(x, s, i, j);
    }
  }

  /** An ordered task in progress is the next one in ring order. */
  lemma RunsNext(x: Setup, s: System, j: nat, t: Task)
    requires Inv(x, s) && j < x.net.n && x.net.RunsInOrder(t) && t in x.net.SlotTasks()
    requires s.counts.Running(Step(j, t))
    ensures j == R.Slot(|s.Log(t)|, x.net.n)
    ensures R.StepOf(j, s.counts.Finished(Step(j, t)), x.net.n) == |s.Log(t)|
  {
    var c, k, n := s.counts, |s.Log(t)|, x.net.n;
    assert LogInOrder(x, s, t);
    R.SlotBound(k, n);
    R.StepSplits(k, n);
    if j > 0 {
      OrderWindow(x.net, c, t, j - 1, j);
    } else {
      OrderWindow(x.net, c, t, 0, n - 1);
      SeamDelays(x.net, c, TaskRing(t));
    }
    RunningRound(x, s, j, t);
  }
}
