/**
  Progress and shutdown. A seam's entry decides whether its ring goes on by looking at one slot's
  current event, for the rings across slots always at slot 0. The module shows that no seam stops a
  round whose event is not itself a stop event, that the oldest step therefore always has a node
  that is running or may start, and that after the last stop event every run is finite and ends.
*/
module Progress {
  import opened Events
  import opened Network
  import opened Marking
  import opened SchedulerCore
  import opened SchedulerWindow
  import opened Requests
  import opened SourceInputs
  import opened DataflowSystem
  import opened Pipeline
  import opened PipelineSteps
  import opened Lifecycle
  import SR = SourceRequests
  import R = Ring

  predicate IsStop(ev: ScheduledEvent) { ev.kind == DATAFLOW_STOP }

  predicate Refused(c: Counts, r: Seam) { c.Jumped(r) < c.Finished(SeamEntry(r)) }

  /** A stop event among the events up to step `k` has been taken. */
  ghost predicate StopBy(f: Flow, k: nat) {
    exists m :: 0 <= m < |f.taken| && m <= k && IsStop(f.taken[m])
  }

  /** A seam refuses once, and only to start a round at or after a stop event. */
  ghost predicate SeamOk(x: Setup, s: System, r: Seam)
    requires x.net.n >= 1
  {
    Refused(s.counts, r) ==>
      && s.counts.Finished(SeamEntry(r)) == s.counts.Jumped(r) + 1
      && StopBy(s.sched.flow, R.StepOf(x.net.SeamSlot(r), s.counts.Jumped(r), x.net.n))
  }

  /** A slot goes on to another round only after an event that is no stop. */
  ghost predicate SelfOk(x: Setup, s: System, j: nat)
    requires x.net.n >= 1
  {
    var q := s.counts.Jumped(SelfRing(j));
    q >= 2 ==>
      && R.StepOf(j, q - 2, x.net.n) < |s.sched.flow.taken|
      && !IsStop(s.sched.flow.taken[R.StepOf(j, q - 2, x.net.n)])
  }

  ghost predicate Seams(x: Setup, s: System)
    requires x.net.n >= 1
  {
    && (forall r :: x.net.IsRing(r) ==> SeamOk(x, s, r))
    && (forall j: nat :: j < x.net.n ==> SelfOk(x, s, j))
  }

  /** No more stop events are scheduled than there are slots. */
  predicate StopsFit(x: Setup, s: System) {
    s.phase.ShuttingDown? ==> s.phase.sent <= x.config.slots
  }

  ghost predicate Full(x: Setup, s: System) {
    Inv(x, s) && Script(s) && StopsFit(x, s) && Reports(s) && Seams(x, s)
  }

  lemma InitialFull(x: Setup)
    requires x.Valid()
    ensures Full(x, InitialSystem(x))
  {
    InitialInv(x);
  }

  /** After a stop event come only stop events. */
  lemma StopsAreLast(s: System, k: nat, l: nat)
    requires Script(s) && k <= l < |s.sched.flow.taken| && IsStop(s.sched.flow.taken[k])
    ensures IsStop(s.sched.flow.taken[l])
  {
    var h := History(s.sched.flow);
    assert h[k] == s.sched.flow.taken[k] && h[l] == s.sched.flow.taken[l];
    assert Fits(h[k].kind, k, |h|, Tail(s.phase)) && Fits(h[l].kind, l, |h|, Tail(s.phase));
  }

  // ---- what a slot shows ---------------------------------------------------------------------

  /** A slot that has been used shows the latest event taken into it. */
  lemma LatestInSlot(c: Config, f: Flow, j: nat) returns (m: nat)
    requires Window(c, f) && j < c.slots && j < |f.taken|
    ensures m < |f.taken| <= m + c.slots && R.Slot(m, c.slots) == j && f.slots[j].kind == f.taken[m].kind
  {
    var n, t := c.slots, |f.taken|;
    if t >= n {
      var u := R.Uses(t - n, j, n);
      m := R.StepOf(j, u, n);
      R.WindowStep(t - n, j, n);
      R.SplitStep(j, u, n);
    } else {
      m := j;
    }
    assert Shows(c, f, m);
  }

  /** The latest event of a slot is not ahead of any round the slot has not ended. */
  lemma LatestNotAhead(c: Config, f: Flow, j: nat, m: nat, k: nat)
    requires Window(c, f) && j < c.slots && m < |f.taken| && R.Slot(m, c.slots) == j
    requires R.Uses(f.ended, j, c.slots) <= k
    ensures m <= R.StepOf(j, k, c.slots)
  {
    var n := c.slots;
    var u := R.Uses(f.ended, j, n);
    R.WindowStep(f.ended, j, n);
    R.StepOfMonotone(j, u, k, n);
    if m >= f.ended { R.WindowUnique(f.ended, m, n); }
  }

  /** No earlier event of the slot comes after its latest one. */
  lemma LatestIsLatest(n: nat, t: nat, m: nat, p: nat)
    requires n > 0 && m < t <= m + n && p < t && R.Slot(m, n) == R.Slot(p, n)
    ensures p <= m
  {
    if m < p { R.WindowInjective(m, m, p, n); }
  }

  // ---- seam decisions ------------------------------------------------------------------------

  /** A running seam entry has never refused. */
  lemma EntryNeverRefused(x: Setup, s: System, r: Seam)
    requires Inv(x, s) && x.net.IsRing(r) && s.counts.Running(SeamEntry(r))
    ensures s.counts.Finished(SeamEntry(r)) == s.counts.Jumped(r)
    ensures s.counts.Finished(x.net.RingLast(r)) >= s.counts.Jumped(r)
    ensures s.counts.Started(x.net.RingFirst(r)) <= s.counts.Jumped(r)
  {
    SeamDelays(x.net, s.counts, r);
    RingNeverLaps(x.net, s.counts, r);
  }

  /**
    A seam looks at the slot that its ring would run next. It refuses exactly if that slot shows a
    stop event, and then there is one at or before the round it refuses.
  */
  lemma SeamDecides(x: Setup, s: System, r: Seam)
    requires Full(x, s) && x.net.IsRing(r) && s.counts.Running(SeamEntry(r)) && x.net.RingFirst(r).Step?
    ensures var j, t := x.net.RingFirst(r).slot, Complete(x, s, SeamEntry(r));
      && j < x.net.n
      && (t.counts.Jumped(r) == s.counts.Jumped(r) <==> s.sched.flow.slots[j].kind == DATAFLOW_STOP)
      && (t.counts.Jumped(r) == s.counts.Jumped(r) ==>
            StopBy(s.sched.flow, R.StepOf(j, s.counts.Jumped(r), x.net.n)))
  {
    if s.sched.flow.slots[x.net.SeamSlot(r)].kind == DATAFLOW_STOP { RefusalSeesStop(x, s, r); }
  }

  /** A seam that refuses has a stop event at or before the round it refuses. */
  lemma RefusalSeesStop(x: Setup, s: System, r: Seam)
    requires Full(x, s) && x.net.IsRing(r) && s.counts.Running(SeamEntry(r))
    requires s.sched.flow.slots[x.net.SeamSlot(r)].kind == DATAFLOW_STOP
    ensures StopBy(s.sched.flow, R.StepOf(x.net.SeamSlot(r), s.counts.Jumped(r), x.net.n))
  {
    var f, j, q := s.sched.flow, x.net.SeamSlot(r), s.counts.Jumped(r);
    EntryNeverRefused(x, s, r);
    var m := LatestInSlot(x.config, f, j);
    var first := if r.SelfRing? then TimeStepStart else r.task;
    SlotWindow(x.net, s.counts, j, first);
    assert LogInOrder(x, s, TimeStepEnd);
    LatestNotAhead(x.config, f, j, m, q);
    assert IsStop(f.taken[m]);
  }

  /** By the time a slot's own seam decides, the slot has ended as many rounds as it was let go on. */
  lemma RoundHasEnded(x: Setup, s: System, j: nat)
    requires Inv(x, s) && j < x.net.n && s.counts.Running(SeamEntry(SelfRing(j)))
    requires s.counts.Jumped(SelfRing(j)) >= 1
    ensures var p := R.StepOf(j, s.counts.Jumped(SelfRing(j)) - 1, x.net.n);
      p < s.sched.flow.ended <= |s.sched.flow.taken| && R.Slot(p, x.net.n) == j
  {
    EntryNeverRefused(x, s, SelfRing(j));
    assert LogInOrder(x, s, TimeStepEnd);
    RoundBefore(s.sched.flow.ended, j, s.counts.Jumped(SelfRing(j)), x.net.n);
  }

  lemma RoundBefore(e: nat, j: nat, q: nat, n: nat)
    requires j < n && 1 <= q <= R.Uses(e, j, n)
    ensures R.StepOf(j, q - 1, n) < e && R.Slot(R.StepOf(j, q - 1, n), n) == j
  {
    R.WindowStep(e, j, n);
    R.StepOfMonotone(j, q - 1, R.Uses(e, j, n) - 1, n);
    R.SplitStep(j, q - 1, n);
  }

  /** A slot's own seam that lets it go on has seen the end of an event that is no stop. */
  lemma ContinueSeesNoStop(x: Setup, s: System, j: nat)
    requires Full(x, s) && j < x.net.n && s.counts.Running(SeamEntry(SelfRing(j)))
    requires s.sched.flow.slots[j].kind != DATAFLOW_STOP && s.counts.Jumped(SelfRing(j)) >= 1
    ensures var p := R.StepOf(j, s.counts.Jumped(SelfRing(j)) - 1, x.net.n);
      p < |s.sched.flow.taken| && !IsStop(s.sched.flow.taken[p])
  {
    var f, n, q := s.sched.flow, x.net.n, s.counts.Jumped(SelfRing(j));
    var p := R.StepOf(j, q - 1, n);
    RoundHasEnded(x, s, j);
    R.StepOfMonotone(j, 0, q - 1, n);
    var m := LatestInSlot(x.config, f, j);
    LatestIsLatest(n, |f.taken|, m, p);
    if IsStop(f.taken[p]) { StopsAreLast(s, p, m); }
  }

  /** Events already taken stay, so what seams have seen stays true. */
  lemma SeamsSame(x: Setup, s: System, t: System)
    requires x.net.n >= 1 && Seams(x, s)
    requires forall r :: t.counts.Jumped(r) == s.counts.Jumped(r)
    requires forall r :: t.counts.Finished(SeamEntry(r)) == s.counts.Finished(SeamEntry(r))
    requires s.sched.flow.taken <= t.sched.flow.taken
    ensures Seams(x, t)
  {
    forall r | x.net.IsRing(r)
      ensures SeamOk(x, t, r)
    {
      assert SeamOk(x, s, r);
      if Refused(s.counts, r) {
        StopByGrows(s.sched.flow, t.sched.flow, R.StepOf(x.net.SeamSlot(r), s.counts.Jumped(r), x.net.n));
      }
    }
    forall j: nat | j < x.net.n
      ensures SelfOk(x, t, j)
    {
      assert SelfOk(x, s, j);
    }
  }

  lemma NoStopEarlier(f: Flow, k: nat, l: nat)
    requires !StopBy(f, l) && k <= l
    ensures !StopBy(f, k)
  {
  }

  lemma StopByGrows(f: Flow, g: Flow, k: nat)
    requires StopBy(f, k) && f.taken <= g.taken
    ensures StopBy(g, k)
  {
    var m :| 0 <= m < |f.taken| && m <= k && IsStop(f.taken[m]);
    assert g.taken[m] == f.taken[m];
  }

  lemma EntryKeepsSeams(x: Setup, s: System, r: Seam)
    requires Full(x, s) && x.net.IsRing(r) && s.counts.Running(SeamEntry(r))
    ensures Seams(x, Complete(x, s, SeamEntry(r)))
  {
    var t := Complete(x, s, SeamEntry(r));
    var again := s.sched.flow.slots[x.net.SeamSlot(r)].kind != DATAFLOW_STOP;
    EntryNeverRefused(x, s, r);
    if again {
      if r.SelfRing? { SelfContinues(x, s, r.slot, t); }
      EntryContinues(x, s, r, t);
    } else {
      RefusalSeesStop(x, s, r);
      EntryRefuses(x, s, r, t);
    }
  }

  lemma EntryContinues(x: Setup, s: System, r: Seam, t: System)
    requires x.net.n >= 1 && Seams(x, s) && x.net.IsRing(r)
    requires s.counts.Finished(SeamEntry(r)) == s.counts.Jumped(r)
    requires t == s.(counts := Finish(s.counts, SeamEntry(r), true))
    requires r.SelfRing? ==> SelfOk(x, t, r.slot)
    ensures Seams(x, t)
  {
    forall b | x.net.IsRing(b)
      ensures SeamOk(x, t, b)
    {
      assert SeamOk(x, s, b);
    }
    forall j: nat | j < x.net.n
      ensures SelfOk(x, t, j)
    {
      assert SelfOk(x, s, j);
    }
  }

  lemma EntryRefuses(x: Setup, s: System, r: Seam, t: System)
    requires x.net.n >= 1 && Seams(x, s) && x.net.IsRing(r)
    requires s.counts.Finished(SeamEntry(r)) == s.counts.Jumped(r)
    requires t == s.(counts := Finish(s.counts, SeamEntry(r), false))
    requires StopBy(s.sched.flow, R.StepOf(x.net.SeamSlot(r), s.counts.Jumped(r), x.net.n))
    ensures Seams(x, t)
  {
    forall b | x.net.IsRing(b)
      ensures SeamOk(x, t, b)
    {
      assert SeamOk(x, s, b);
    }
    forall j: nat | j < x.net.n
      ensures SelfOk(x, t, j)
    {
      assert SelfOk(x, s, j);
    }
  }

  lemma SelfContinues(x: Setup, s: System, j: nat, t: System)
    requires Full(x, s) && j < x.net.n && s.counts.Running(SeamEntry(SelfRing(j)))
    requires s.sched.flow.slots[j].kind != DATAFLOW_STOP
    requires t == s.(counts := Finish(s.counts, SeamEntry(SelfRing(j)), true))
    ensures SelfOk(x, t, j)
  {
    var q := s.counts.Jumped(SelfRing(j));
    assert t.counts.Jumped(SelfRing(j)) == q + 1;
    if q >= 1 { ContinueSeesNoStop(x, s, j); }
  }

  /** Every action keeps everything. */
  lemma ActionKeepsFull(x: Setup, s: System, a: Action)
    requires Full(x, s) && Allowed(x, s, a)
    ensures Full(x, Apply(x, s, a))
  {
    ActionKeepsInv(x, s, a);
    ActionKeepsScript(x, s, a);
    ActionKeepsStops(x, s, a);
    ActionKeepsReports(x, s, a);
    ActionKeepsSeams(x, s, a);
  }

  /** The main thread stops after one stop event for every slot. */
  lemma ActionKeepsStops(x: Setup, s: System, a: Action)
    requires Inv(x, s) && StopsFit(x, s) && Allowed(x, s, a)
    ensures StopsFit(x, Apply(x, s, a))
  {
  }

  lemma ActionKeepsSeams(x: Setup, s: System, a: Action)
    requires Full(x, s) && Allowed(x, s, a)
    ensures Seams(x, Apply(x, s, a))
  {
    if a.CompleteNode? && a.node.SeamEntry? {
      EntryKeepsSeams(x, s, a.node.ring);
    } else {
      TakenGrows(x, s, a);
      SeamCountsSame(x, s, a);
      SeamsSame(x, s, Apply(x, s, a));
    }
  }

  lemma SeamCountsSame(x: Setup, s: System, a: Action)
    requires x.Valid() && Sane(x.config, s.sched) && AskingShape(x.config, s.asking) && Allowed(x, s, a)
    requires !(a.CompleteNode? && a.node.SeamEntry?)
    ensures var c, d := s.counts, Apply(x, s, a).counts;
      && (forall r :: d.Jumped(r) == c.Jumped(r))
      && (forall r :: d.Finished(SeamEntry(r)) == c.Finished(SeamEntry(r)))
  {
  }

  /** No action takes back an event. */
  lemma TakenGrows(x: Setup, s: System, a: Action)
    requires Full(x, s) && Allowed(x, s, a)
    ensures s.sched.flow.taken <= Apply(x, s, a).sched.flow.taken
  {
    if IsQuiet(a) {
      QuietActions(x, s, a);
    } else {
      match a {
        case AskFor(i, ts) => RequestExtends(x.config, s.sched, ts, i);
        case MainThread => MainTakes(x, s);
        case SetParameter(p) =>
          ScheduleExtends(x.config, s.sched.flow, ScheduledEvent(TIMESTAMP_ZERO, PARAMETER_CHANGE, [], p));
        case CompleteNode(v) =>
          EndsOldest(x, s, v.slot);
          FreeWindow(x.config, s.sched.flow);
      }
    }
  }

  lemma MainTakes(x: Setup, s: System)
    requires Shape(x.config, s.sched.flow)
    ensures s.sched.flow.taken <= MainStep(x, s).sched.flow.taken
  {
    if Submits(s.phase) { ScheduleExtends(x.config, s.sched.flow, ControlEvent(NextEvent(s.phase))); }
  }

  // ---- progress ------------------------------------------------------------------------------

  /** A seam is open for the oldest step unless a stop event has come. */
  lemma SeamIsOpen(x: Setup, s: System, r: Seam, k: nat)
    requires Full(x, s) && x.net.IsRing(r)
    requires R.StepOf(x.net.SeamSlot(r), k, x.net.n) == s.sched.flow.ended
    requires !StopBy(s.sched.flow, s.sched.flow.ended)
    ensures Open(s.counts, r, k)
  {
    var f, q := s.sched.flow, s.counts.Jumped(r);
    SeamDelays(x.net, s.counts, r);
    assert SeamOk(x, s, r);
    if q <= k {
      R.StepOfMonotone(x.net.SeamSlot(r), q, k, x.net.n);
      NoStopEarlier(f, R.StepOf(x.net.SeamSlot(r), q, x.net.n), f.ended);
    }
  }

  /**
    As long as no stop event has been taken up to the oldest step, the network is never at rest:
    the oldest step, or a seam that owes it a round, has a node that is running or may start.
  */
  lemma NeverAtRest(x: Setup, s: System) returns (v: Node)
    requires Full(x, s) && !StopBy(s.sched.flow, s.sched.flow.ended)
    ensures Active(x.net, s.counts, v)
    ensures v.Step? ==> v.slot == R.Slot(s.sched.flow.ended, x.net.n)
  {
    var e, n := s.sched.flow.ended, x.net.n;
    R.SlotBound(e, n);
    R.StepSplits(e, n);
    var j, k := R.Slot(e, n), R.Round(e, n);
    assert LogInOrder(x, s, TimeStepEnd);
    assert Oldest(x.net, s.counts, j, k);
    SeamIsOpen(x, s, SelfRing(j), k);
    if j == 0 {
      forall t | x.net.RunsInOrder(t)
        ensures Open(s.counts, TaskRing(t), k)
      {
        SeamIsOpen(x, s, TaskRing(t), k);
      }
    }
    v := OldestStepProgresses(x.net, s.counts, j, k);
  }

  /** A source task whose slot's promise is open. */
  predicate Blocked(x: Setup, s: System, i: nat, j: nat) {
    i < |x.net.sources| && s.counts.Running(Step(j, x.net.sources[i])) && (i, j) !in s.sched.flow.promises
  }

  /**
    Deadlock freedom: either some node may start or complete, or a source task of the oldest step
    waits for its source.
  */
  lemma DeadlockFree(x: Setup, s: System) returns (a: Action, i: nat)
    requires Full(x, s) && !StopBy(s.sched.flow, s.sched.flow.ended)
    ensures (Allowed(x, s, a) && (a.BeginNode? || a.CompleteNode?))
         || Blocked(x, s, i, R.Slot(s.sched.flow.ended, x.net.n))
  {
    var v := NeverAtRest(x, s);
    i := 0;
    if Enabled(x.net, s.counts, v) {
      a := BeginNode(v);
    } else {
      a := CompleteNode(v);
      if !Allowed(x, s, a) {
        i :| i < |x.net.sources| && x.net.sources[i] == v.task && (i, v.slot) !in s.sched.flow.promises;
      }
    }
  }
}
