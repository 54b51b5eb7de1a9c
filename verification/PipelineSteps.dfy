/** Every action keeps `Pipeline.Inv`, so every run does. */
module PipelineSteps {
  import opened Events
  import opened Network
  import opened Marking
  import opened SchedulerCore
  import opened SchedulerWindow
  import opened Requests
  import opened SourceInputs
  import opened DataflowSystem
  import opened Pipeline
  import SR = SourceRequests
  import R = Ring

  // ---- the scheduler between ends of steps ---------------------------------------------------

  /** Nothing that was taken or settled is taken back. */
  ghost predicate Extends(f: Flow, g: Flow) {
    && f.promises <= g.promises
    && f.taken <= g.taken
    && g.ended == f.ended
    && g.valid == f.valid
  }

  lemma ScheduleExtends(c: Config, f: Flow, ev: ScheduledEvent)
    requires Shape(c, f)
    ensures Extends(f, Schedule(c, f, ev))
  {
    var g := f.(queue := f.queue + [ev]);
    if g.free > 0 {
      var h := g.(free := g.free - 1);
      LoadExtends(c, h.(queue := h.queue[1..]), h.queue[0]);
    }
  }

  lemma LoadExtends(c: Config, f: Flow, ev: ScheduledEvent)
    requires Shape(c, f)
    ensures Extends(f, Load(c, f, ev))
  {
    var g := Load(c, f, ev);
    LoadFrame(c, f, ev);
    forall p | p in f.promises
      ensures p in g.promises
    {
      assert (p.0, p.1) in g.promises;
    }
  }

  lemma RequestExtends(c: Config, s: Sched, ts: int, i: nat)
    requires Sane(c, s) && i < c.sources && c.missingMode == WAIT_FOR_EVENT
    ensures Extends(s.flow, Request(c, s, ts, i).0.flow)
  {
    if !IsInvalidNext(c, s, ts, i) {
      var s1 := s.(clock := s.clock.NewTimestamp(ts, c.maxOffset), flow := CancelOlderEvents(c, s.flow, ts, i));
      assert Extends(s.flow, s1.flow);
      var j := FindRunning(c, s1.flow, ts, 0);
      if j < 0 && !(c.sourceMode == WAIT_FOR_BUFFER && IsScheduled(c, s1.flow, ts)) && !s.stopScheduled {
        var s2 := s1.(lastNew := s.lastNew[i := ts]);
        NewRequestExtends(c, s2, ts, i);
      }
    }
  }

  lemma NewRequestExtends(c: Config, s: Sched, ts: int, i: nat)
    requires Shape(c, s.flow)
    ensures Extends(s.flow, NewTimestampWait(c, s, ts, i).0.flow)
    ensures Extends(s.flow, NewTimestampImmediate(c, s, ts, i).0.flow)
  {
    var data, padding := DataEvent(s.clock.expected), PaddingEvent(s.clock.expected, i);
    ScheduleExtends(c, s.flow, data);
    ScheduleExtends(c, s.flow, padding);
    ScheduleShape(c, s.flow, padding);
    var p := SchedulePadding(c, s, i);
    ScheduleExtends(c, p.flow, DataEvent(p.clock.expected));
    if s.flow.free > 0 { LoadExtends(c, s.flow.(free := s.flow.free - 1), DataEvent(ts)); }
  }

  /** Actions of sources and of the main thread leave the links between graph and scheduler alone. */
  lemma ExtendsKeepsInv(x: Setup, s: System, t: System)
    requires Inv(x, s) && SR.Good(x.config, t.sched, t.asking)
    requires t.counts == s.counts && t.log == s.log && t.marks == s.marks
    requires Extends(s.sched.flow, t.sched.flow)
    ensures Inv(x, t)
  {
    var f, g := s.sched.flow, t.sched.flow;
    forall task | x.net.RunsInOrder(task)
      ensures LogInOrder(x, t, task)
      ensures task != TimeStepStart ==> LogSeesEvents(t, task)
    {
      assert LogInOrder(x, s, task);
      assert task != TimeStepStart ==> LogSeesEvents(s, task);
    }
    forall i: nat, j: nat | i < |x.net.sources| && j < x.net.n
      ensures SourceWaited(x, t, i, j)
    {
      assert SourceWaited(x, s, i, j);
    }
    forall k: nat | g.ended <= k < |g.taken|
      ensures MarksMatch(x, t, k)
    {
      if k < |f.taken| {
        assert MarksMatch(x, s, k);
      } else {
        assert Vacant(x.config, f, k);
        assert t.Marks(k) == s.Marks(k);
      }
    }
    forall k: nat | k >= |g.taken|
      ensures t.Marks(k) == {}
    {
      assert t.Marks(k) == s.Marks(k);
    }
  }

  lemma MarksSame(x: Setup, s: System, t: System)
    requires x.net.n >= 1 && MarksOk(x, s) && t.marks == s.marks
    requires t.sched.flow.valid == s.sched.flow.valid && t.sched.flow.taken == s.sched.flow.taken
    requires t.sched.flow.ended == s.sched.flow.ended
    ensures MarksOk(x, t)
  {
    assert forall k :: t.Marks(k) == s.Marks(k);
    forall k: nat | t.sched.flow.ended <= k < |t.sched.flow.taken|
      ensures MarksMatch(x, t, k)
    {
      assert MarksMatch(x, s, k);
    }
  }

  // ---- the task network ----------------------------------------------------------------------

  lemma BeginKeepsInv(x: Setup, s: System, v: Node)
    requires Inv(x, s) && Enabled(x.net, s.counts, v)
    ensures Inv(x, s.(counts := Begin(s.counts, v)))
  {
    var t := s.(counts := Begin(s.counts, v));
    BeginConsistent(x.net, s.counts, v);
    assert forall w :: t.counts.Finished(w) == s.counts.Finished(w);
    forall task | x.net.RunsInOrder(task)
      ensures LogInOrder(x, t, task)
    {
      assert LogInOrder(x, s, task);
      assert t.Log(task) == s.Log(task);
    }
    forall task | x.net.RunsInOrder(task) && task != TimeStepStart
      ensures LogSeesEvents(t, task)
    {
      assert LogSeesEvents(s, task);
    }
    forall i: nat, j: nat | i < |x.net.sources| && j < x.net.n
      ensures SourceWaited(x, t, i, j)
    {
      assert SourceWaited(x, s, i, j);
    }
    MarksSame(x, s, t);
  }

  /** Seams and TimeStepStart touch neither the scheduler nor the inputs. */
  lemma SeamKeepsInv(x: Setup, s: System, v: Node, again: bool)
    requires Inv(x, s) && IsNode(x.net, v) && s.counts.Running(v) && !v.Step?
    ensures Inv(x, s.(counts := Finish(s.counts, v, again)))
  {
    var t := s.(counts := Finish(s.counts, v, again));
    FinishConsistent(x.net, s.counts, v, again);
    assert forall j, task :: t.counts.Finished(Step(j, task)) == s.counts.Finished(Step(j, task));
    forall task | x.net.RunsInOrder(task)
      ensures LogInOrder(x, t, task)
      ensures task != TimeStepStart ==> LogSeesEvents(t, task)
    {
      assert LogInOrder(x, s, task);
      assert task != TimeStepStart ==> LogSeesEvents(s, task);
    }
    forall i: nat, j: nat | i < |x.net.sources| && j < x.net.n
      ensures SourceWaited(x, t, i, j)
    {
      assert SourceWaited(x, s, i, j);
    }
    MarksSame(x, s, t);
  }

  /** The logs after a task of slot `j` has finished. */
  lemma StepLogs(x: Setup, s: System, j: nat, task: Task, t: System)
    requires Inv(x, s) && IsNode(x.net, Step(j, task)) && Allowed(x, s, CompleteNode(Step(j, task)))
    requires t.counts == Finish(s.counts, Step(j, task), false)
    requires t.log == s.log[task := s.Log(task) + [s.sched.flow.slots[j]]]
    requires s.sched.flow.taken <= t.sched.flow.taken
    ensures forall b :: x.net.RunsInOrder(b) ==> LogInOrder(x, t, b)
    ensures forall b :: x.net.RunsInOrder(b) && b != TimeStepStart ==> LogSeesEvents(t, b)
  {
    assert forall w :: t.counts.Finished(w) == s.counts.Finished(w) + if w == Step(j, task) then 1 else 0;
    forall b | x.net.RunsInOrder(b)
      ensures LogInOrder(x, t, b)
      ensures b != TimeStepStart ==> LogSeesEvents(t, b)
    {
      if b == task {
        OwnLogInOrder(x, s, j, task, t);
        if task != TimeStepStart { OwnLogSees(x, s, j, task, t); }
      } else {
        assert LogInOrder(x, s, b);
        assert b != TimeStepStart ==> LogSeesEvents(s, b);
        assert t.Log(b) == s.Log(b);
      }
    }
  }

  lemma OwnLogInOrder(x: Setup, s: System, j: nat, task: Task, t: System)
    requires Inv(x, s) && IsNode(x.net, Step(j, task)) && s.counts.Running(Step(j, task))
    requires x.net.RunsInOrder(task)
    requires t.counts == Finish(s.counts, Step(j, task), false)
    requires t.log == s.log[task := s.Log(task) + [s.sched.flow.slots[j]]]
    ensures LogInOrder(x, t, task)
  {
    var n := x.net.n;
    RunsNext(x, s, j, task);
    assert LogInOrder(x, s, task);
    forall i: nat | i < n
      ensures t.counts.Finished(Step(i, task)) == R.Uses(|t.Log(task)|, i, n)
    {
      R.UsesStep(|s.Log(task)|, i, n);
    }
  }

  lemma OwnLogSees(x: Setup, s: System, j: nat, task: Task, t: System)
    requires Inv(x, s) && IsNode(x.net, Step(j, task)) && Allowed(x, s, CompleteNode(Step(j, task)))
    requires x.net.RunsInOrder(task) && task != TimeStepStart
    requires t.log == s.log[task := s.Log(task) + [s.sched.flow.slots[j]]]
    requires s.sched.flow.taken <= t.sched.flow.taken
    ensures LogSeesEvents(t, task)
  {
    NextIsSeen(x, s, j, task);
    LogGrows(s, task, t, s.sched.flow.slots[j]);
  }

  /** The slot of the running copy shows the event with the log's next number. */
  lemma NextIsSeen(x: Setup, s: System, j: nat, task: Task)
    requires Inv(x, s) && IsNode(x.net, Step(j, task)) && Allowed(x, s, CompleteNode(Step(j, task)))
    requires x.net.RunsInOrder(task) && task != TimeStepStart
    ensures |s.Log(task)| < |s.sched.flow.taken| && Sees(s.sched.flow.slots[j], s.sched.flow.taken[|s.Log(task)|])
    ensures LogSeesEvents(s, task)
  {
    assert LogSeesEvents(s, task);
    RunsNext(x, s, j, task);
    RunsItsEvent(x, s, j, task);
  }

  lemma LogGrows(s: System, task: Task, t: System, e: SlotEvent)
    requires LogSeesEvents(s, task) && |s.Log(task)| < |s.sched.flow.taken|
    requires Sees(e, s.sched.flow.taken[|s.Log(task)|])
    requires t.log == s.log[task := s.Log(task) + [e]] && s.sched.flow.taken <= t.sched.flow.taken
    ensures LogSeesEvents(t, task)
  {
  }

  lemma TaskKeepsInv(x: Setup, s: System, j: nat, task: Task)
    requires Inv(x, s) && Allowed(x, s, CompleteNode(Step(j, task))) && task != TimeStepEnd
    ensures Inv(x, Complete(x, s, Step(j, task)))
  {
    var t := Complete(x, s, Step(j, task));
    FinishConsistent(x.net, s.counts, Step(j, task), false);
    StepLogs(x, s, j, task, t);
    assert forall w :: t.counts.Finished(w) == s.counts.Finished(w) + if w == Step(j, task) then 1 else 0;
    forall i: nat, k: nat | i < |x.net.sources| && k < x.net.n
      ensures SourceWaited(x, t, i, k)
    {
      assert SourceWaited(x, s, i, k);
    }
    MarksSame(x, s, t);
  }

  // ---- the end of a step ---------------------------------------------------------------------

  /** Ending a step resets its slot's promises and flags and no other slot's. */
  lemma FreeTouchesSlot(c: Config, f: Flow, s: nat)
    requires Window(c, f) && f.ended < |f.taken| && s == R.Slot(f.ended, c.slots)
    ensures s < c.slots
    ensures var g := FreeTimeStep(c, f, s);
      && f.taken <= g.taken
      && (forall i: nat, j: nat :: j != s ==> ((i, j) in g.promises <==> (i, j) in f.promises))
      && (forall i: nat, j: nat :: (i, j) in g.valid <==> j != s && (i, j) in f.valid)
  {
    FreeWindow(c, f);
    var g := Vacate(c, f, s);
    if g.queue != [] { LoadFrame(c, g.(queue := g.queue[1..]), g.queue[0]); }
  }

  /** TimeStepEnd ends the oldest step in flight, with all its inputs settled. */
  lemma EndsOldest(x: Setup, s: System, j: nat)
    requires Inv(x, s) && j < x.net.n && s.counts.Running(Step(j, TimeStepEnd))
    ensures j == R.Slot(s.sched.flow.ended, x.net.n) && s.sched.flow.ended < |s.sched.flow.taken|
    ensures AllSettled(x.config, s.sched.flow, j)
  {
    RunsNext(x, s, j, TimeStepEnd);
    RunsItsEvent(x, s, j, TimeStepEnd);
    EndIsSettled(x, s, j);
  }

  lemma EndKeepsInv(x: Setup, s: System, j: nat)
    requires Inv(x, s) && Allowed(x, s, CompleteNode(Step(j, TimeStepEnd)))
    ensures Inv(x, Complete(x, s, Step(j, TimeStepEnd)))
  {
    var v := Step(j, TimeStepEnd);
    var t := Complete(x, s, v);
    EndsOldest(x, s, j);
    EndScheduler(x, s, j);
    FinishConsistent(x.net, s.counts, v, false);
    EndLogLength(x, s, j, t);
    StepLogs(x, s, j, TimeStepEnd, t);
    EndKeepsLinks(x, s, j, t);
    EndKeepsMarks(x, s, j, t);
  }

  lemma EndScheduler(x: Setup, s: System, j: nat)
    requires Inv(x, s) && j == R.Slot(s.sched.flow.ended, x.net.n) && s.sched.flow.ended < |s.sched.flow.taken|
    requires j < x.net.n && AllSettled(x.config, s.sched.flow, j)
    ensures var t := TimeStepEnded(x.config, s.sched, j);
      && SR.Good(x.config, t, s.asking)
      && t.flow.ended == s.sched.flow.ended + 1
      && s.sched.flow.taken <= t.flow.taken
      && (forall i: nat, k: nat :: k != j ==> ((i, k) in t.flow.promises <==> (i, k) in s.sched.flow.promises))
      && (forall i: nat, k: nat :: (i, k) in t.flow.valid <==> k != j && (i, k) in s.sched.flow.valid)
  {
    SR.EndGood(x.config, s.sched, s.asking);
    FreeWindow(x.config, s.sched.flow);
    FreeTouchesSlot(x.config, s.sched.flow, j);
  }

  lemma EndLogLength(x: Setup, s: System, j: nat, t: System)
    requires Inv(x, s) && j < x.net.n && t.sched.flow.ended == s.sched.flow.ended + 1
    requires t.log == s.log[TimeStepEnd := s.Log(TimeStepEnd) + [s.sched.flow.slots[j]]]
    ensures |t.Log(TimeStepEnd)| == t.sched.flow.ended
  {
  }

  lemma EndKeepsLinks(x: Setup, s: System, j: nat, t: System)
    requires Inv(x, s) && j < x.net.n && s.counts.Running(Step(j, TimeStepEnd))
    requires t.counts == Finish(s.counts, Step(j, TimeStepEnd), false)
    requires forall i: nat, k: nat :: k != j ==>
      ((i, k) in t.sched.flow.promises <==> (i, k) in s.sched.flow.promises)
    ensures forall i: nat, k: nat :: i < |x.net.sources| && k < x.net.n ==> SourceWaited(x, t, i, k)
  {
    forall i: nat, k: nat | i < |x.net.sources| && k < x.net.n
      ensures SourceWaited(x, t, i, k)
    {
      assert SourceWaited(x, s, i, k);
      if k == j {
        var src := x.net.sources[i];
        assert src in x.net.sources;
        SlotWindow(x.net, s.counts, j, src);
      }
    }
  }

  lemma EndKeepsMarks(x: Setup, s: System, j: nat, t: System)
    requires x.net.n >= 1 && x.config.slots == x.net.n && Window(x.config, s.sched.flow) && MarksOk(x, s)
    requires j == R.Slot(s.sched.flow.ended, x.net.n) && s.sched.flow.ended < |s.sched.flow.taken|
    requires Window(x.config, t.sched.flow) && t.marks == s.marks
    requires t.sched.flow.ended == s.sched.flow.ended + 1 && s.sched.flow.taken <= t.sched.flow.taken
    requires forall i: nat, k: nat :: (i, k) in t.sched.flow.valid <==> k != j && (i, k) in s.sched.flow.valid
    ensures MarksOk(x, t)
  {
    var f, g, n := s.sched.flow, t.sched.flow, x.net.n;
    forall k: nat | g.ended <= k < |g.taken|
      ensures MarksMatch(x, t, k)
    {
      assert t.Marks(k) == s.Marks(k);
      if k < |f.taken| {
        assert MarksMatch(x, s, k);
        WindowInjectiveFact(f.ended, k, f.ended, n);
      } else if k < f.ended + n {
        assert Vacant(x.config, f, k);
      } else {
        R.Wraps(f.ended, n);
      }
    }
    forall k: nat | k >= |g.taken|
      ensures t.Marks(k) == {}
    {
      assert t.Marks(k) == s.Marks(k);
    }
  }

  // ---- writing outputs -----------------------------------------------------------------------

  /** A task that writes does so for the step its slot is on. */
  lemma WriterInFlight(x: Setup, s: System, j: nat, task: Task)
    requires Inv(x, s) && j < x.net.n && task in x.net.tasks && Writes(x, s, j, task)
    ensures var k := CurrentStep(x, s, j);
      s.sched.flow.ended <= k < |s.sched.flow.taken| && R.Slot(k, x.net.n) == j && s.sched.flow.running[j]
  {
    assert LogInOrder(x, s, TimeStepEnd);
    if task in x.net.sources {
      var i :| 0 <= i < |x.net.sources| && x.net.sources[i] == task && s.asking.states[i] == Holding(j);
      assert SourceOk(x.config, s.sched.flow, s.asking, i);
      RunningInFlight(x, s, j);
    } else {
      RunningRound(x, s, j, task);
      var i := SettledSource(x, s, j, task);
      PromiseInFlight(x, s, i, j);
    }
  }

  lemma RunningInFlight(x: Setup, s: System, j: nat)
    requires Inv(x, s) && j < x.net.n && s.sched.flow.running[j]
    ensures var k := R.StepOf(j, R.Uses(s.sched.flow.ended, j, x.net.n), x.net.n);
      s.sched.flow.ended <= k < |s.sched.flow.taken| && R.Slot(k, x.net.n) == j
  {
    var f, c := s.sched.flow, x.config;
    var u := R.Uses(f.ended, j, x.net.n);
    var k := R.StepOf(j, u, x.net.n);
    R.WindowStep(f.ended, j, x.net.n);
    R.SplitStep(j, u, x.net.n);
    assert k >= |f.taken| ==> Vacant(c, f, k);
  }

  lemma WriteKeepsMarks(x: Setup, s: System, j: nat, c: nat, isValid: bool)
    requires Inv(x, s) && j < x.net.n
    requires var k0 := CurrentStep(x, s, j);
      s.sched.flow.ended <= k0 < |s.sched.flow.taken| && R.Slot(k0, x.net.n) == j
    ensures MarksOk(x, Write(x, s, j, c, isValid))
  {
    var t := Write(x, s, j, c, isValid);
    var k0 := CurrentStep(x, s, j);
    forall k: nat | t.sched.flow.ended <= k < |t.sched.flow.taken|
      ensures MarksMatch(x, t, k)
    {
      assert MarksMatch(x, s, k);
      if k != k0 { WindowInjectiveFact(s.sched.flow.ended, k, k0, x.net.n); }
    }
    forall k: nat | k >= |t.sched.flow.taken|
      ensures t.Marks(k) == {}
    {
      assert s.Marks(k) == {};
    }
  }

  lemma WriteKeepsInv(x: Setup, s: System, j: nat, c: nat, isValid: bool)
    requires Inv(x, s) && Allowed(x, s, WriteCell(j, c, isValid))
    ensures Inv(x, Write(x, s, j, c, isValid))
  {
    var t := Write(x, s, j, c, isValid);
    WriterInFlight(x, s, j, x.cells[c]);
    WriteKeepsGood(x, s, j, c, isValid);
    WriteKeepsMarks(x, s, j, c, isValid);
    forall task | x.net.RunsInOrder(task)
      ensures LogInOrder(x, t, task)
      ensures task != TimeStepStart ==> LogSeesEvents(t, task)
    {
      assert LogInOrder(x, s, task);
      assert task != TimeStepStart ==> LogSeesEvents(s, task);
    }
    forall i: nat, k: nat | i < |x.net.sources| && k < x.net.n
      ensures SourceWaited(x, t, i, k)
    {
      assert SourceWaited(x, s, i, k);
    }
  }

  /** The scheduler's invariants do not mention the valid flags of running slots. */
  lemma WriteKeepsGood(x: Setup, s: System, j: nat, c: nat, isValid: bool)
    requires Inv(x, s) && j < x.net.n && s.sched.flow.running[j]
    ensures SR.Good(x.config, Write(x, s, j, c, isValid).sched, s.asking)
  {
    var t := Write(x, s, j, c, isValid).sched;
    var f, g := s.sched.flow, t.flow;
    SameSlots(x.config, f, g);
    forall i: nat, k: nat | i < x.config.sources && k < x.config.slots && g.running[k]
      ensures InputOk(x.config, g, s.asking, i, k)
    {
      assert InputOk(x.config, f, s.asking, i, k);
    }
    forall i: nat | i < x.config.sources
      ensures SourceOk(x.config, g, s.asking, i)
    {
      assert SourceOk(x.config, f, s.asking, i);
    }
    SR.FramesSame(x.config, s.sched, t);
  }

  // ---- every action --------------------------------------------------------------------------

  lemma NodeKeepsInv(x: Setup, s: System, v: Node)
    requires Inv(x, s) && Allowed(x, s, CompleteNode(v))
    ensures Inv(x, Complete(x, s, v))
  {
    if v.Step? && v.task == TimeStepEnd {
      EndKeepsInv(x, s, v.slot);
    } else if v.Step? {
      TaskKeepsInv(x, s, v.slot, v.task);
    } else if v.SeamEntry? {
      SeamKeepsInv(x, s, v, s.sched.flow.slots[x.net.SeamSlot(v.ring)].kind != DATAFLOW_STOP);
    } else {
      SeamKeepsInv(x, s, v, false);
    }
  }

  lemma AskKeepsInv(x: Setup, s: System, i: nat, ts: int)
    requires Inv(x, s) && Allowed(x, s, AskFor(i, ts))
    ensures Inv(x, Asked(x, s, i, ts))
  {
    SR.RequestGood(x.config, s.sched, s.asking, ts, i);
    RequestExtends(x.config, s.sched, ts, i);
    ExtendsKeepsInv(x, s, Asked(x, s, i, ts));
  }

  lemma AwakeKeepsInv(x: Setup, s: System, i: nat)
    requires Inv(x, s) && Allowed(x, s, Awake(i))
    ensures Inv(x, Awoken(x, s, i))
  {
    SR.ResolveGood(x.config, s.sched, s.asking, i);
    ExtendsKeepsInv(x, s, Awoken(x, s, i));
  }

  lemma DeliverKeepsInv(x: Setup, s: System, i: nat)
    requires Inv(x, s) && Allowed(x, s, Deliver(i))
    ensures Inv(x, Delivered(x, s, i))
  {
    SR.CommitGood(x.config, s.sched, s.asking, i);
    ExtendsKeepsInv(x, s, Delivered(x, s, i));
  }

  lemma MainKeepsInv(x: Setup, s: System)
    requires Inv(x, s)
    ensures Inv(x, MainStep(x, s))
  {
    MainGood(x, s);
    ExtendsKeepsInv(x, s, MainStep(x, s));
  }

  /** What the main thread schedules keeps the scheduler's invariants and touches nothing else. */
  lemma MainGood(x: Setup, s: System)
    requires SR.Good(x.config, s.sched, s.asking)
    ensures var t := MainStep(x, s);
      && SR.Good(x.config, t.sched, t.asking) && Extends(s.sched.flow, t.sched.flow)
      && t.counts == s.counts && t.log == s.log && t.marks == s.marks
  {
    if Submits(s.phase) { SubmitGood(x, s, NextEvent(s.phase)); }
  }

  lemma SubmitGood(x: Setup, s: System, kind: EventType)
    requires SR.Good(x.config, s.sched, s.asking) && kind != DATA
    ensures var t := ScheduleControl(x.config, s.sched, kind);
      SR.Good(x.config, t, s.asking) && Extends(s.sched.flow, t.flow)
  {
    SR.ControlGood(x.config, s.sched, s.asking, ControlEvent(kind));
    ScheduleExtends(x.config, s.sched.flow, ControlEvent(kind));
  }

  lemma ParameterKeepsInv(x: Setup, s: System, p: string)
    requires Inv(x, s)
    ensures Inv(x, s.(sched := ChangeParameter(x.config, s.sched, p)))
  {
    var ev := ScheduledEvent(TIMESTAMP_ZERO, PARAMETER_CHANGE, [], p);
    SR.ControlGood(x.config, s.sched, s.asking, ev);
    ScheduleExtends(x.config, s.sched.flow, ev);
    ExtendsKeepsInv(x, s, s.(sched := ChangeParameter(x.config, s.sched, p)));
  }

  /** Every action of every component keeps the invariant. */
  lemma ActionKeepsInv(x: Setup, s: System, a: Action)
    requires Inv(x, s) && Allowed(x, s, a)
    ensures Inv(x, Apply(x, s, a))
  {
    match a {
      case BeginNode(v) => BeginKeepsInv(x, s, v);
      case CompleteNode(v) => NodeKeepsInv(x, s, v);
      case WriteCell(j, c, isValid) => WriteKeepsInv(x, s, j, c, isValid);
      case MainThread => MainKeepsInv(x, s);
      case SetParameter(p) => ParameterKeepsInv(x, s, p);
      case AskFor(i, ts) => AskKeepsInv(x, s, i, ts);
      case Awake(i) => AwakeKeepsInv(x, s, i);
      case Deliver(i) => DeliverKeepsInv(x, s, i);
    }
  }
}
