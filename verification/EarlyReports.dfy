/**
  The scheduler looks at a slot's event kind after it has freed the slot. If an event was queued, the
  slot already holds that event. So a control event that had to wait is reported finished the moment
  it is loaded, and one whose step ends while a frame waits is not reported at all. Runs show both.
*/
module EarlyReports {
  import opened Events
  import opened Network
  import opened Marking
  import opened SchedulerCore
  import opened SchedulerWindow
  import opened Requests
  import opened SourceInputs
  import opened DataflowSystem
  import opened Pipeline
  import opened PipelineSteps
  import opened PipelineTheorems
  import opened Lifecycle
  import opened Progress
  import opened Reachability
  import opened Liveness
  import opened Overtaking
  import R = Ring
  import SR = SourceRequests
  import Runs

  // ---- START can miss its report -------------------------------------------------------------

  /** START's step has ended, but START was not reported. */
  ghost predicate StartMissed(s: System) {
    && START in s.direct && !Reported(s, START)
    && exists k: nat :: k < s.sched.flow.ended && IsPlaceOf(s, START, k)
  }

  /** When START's step ends, START is reported if and only if no event is queued. */
  lemma StartReport(x: Setup, s: System, j: nat)
    requires Full(x, s) && j < x.net.n && s.counts.Running(Step(j, TimeStepEnd)) && START in s.direct
    requires IsPlaceOf(s, START, s.sched.flow.ended)
    ensures var t := Complete(x, s, Step(j, TimeStepEnd));
      && (Reported(t, START) <==> s.sched.flow.queue == [])
      && (StartMissed(t) <==> s.sched.flow.queue != [])
  {
    var e, f, h := s.sched.flow.ended, s.sched.flow, History(s.sched.flow);
    EndsOldest(x, s, j);
    KindReadAtEnd(x, s, j);
    assert ReportOk(s, START, e);
    if f.queue != [] && f.queue[0].kind == START {
      assert h[|f.taken|] == f.queue[0];
      assert IsPlaceOf(s, START, |f.taken|);
      PlaceUnique(s, START, e, |f.taken|);
    }
    assert IsPlaceOf(Complete(x, s, Step(j, TimeStepEnd)), START, e);
  }

  lemma MissedMeansStarting(x: Setup, s: System)
    requires Full(x, s) && StartMissed(s)
    ensures s.phase.Starting?
  {
    var k: nat :| k < s.sched.flow.ended && IsPlaceOf(s, START, k);
    assert Fits(History(s.sched.flow)[k].kind, k, |History(s.sched.flow)|, Tail(s.phase));
  }

  /** The kind read at the end of a later step is not START. */
  lemma MissedAtEnd(x: Setup, s: System, j: nat)
    requires Inv(x, s) && Script(s) && StartMissed(s) && j < x.net.n && s.counts.Running(Step(j, TimeStepEnd))
    ensures StartMissed(Complete(x, s, Step(j, TimeStepEnd)))
  {
    var k: nat :| k < s.sched.flow.ended && IsPlaceOf(s, START, k);
    EndsOldest(x, s, j);
    StillMissed(x, s, j, k);
    assert IsPlaceOf(Complete(x, s, Step(j, TimeStepEnd)), START, k);
  }

  lemma StillMissed(x: Setup, s: System, j: nat, k: nat)
    requires Inv(x, s) && Script(s) && j < x.net.n && j == R.Slot(s.sched.flow.ended, x.net.n)
    requires IsPlaceOf(s, START, k) && k < s.sched.flow.ended < |s.sched.flow.taken| && !Reported(s, START)
    ensures var t := TimeStepEnded(x.config, s.sched, j);
      START !in t.signals && History(t.flow) == History(s.sched.flow) && t.flow.ended == s.sched.flow.ended + 1
  {
    KindReadAtEnd(x, s, j);
    LaterIsNotStart(s, k);
  }

  lemma LaterIsNotStart(s: System, k: nat)
    requires Script(s) && IsPlaceOf(s, START, k) && k < s.sched.flow.ended < |s.sched.flow.taken|
    ensures s.sched.flow.taken[s.sched.flow.ended].kind != START
    ensures s.sched.flow.queue != [] ==> s.sched.flow.queue[0].kind != START
  {
    var f, h := s.sched.flow, History(s.sched.flow);
    if h[f.ended].kind == START { PlaceUnique(s, START, k, f.ended); }
    if f.queue != [] && h[|f.taken|].kind == START { PlaceUnique(s, START, k, |f.taken|); }
  }

  lemma MissedStays(x: Setup, s: System, a: Action)
    requires Full(x, s) && StartMissed(s) && Allowed(x, s, a)
    ensures StartMissed(Apply(x, s, a)) && Apply(x, s, a).phase.Starting?
  {
    var k: nat :| k < s.sched.flow.ended && IsPlaceOf(s, START, k);
    MissedMeansStarting(x, s);
    if IsQuiet(a) {
      QuietActions(x, s, a);
      assert IsPlaceOf(Apply(x, s, a), START, k);
    } else if a.AskFor? {
      RequestHistory(x.config, s.sched, a.timestamp, a.source);
      RequestExtends(x.config, s.sched, a.timestamp, a.source);
      assert IsPlaceOf(Apply(x, s, a), START, k);
    } else if a.CompleteNode? {
      MissedAtEnd(x, s, a.node.slot);
    }
  }

  /** Once START has missed its report, `start()` waits for it forever, whatever else happens. */
  lemma StartNeverReturns(x: Setup, states: seq<System>, actions: seq<Action>, i: nat)
    requires Runs.IsStretch(Steps(x), states, actions) && i < |states|
    requires Full(x, states[0]) && StartMissed(states[0])
    ensures states[i].phase.Starting? && !Reported(states[i], START)
  {
    var inv := (s: System) => Full(x, s) && StartMissed(s);
    forall s, a, t | inv(s) && Steps(x)(s, a, t)
      ensures inv(t)
    {
      ActionKeepsFull(x, s, a);
      MissedStays(x, s, a);
    }
    Runs.Keeps(Steps(x), inv, states, actions, i);
    MissedMeansStarting(x, states[i]);
  }

  // ---- the beginning of a run ----------------------------------------------------------------

  /** No source has asked, and nothing is being stopped. */
  predicate Untouched(x: Setup, s: System) {
    && s.sched == Start(x.config, x.delta).(flow := s.sched.flow, signals := s.sched.signals)
    && s.asking == InitialAsking(x.config)
  }

  /** The events of the scheduler: taken, queued, and how many have ended. */
  predicate Holds(s: System, taken: seq<ScheduledEvent>, queue: seq<ScheduledEvent>, ended: nat) {
    s.sched.flow.taken == taken && s.sched.flow.queue == queue && s.sched.flow.ended == ended
  }

  predicate HasRoom(x: Setup, s: System) {
    |s.sched.flow.taken| < s.sched.flow.ended + x.net.n
  }

  /** An event scheduled runs at once if the ring has room, and is queued otherwise. */
  ghost predicate IsScheduledNow(x: Setup, s: System, t: System, ev: ScheduledEvent) {
    if HasRoom(x, s) then Holds(t, s.sched.flow.taken + [ev], [], s.sched.flow.ended)
    else Holds(t, s.sched.flow.taken, s.sched.flow.queue + [ev], s.sched.flow.ended)
  }

  lemma Schedules(c: Config, f: Flow, ev: ScheduledEvent)
    requires Window(c, f)
    ensures var g := Schedule(c, f, ev);
      && g.ended == f.ended
      && (|f.taken| < f.ended + c.slots ==> f.queue == [] && g.taken == f.taken + [ev] && g.queue == [])
      && (|f.taken| >= f.ended + c.slots ==> g.taken == f.taken && g.queue == f.queue + [ev])
  {
    ScheduleWindow(c, f, ev);
  }

  lemma MainSubmits(x: Setup, s: System, kind: EventType, next: Phase) returns (t: System)
    requires Reachable(x, s) && MainMayGo(x, s)
    requires Shape(x.config, s.sched.flow) ==> MainStep(x, s) == Submit(x, s, kind, next)
    ensures Reachable(x, t) && IsScheduledNow(x, s, t, ControlEvent(kind))
    ensures t == s.(sched := s.sched.(flow := t.sched.flow, stopScheduled := s.sched.stopScheduled || kind == STOP),
                    direct := if HasRoom(x, s) then s.direct + {kind} else s.direct, phase := next)
    ensures s.sched.flow.promises <= t.sched.flow.promises
  {
    MainReaches(x, s);
    ScheduleExtends(x.config, s.sched.flow, ControlEvent(kind));
    ReachableIsFull(x, s);
    Schedules(x.config, s.sched.flow, ControlEvent(kind));
    t := MainStep(x, s);
  }

  /** The oldest step's end hands the slot on to the queue's head. */
  ghost predicate IsHandedOn(s: System, t: System)
    requires s.sched.flow.ended < |s.sched.flow.taken|
  {
    var f := s.sched.flow;
    var kind := if f.queue == [] then f.taken[f.ended].kind else f.queue[0].kind;
    && t.sched.signals == (if IsAwaited(kind) then s.sched.signals + {kind} else s.sched.signals)
    && if f.queue == [] then Holds(t, f.taken, [], f.ended + 1)
       else Holds(t, f.taken + [f.queue[0]], f.queue[1..], f.ended + 1)
  }

  lemma HandsOn(x: Setup, s: System, t: System)
    requires Full(x, s) && s.sched.flow.ended < |s.sched.flow.taken| && OnlyEnded(x, s, t)
    ensures IsHandedOn(s, t)
  {
    KindReadAtEnd(x, s, R.Slot(s.sched.flow.ended, x.net.n));
    FreesOldest(x.config, s.sched.flow);
  }

  lemma FreesOldest(c: Config, f: Flow)
    requires Window(c, f) && f.ended < |f.taken|
    ensures R.Slot(f.ended, c.slots) < c.slots
    ensures var g := FreeTimeStep(c, f, R.Slot(f.ended, c.slots));
      if f.queue == [] then g.taken == f.taken && g.queue == []
      else g.taken == f.taken + [f.queue[0]] && g.queue == f.queue[1..]
  {
    R.SlotBound(f.ended, c.slots);
    if f.queue == [] { FreeToPool(c, f); } else { FreeToQueue(c, f); }
  }

  /** A control event that runs gets to its end. */
  lemma ControlHandsOn(x: Setup, s: System) returns (t: System)
    requires Reachable(x, s) && s.sched.flow.ended < |s.sched.flow.taken|
    requires s.sched.flow.taken[s.sched.flow.ended].kind != DATA
    requires forall k :: 0 <= k <= s.sched.flow.ended ==> !IsStop(s.sched.flow.taken[k])
    ensures Reachable(x, t) && IsHandedOn(s, t)
    ensures t == s.(counts := t.counts, log := t.log,
                    sched := s.sched.(flow := t.sched.flow, signals := t.sched.signals))
  {
    t := ControlEnds(x, s);
    ReachableIsFull(x, s);
    HandsOn(x, s, t);
  }

  const CONFIGURED := [ControlEvent(CONFIGURE), ControlEvent(START)]

  /** The run in which CONFIGURE has been reported and START runs. */
  lemma Starts(x: Setup) returns (t: System)
    requires x.Valid()
    ensures Reachable(x, t) && t.phase == Starting && Untouched(x, t) && Holds(t, CONFIGURED, [], 1)
    ensures t.sched.signals == {CONFIGURE} && t.direct == {CONFIGURE, START}
  {
    InitialIsReachable(x);
    var u := MainSubmits(x, InitialSystem(x), CONFIGURE, Configuring);
    var v := ControlHandsOn(x, u);
    t := MainSubmits(x, v, START, Starting);
  }

  /** The run in which `start()` has returned. */
  lemma IsStartedUp(x: Setup) returns (t: System)
    requires x.Valid()
    ensures Reachable(x, t) && t.phase == Started && Untouched(x, t) && Holds(t, CONFIGURED, [], 2)
    ensures t.sched.signals == {CONFIGURE, START} && t.direct == {CONFIGURE, START}
  {
    var s := Starts(x);
    var u := ControlHandsOn(x, s);
    MainReaches(x, u);
    t := MainStep(x, u);
  }

  // ---- TEARDOWN can be reported while it runs ------------------------------------------------

  function Change(): ScheduledEvent { ScheduledEvent(TIMESTAMP_ZERO, PARAMETER_CHANGE, [], "") }

  function Changes(k: nat): seq<ScheduledEvent> { seq(k, _ => Change()) }

  lemma ParameterChanges(x: Setup, s: System) returns (t: System)
    requires Reachable(x, s) && s.phase == Started
    ensures Reachable(x, t) && IsScheduledNow(x, s, t, Change())
    ensures t == s.(sched := s.sched.(flow := t.sched.flow))
  {
    ReachableIsFull(x, s);
    Schedules(x.config, s.sched.flow, Change());
    ActionReaches(x, s, SetParameter(""));
    t := Apply(x, s, SetParameter(""));
  }

  /** A started dataflow with some parameter changes running. */
  ghost predicate Changing(x: Setup, s: System, k: nat) {
    && Reachable(x, s) && s.phase == Started && Untouched(x, s) && Holds(s, CONFIGURED + Changes(k), [], 2)
    && s.direct == {CONFIGURE, START}
  }

  lemma {:induction false} FillsUp(x: Setup, k: nat) returns (t: System)
    requires x.Valid() && k <= x.net.n
    ensures Changing(x, t, k)
  {
    if k == 0 {
      t := IsStartedUp(x);
      assert CONFIGURED + Changes(0) == CONFIGURED;
    } else {
      var s := FillsUp(x, k - 1);
      t := ParameterChanges(x, s);
      assert CONFIGURED + Changes(k - 1) + [Change()] == CONFIGURED + Changes(k);
    }
  }

  /** The clock and the sources are as at the start. */
  predicate NobodyAsked(x: Setup, s: System) {
    && s.sched.clock == Start(x.config, x.delta).clock && s.sched.lastNew == Start(x.config, x.delta).lastNew
    && s.asking == InitialAsking(x.config)
  }

  /** The events of a run that is stopped while the ring is full of parameter changes. */
  function Filled(n: nat): seq<ScheduledEvent> { CONFIGURED + Changes(n) }

  /** With the ring full of parameter changes, STOP has to wait, and is reported when it is loaded. */
  lemma StopWaits(x: Setup) returns (t: System)
    requires x.Valid()
    ensures Reachable(x, t) && t.phase == Stopping && NobodyAsked(x, t) && STOP in t.sched.signals
    ensures Holds(t, Filled(x.net.n) + [ControlEvent(STOP)], [], 3) && t.direct == {CONFIGURE, START}
  {
    var s := FillsUp(x, x.net.n);
    assert Filled(x.net.n)[2] == Change();
    var u := MainSubmits(x, s, STOP, Stopping);
    t := ControlHandsOn(x, u);
  }

  /** And then so has TEARDOWN. */
  lemma TeardownQueued(x: Setup) returns (t: System)
    requires x.Valid()
    ensures Reachable(x, t) && t.phase == TearingDown && NobodyAsked(x, t) && TEARDOWN !in t.direct
    ensures Holds(t, Filled(x.net.n) + [ControlEvent(STOP)], [ControlEvent(TEARDOWN)], 3)
  {
    var s := StopWaits(x);
    t := MainSubmits(x, s, TEARDOWN, TearingDown);
  }

  lemma TeardownWaits(x: Setup) returns (t: System)
    requires x.Valid()
    ensures Reachable(x, t) && Live(x, t) && Tearing(t, x.net.n + 3) && TEARDOWN !in t.direct
  {
    t := TeardownQueued(x);
    assert History(t.sched.flow) == Filled(x.net.n) + [ControlEvent(STOP), ControlEvent(TEARDOWN)];
    ReachableIsFull(x, t);
    QuietIsLive(x, t);
  }

  /** While no source has asked and no frame is scheduled, none is held up or waited for. */
  lemma QuietIsLive(x: Setup, s: System)
    requires Full(x, s) && NobodyAsked(x, s)
    requires forall k :: 0 <= k < |History(s.sched.flow)| ==> History(s.sched.flow)[k].kind != DATA
    ensures Live(x, s)
  {
  }

  /**
    A run, in every dataflow, in which `stop()` goes on to the final stop events while TEARDOWN still
    runs: it is called while the ring is full of parameter changes.
  */
  lemma TeardownReportedWhileRunning(x: Setup) returns (t: System, k: nat)
    requires x.Valid()
    ensures Reachable(x, t) && IsPlaceOf(t, TEARDOWN, k) && Overtaken(t, k)
  {
    var s := TeardownWaits(x);
    k := x.net.n + 3;
    ReachableIsFull(x, s);
    OvertakenExactly(x, s, k);
    t :| Runs.Leads(Steps(x), s, t) && Overtaken(t, k);
    GoesOn(x, s, t);
    PlaceIsKept(x, s, t, k);
  }

  // ---- START can miss its report in a run ----------------------------------------------------

  /**
    A run, in every dataflow with one slot, in which START misses its report: a thread that a
    component's start method has begun asks for a frame before START has ended.
  */
  lemma StartMissesItsReport(x: Setup) returns (t: System)
    requires x.Valid() && x.net.n == 1 && x.config.sourceMode == WAIT_FOR_BUFFER
    ensures Reachable(x, t) && StartMissed(t)
  {
    var s := Starts(x);
    var u := FirstRequest(x, s, 0, 2 * x.config.maxOffset + 1);
    t := ControlHandsOn(x, u);
    assert IsPlaceOf(t, START, 1);
  }

  /** The very first request sets the clock and schedules its own frame. */
  lemma FirstRequest(x: Setup, s: System, i: nat, ts: int) returns (t: System)
    requires Reachable(x, s) && x.config.sourceMode == WAIT_FOR_BUFFER
    requires Untouched(x, s) && ts > 2 * x.config.maxOffset && i < x.config.sources
    requires s.sched.flow.taken == CONFIGURED && s.sched.flow.queue == [] && 1 <= s.sched.flow.ended <= 2
    ensures Reachable(x, t) && IsScheduledNow(x, s, t, DataEvent(ts))
    ensures t.direct == s.direct && t.sched.signals == s.sched.signals && t.phase == s.phase
    ensures t.asking == WithState(Refuse(s.asking, i, ts), i, Waiting(ts))
    ensures t.sched.clock == s.sched.clock.NewTimestamp(ts, x.config.maxOffset).Advance()
    ensures t.sched.lastNew == s.sched.lastNew[i := ts] && t.sched.stopScheduled == s.sched.stopScheduled
  {
    ReachableIsFull(x, s);
    FirstIsAllowed(x, s, i, ts);
    FirstSchedules(x, s, i, ts);
    ActionReaches(x, s, AskFor(i, ts));
    t := Asked(x, s, i, ts);
  }

  lemma FirstIsAllowed(x: Setup, s: System, i: nat, ts: int)
    requires Full(x, s) && Untouched(x, s) && ts > 2 * x.config.maxOffset && i < x.config.sources
    requires s.sched.flow.taken == CONFIGURED && s.sched.flow.queue == []
    ensures Allowed(x, s, AskFor(i, ts)) && !IsInvalidNext(x.config, s.sched, ts, i)
  {
    assert s.sched.flow.taken[1].kind == START;
    DistantMayAsk(x.config, s.sched, s.asking, ts, i);
  }

  lemma FirstSchedules(x: Setup, s: System, i: nat, ts: int)
    requires Full(x, s) && x.config.sourceMode == WAIT_FOR_BUFFER
    requires Untouched(x, s) && ts > 2 * x.config.maxOffset && i < x.config.sources
    requires s.sched.flow.taken == CONFIGURED && s.sched.flow.queue == []
    requires !IsInvalidNext(x.config, s.sched, ts, i)
    ensures var (t, fut) := Request(x.config, s.sched, ts, i);
      && fut == Deferred(ts) && t.clock == s.sched.clock.NewTimestamp(ts, x.config.maxOffset).Advance()
      && t.lastNew == s.sched.lastNew[i := ts]
      && t == s.sched.(flow := t.flow, clock := t.clock, lastNew := t.lastNew)
      && IsScheduledNow(x, s, s.(sched := t), DataEvent(ts))
  {
    var c, f := x.config, s.sched.flow;
    var g := CancelSource(c, f, ts, i);
    CancelKeepsWindow(c, f, ts, i);
    NoFrameRuns(x, s, i, ts);
    assert g.queue == [];
    Schedules(c, g, DataEvent(ts));
  }

  /** No slot matches a timestamp while only control events have been taken. */
  lemma NoFrameRuns(x: Setup, s: System, i: nat, ts: int)
    requires Full(x, s) && ts > 2 * x.config.maxOffset
    requires forall k :: 0 <= k < |s.sched.flow.taken| ==> s.sched.flow.taken[k].kind != DATA
    ensures FindRunning(x.config, CancelSource(x.config, s.sched.flow, ts, i), ts, 0) < 0
  {
    var c, f := x.config, s.sched.flow;
    SR.SameSearch(c, f, CancelSource(c, f, ts, i), ts, 0);
    var j := FindRunning(c, f, ts, 0);
    if j >= 0 { var k := MatchRuns(c, f, s.asking, ts, j); }
  }
}
