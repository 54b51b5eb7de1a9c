/**
  The order of events over a dataflow's life, and what the scheduler's reports that a control event
  has finished are worth.
*/
module Lifecycle {
  import opened Events
  import opened Network
  import opened SchedulerCore
  import opened SchedulerWindow
  import opened Requests
  import opened SourceInputs
  import opened DataflowSystem
  import opened Pipeline
  import opened PipelineSteps
  import SR = SourceRequests
  import R = Ring

  /** Everything scheduled so far, in order. */
  function History(f: Flow): seq<ScheduledEvent> { f.taken + f.queue }

  /** How many of the scheduled events belong to the closing sequence. */
  function Tail(p: Phase): nat {
    match p
    case Stopping => 1
    case TearingDown => 2
    case ShuttingDown(k) => 2 + k
    case _ => 0
  }

  /** The script: CONFIGURE, START, data and parameter changes, STOP, TEARDOWN, DATAFLOW_STOP... */
  predicate Fits(kind: EventType, k: nat, length: nat, tail: nat) {
    if k == 0 then kind == CONFIGURE
    else if k == 1 then kind == START
    else if k + tail < length then kind == DATA || kind == PARAMETER_CHANGE
    else if k + tail == length then kind == STOP
    else if k + tail == length + 1 then kind == TEARDOWN
    else kind == DATAFLOW_STOP
  }

  predicate LengthFits(p: Phase, length: nat) {
    match p
    case NotStarted => length == 0
    case Configuring => length == 1
    case _ => length >= 2 + Tail(p)
  }

  ghost predicate Script(s: System) {
    var h := History(s.sched.flow);
    && LengthFits(s.phase, |h|)
    && (forall k :: 0 <= k < |h| ==> Fits(h[k].kind, k, |h|, Tail(s.phase)))
    && (s.sched.stopScheduled <==> s.phase.Stopping? || s.phase.TearingDown? || s.phase.ShuttingDown?)
  }

  // ---- what requests do to the history -------------------------------------------------------

  /** Old events keep their place, kind and timestamp; new ones are frames. */
  predicate GrowsByData(h: seq<ScheduledEvent>, h': seq<ScheduledEvent>) {
    && |h| <= |h'|
    && (forall k :: 0 <= k < |h| ==> h'[k].kind == h[k].kind && h'[k].timestamp == h[k].timestamp)
    && (forall k :: |h| <= k < |h'| ==> h'[k].kind == DATA)
  }

  lemma RequestHistory(c: Config, s: Sched, ts: int, i: nat)
    requires Sane(c, s) && Window(c, s.flow) && c.missingMode == WAIT_FOR_EVENT && i < c.sources
    ensures var t := Request(c, s, ts, i).0;
      && GrowsByData(History(s.flow), History(t.flow))
      && (s.stopScheduled ==> |History(t.flow)| == |History(s.flow)|)
      && (s.flow.queue != [] ==> t.flow.taken == s.flow.taken)
      && t.stopScheduled == s.stopScheduled && t.signals == s.signals
  {
    if !IsInvalidNext(c, s, ts, i) {
      var s1 := SR.Asked(c, s, ts, i);
      CancelKeepsWindow(c, s.flow, ts, i);
      CancelHistory(c, s.flow, ts, i);
      var j := FindRunning(c, s1.flow, ts, 0);
      if j < 0 && !(c.sourceMode == WAIT_FOR_BUFFER && IsScheduled(c, s1.flow, ts)) {
        NewRequestHistory(c, s1.(lastNew := s.lastNew[i := ts]), ts, i);
      }
    }
  }

  lemma CancelHistory(c: Config, f: Flow, ts: int, i: nat)
    requires Shape(c, f)
    ensures var g := CancelSource(c, f, ts, i);
      GrowsByData(History(f), History(g)) && |History(g)| == |History(f)|
  {
  }

  lemma ScheduleDataHistory(c: Config, f: Flow, ev: ScheduledEvent)
    requires Window(c, f) && ev.kind == DATA
    ensures Window(c, Schedule(c, f, ev))
    ensures GrowsByData(History(f), History(Schedule(c, f, ev)))
    ensures f.queue != [] ==> Schedule(c, f, ev).taken == f.taken && Schedule(c, f, ev).queue != []
  {
    ScheduleWindow(c, f, ev);
  }

  lemma NewRequestHistory(c: Config, s: Sched, ts: int, i: nat)
    requires Window(c, s.flow)
    ensures var t := SR.NewRequest(c, s, ts, i).0;
      && GrowsByData(History(s.flow), History(t.flow))
      && (s.flow.queue != [] ==> t.flow.taken == s.flow.taken)
      && (s.stopScheduled ==> t == s)
      && t.stopScheduled == s.stopScheduled && t.signals == s.signals
  {
    if c.sourceMode == IMMEDIATE_RETURN {
      ImmediateWindow(c, s.flow, ts);
    } else {
      WaitHistory(c, s, ts, i);
    }
  }

  lemma WaitHistory(c: Config, s: Sched, ts: int, i: nat)
    requires Window(c, s.flow)
    ensures var t := NewTimestampWait(c, s, ts, i).0;
      && GrowsByData(History(s.flow), History(t.flow))
      && (s.flow.queue != [] ==> t.flow.taken == s.flow.taken)
      && t.stopScheduled == s.stopScheduled && t.signals == s.signals
  {
    if s.clock.IsNext(ts, c.maxOffset) {
      ScheduleDataHistory(c, s.flow, DataEvent(s.clock.expected));
    } else if s.clock.IsFurtherAhead(ts, c.maxOffset) {
      var p := SchedulePadding(c, s, i);
      ScheduleDataHistory(c, s.flow, PaddingEvent(s.clock.expected, i));
      ScheduleDataHistory(c, p.flow, DataEvent(p.clock.expected));
    }
  }

  /** New frames fit the script as long as nothing of the closing sequence is scheduled. */
  lemma DataFits(s: System, t: System)
    requires Script(s) && t.phase == s.phase && t.sched.stopScheduled == s.sched.stopScheduled
    requires IsStarted(s.phase) || s.phase.Starting?
    requires GrowsByData(History(s.sched.flow), History(t.sched.flow))
    requires s.sched.stopScheduled ==> |History(t.sched.flow)| == |History(s.sched.flow)|
    ensures Script(t)
  {
    var h, h' := History(s.sched.flow), History(t.sched.flow);
    forall k | 0 <= k < |h'|
      ensures Fits(h'[k].kind, k, |h'|, Tail(t.phase))
    {
      if k < |h| { assert Fits(h[k].kind, k, |h|, Tail(s.phase)); }
    }
  }

  /** The history stays as it is when a step ends or a promise is fulfilled. */
  lemma SameHistoryFits(s: System, t: System)
    requires Script(s) && t.phase == s.phase && t.sched.stopScheduled == s.sched.stopScheduled
    requires History(t.sched.flow) == History(s.sched.flow)
    ensures Script(t)
  {
  }

  lemma SubmitFits(x: Setup, s: System)
    requires Window(x.config, s.sched.flow) && Script(s) && Submits(s.phase)
    ensures Script(MainStep(x, s))
  {
    var ev, h := ControlEvent(NextEvent(s.phase)), History(s.sched.flow);
    ScheduleWindow(x.config, s.sched.flow, ev);
    assert History(MainStep(x, s).sched.flow) == h + [ev];
    forall k | 0 <= k <= |h|
      ensures Fits((h + [ev])[k].kind, k, |h| + 1, Tail(NextPhase(s.phase)))
    {
      NextFits(s.phase, h, k);
    }
  }

  /** The main thread schedules what the script asks for next. */
  lemma NextFits(p: Phase, h: seq<ScheduledEvent>, k: nat)
    requires Submits(p) && LengthFits(p, |h|) && k <= |h|
    requires k < |h| ==> Fits(h[k].kind, k, |h|, Tail(p))
    ensures Fits((h + [ControlEvent(NextEvent(p))])[k].kind, k, |h| + 1, Tail(NextPhase(p)))
  {
  }

  lemma MainFits(x: Setup, s: System)
    requires Window(x.config, s.sched.flow) && Script(s)
    ensures Script(MainStep(x, s))
  {
    if Submits(s.phase) { SubmitFits(x, s); }
  }

  lemma ParameterFits(x: Setup, s: System, p: string)
    requires Window(x.config, s.sched.flow) && Script(s) && s.phase == Started
    ensures Script(s.(sched := ChangeParameter(x.config, s.sched, p)))
  {
    var ev := ScheduledEvent(TIMESTAMP_ZERO, PARAMETER_CHANGE, [], p);
    var h, t := History(s.sched.flow), s.(sched := ChangeParameter(x.config, s.sched, p));
    ScheduleWindow(x.config, s.sched.flow, ev);
    var h' := History(t.sched.flow);
    assert h' == h + [ev];
    forall k | 0 <= k < |h'|
      ensures Fits(h'[k].kind, k, |h'|, Tail(t.phase))
    {
      if k < |h| { assert Fits(h[k].kind, k, |h|, Tail(s.phase)); }
    }
  }

  predicate IsQuiet(a: Action) {
    a.Awake? || a.Deliver? || a.WriteCell? || a.BeginNode?
    || (a.CompleteNode? && !(a.node.Step? && a.node.task == TimeStepEnd))
  }

  /** Most actions leave the queue, the steps and the main thread alone. */
  lemma QuietActions(x: Setup, s: System, a: Action)
    requires x.Valid() && Sane(x.config, s.sched) && AskingShape(x.config, s.asking)
    requires Allowed(x, s, a) && IsQuiet(a)
    ensures var t := Apply(x, s, a);
      && t.phase == s.phase && t.direct == s.direct && t.sched.signals == s.sched.signals
      && t.sched.flow.taken == s.sched.flow.taken && t.sched.flow.queue == s.sched.flow.queue
      && t.sched.flow.ended == s.sched.flow.ended && t.sched.stopScheduled == s.sched.stopScheduled
      && t.sched.flow.slots == s.sched.flow.slots
  {
  }

  /** By the time START is loaded, the main thread waits for its report or has gone on. */
  lemma LoadedMeansStarting(s: System)
    requires Script(s) && StartLoaded(s.sched.flow)
    ensures IsStarted(s.phase) || s.phase.Starting?
  {
    var k :| 0 <= k < |s.sched.flow.taken| && s.sched.flow.taken[k].kind == START;
    assert History(s.sched.flow)[k].kind == START;
  }

  lemma RequestFits(x: Setup, s: System, i: nat, ts: int)
    requires Inv(x, s) && Script(s) && Allowed(x, s, AskFor(i, ts))
    ensures Script(Asked(x, s, i, ts))
  {
    RequestHistory(x.config, s.sched, ts, i);
    LoadedMeansStarting(s);
    DataFits(s, Asked(x, s, i, ts));
  }

  lemma EndFits(x: Setup, s: System, j: nat)
    requires Inv(x, s) && Script(s) && j < x.net.n && s.counts.Running(Step(j, TimeStepEnd))
    ensures Script(Complete(x, s, Step(j, TimeStepEnd)))
  {
    EndsOldest(x, s, j);
    FreeWindow(x.config, s.sched.flow);
    SameHistoryFits(s, Complete(x, s, Step(j, TimeStepEnd)));
  }

  /**
    In every run the events follow the script, whatever the interleaving: nothing is scheduled
    before CONFIGURE and START, no frame after STOP, and TEARDOWN precedes every DATAFLOW_STOP.
  */
  lemma ActionKeepsScript(x: Setup, s: System, a: Action)
    requires Inv(x, s) && Script(s) && Allowed(x, s, a)
    ensures Script(Apply(x, s, a))
  {
    if IsQuiet(a) {
      QuietActions(x, s, a);
      SameHistoryFits(s, Apply(x, s, a));
    } else {
      match a {
        case AskFor(i, ts) => RequestFits(x, s, i, ts);
        case MainThread => MainFits(x, s);
        case SetParameter(p) => ParameterFits(x, s, p);
        case CompleteNode(v) => EndFits(x, s, v.slot);
      }
    }
  }

  // ---- reports of finished control events ----------------------------------------------------

  /** The place of an awaited control event in the history. */
  predicate IsPlaceOf(s: System, kind: EventType, k: nat) {
    var h := History(s.sched.flow);
    IsAwaited(kind) && k < |h| && h[k].kind == kind
  }

  ghost predicate IsPlaced(s: System, kind: EventType) {
    exists k: nat :: IsPlaceOf(s, kind, k)
  }

  predicate Reported(s: System, kind: EventType) { kind in s.sched.signals }

  /**
    A control event is reported when it has ended if it ran at once, and when it is loaded if it was
    queued. START may miss its report: the components' threads can queue frames while it runs.
  */
  ghost predicate ReportOk(s: System, kind: EventType, k: nat)
    requires IsPlaceOf(s, kind, k)
  {
    if kind in s.direct
    then
      && k < |s.sched.flow.taken|
      && (Reported(s, kind) ==> k < s.sched.flow.ended)
      && (k < s.sched.flow.ended && kind != START ==> Reported(s, kind))
    else Reported(s, kind) <==> k < |s.sched.flow.taken|
  }

  ghost predicate Reports(s: System) {
    && (forall kind, k: nat :: IsPlaceOf(s, kind, k) ==> ReportOk(s, kind, k))
    && (forall kind :: kind in s.sched.signals ==> IsPlaced(s, kind))
    && (forall kind :: kind in s.direct && IsAwaited(kind) ==> IsPlaced(s, kind))
    && PhaseReported(s.phase, s.sched.signals)
  }

  /** Each awaited control event is scheduled once. */
  lemma PlaceUnique(s: System, kind: EventType, k: nat, l: nat)
    requires Script(s) && IsPlaceOf(s, kind, k) && IsPlaceOf(s, kind, l)
    ensures k == l
  {
    var h := History(s.sched.flow);
    assert Fits(h[k].kind, k, |h|, Tail(s.phase)) && Fits(h[l].kind, l, |h|, Tail(s.phase));
  }

  /** While a control event other than START is not reported, it is the last event scheduled. */
  lemma UnreportedIsLast(s: System, kind: EventType, k: nat)
    requires Script(s) && Reports(s) && IsPlaceOf(s, kind, k) && !Reported(s, kind) && kind != START
    ensures k + 1 == |History(s.sched.flow)|
  {
    var h := History(s.sched.flow);
    assert Fits(h[k].kind, k, |h|, Tail(s.phase));
  }

  predicate GrowsQuietly(h: seq<ScheduledEvent>, h': seq<ScheduledEvent>) {
    && |h| <= |h'|
    && (forall k :: 0 <= k < |h| ==> h'[k].kind == h[k].kind)
    && (forall k :: |h| <= k < |h'| ==> !IsAwaited(h'[k].kind))
  }

  /** Actions that schedule no awaited control event and end no step keep the reports right. */
  lemma SameReports(s: System, t: System)
    requires Reports(s) && t.phase == s.phase && t.sched.signals == s.sched.signals && t.direct == s.direct
    requires t.sched.flow.ended == s.sched.flow.ended
    requires GrowsQuietly(History(s.sched.flow), History(t.sched.flow))
    requires s.sched.flow.taken <= t.sched.flow.taken
    requires s.sched.flow.queue != [] ==> t.sched.flow.taken == s.sched.flow.taken
    ensures Reports(t)
  {
    forall kind, k: nat | IsPlaceOf(t, kind, k)
      ensures ReportOk(t, kind, k)
    {
      assert IsPlaceOf(s, kind, k);
      assert ReportOk(s, kind, k);
    }
    forall kind | IsPlaced(s, kind)
      ensures IsPlaced(t, kind)
    {
      var k: nat :| IsPlaceOf(s, kind, k);
      assert IsPlaceOf(t, kind, k);
    }
  }

  /** One more control event in the history, loaded at once or queued, and not yet reported. */
  ghost predicate Submitted(s: System, t: System, kind: EventType) {
    var f, g, ev := s.sched.flow, t.sched.flow, ControlEvent(kind);
    && t.sched.signals == s.sched.signals && g.ended == f.ended <= |f.taken|
    && History(g) == History(f) + [ev]
    && (if f.free > 0 then f.queue == [] && g.taken == f.taken + [ev] && t.direct == s.direct + {kind}
        else g.taken == f.taken && t.direct == s.direct)
  }

  lemma SubmitIsSubmitted(x: Setup, s: System, kind: EventType, next: Phase)
    requires Inv(x, s)
    ensures Submitted(s, Submit(x, s, kind, next), kind)
  {
    ScheduleWindow(x.config, s.sched.flow, ControlEvent(kind));
  }

  lemma OldReport(s: System, t: System, kind: EventType, other: EventType, k: nat)
    requires Submitted(s, t, kind) && Script(t) && Reports(s)
    requires k < |History(s.sched.flow)| && IsPlaceOf(t, other, k)
    ensures ReportOk(t, other, k)
  {
    assert IsPlaceOf(s, other, k) && ReportOk(s, other, k);
    if other == kind { PlaceUnique(t, kind, k, |History(s.sched.flow)|); }
  }

  lemma NewReport(s: System, t: System, kind: EventType, other: EventType)
    requires Submitted(s, t, kind) && Script(t) && Reports(s)
    requires IsPlaceOf(t, other, |History(s.sched.flow)|)
    ensures ReportOk(t, other, |History(s.sched.flow)|)
  {
    FirstSubmission(s, t, other);
  }

  /** An awaited control event is submitted for the first time. */
  lemma FirstSubmission(s: System, t: System, kind: EventType)
    requires Submitted(s, t, kind) && Script(t) && IsAwaited(kind)
    ensures !IsPlaced(s, kind)
  {
    var h := History(s.sched.flow);
    forall k: nat
      ensures !IsPlaceOf(s, kind, k)
    {
      if IsPlaceOf(s, kind, k) {
        assert IsPlaceOf(t, kind, k) && IsPlaceOf(t, kind, |h|);
        PlaceUnique(t, kind, k, |h|);
      }
    }
  }

  lemma SubmittedReports(s: System, t: System, kind: EventType)
    requires Submitted(s, t, kind) && Script(t) && Reports(s)
    ensures forall other, k: nat :: IsPlaceOf(t, other, k) ==> ReportOk(t, other, k)
    ensures forall other :: other in t.sched.signals ==> IsPlaced(t, other)
    ensures forall other :: other in t.direct && IsAwaited(other) ==> IsPlaced(t, other)
  {
    var h := History(s.sched.flow);
    forall other, k: nat | IsPlaceOf(t, other, k)
      ensures ReportOk(t, other, k)
    {
      if k < |h| { OldReport(s, t, kind, other, k); } else { NewReport(s, t, kind, other); }
    }
    forall other | IsPlaced(s, other)
      ensures IsPlaced(t, other)
    {
      var k: nat :| IsPlaceOf(s, other, k);
      assert IsPlaceOf(t, other, k);
    }
    assert IsAwaited(kind) ==> IsPlaceOf(t, kind, |h|);
  }

  /** What the main thread knows of the reports in each phase. */
  predicate PhaseReported(p: Phase, signals: set<EventType>) {
    && (p != NotStarted && p != Configuring ==> CONFIGURE in signals)
    && (IsStarted(p) ==> START in signals)
    && (p.TearingDown? || p.ShuttingDown? ==> STOP in signals)
    && (p.ShuttingDown? ==> TEARDOWN in signals)
  }

  /** The main thread goes on only when the last control event is reported. */
  lemma NextReported(x: Setup, s: System)
    requires PhaseReported(s.phase, s.sched.signals) && MainMayGo(x, s)
    ensures PhaseReported(NextPhase(s.phase), s.sched.signals)
  {
  }

  /** Scheduling the next control event: it is not reported yet, and runs at once or waits. */
  lemma SubmitReports(x: Setup, s: System)
    requires Inv(x, s) && Script(s) && Reports(s) && Submits(s.phase)
    requires PhaseReported(NextPhase(s.phase), s.sched.signals)
    ensures Reports(MainStep(x, s))
  {
    var t := MainStep(x, s);
    MainFits(x, s);
    SubmitIsSubmitted(x, s, NextEvent(s.phase), NextPhase(s.phase));
    SubmittedReports(s, t, NextEvent(s.phase));
  }

  lemma MainReports(x: Setup, s: System)
    requires Inv(x, s) && Script(s) && Reports(s) && MainMayGo(x, s)
    ensures Reports(MainStep(x, s))
  {
    NextReported(x, s);
    if Submits(s.phase) { SubmitReports(x, s); } else { ReportsNextPhase(s, NextPhase(s.phase)); }
  }

  lemma ReportsNextPhase(s: System, next: Phase)
    requires Reports(s) && PhaseReported(next, s.sched.signals)
    ensures Reports(s.(phase := next))
  {
    var t := s.(phase := next);
    forall kind, k: nat | IsPlaceOf(t, kind, k)
      ensures ReportOk(t, kind, k)
    {
      assert IsPlaceOf(s, kind, k) && ReportOk(s, kind, k);
    }
    forall kind | IsPlaced(s, kind)
      ensures IsPlaced(t, kind)
    {
      var k: nat :| IsPlaceOf(s, kind, k);
      assert IsPlaceOf(t, kind, k);
    }
  }

  /** The event kind read when a step ends: its own if nothing is queued, else that of the queue's head. */
  lemma KindReadAtEnd(x: Setup, s: System, j: nat)
    requires Inv(x, s) && j < x.net.n
    requires j == R.Slot(s.sched.flow.ended, x.net.n) && s.sched.flow.ended < |s.sched.flow.taken|
    ensures var f := s.sched.flow;
      var t := TimeStepEnded(x.config, s.sched, j);
      var kind := if f.queue == [] then f.taken[f.ended].kind else f.queue[0].kind;
      && t.signals == (if IsAwaited(kind) then s.sched.signals + {kind} else s.sched.signals)
      && History(t.flow) == History(f) && t.flow.ended == f.ended + 1
      && |t.flow.taken| == |f.taken| + (if f.queue == [] then 0 else 1)
  {
    FreeWindow(x.config, s.sched.flow);
  }

  lemma EndReports(x: Setup, s: System, j: nat)
    requires Inv(x, s) && Script(s) && Reports(s)
    requires j < x.net.n && s.counts.Running(Step(j, TimeStepEnd))
    ensures Reports(Complete(x, s, Step(j, TimeStepEnd)))
  {
    var t := Complete(x, s, Step(j, TimeStepEnd));
    var f, h := s.sched.flow, History(s.sched.flow);
    EndsOldest(x, s, j);
    KindReadAtEnd(x, s, j);
    var r := if f.queue == [] then f.ended else |f.taken|;
    assert h[r].kind == if f.queue == [] then f.taken[f.ended].kind else f.queue[0].kind;
    forall kind, k: nat | IsPlaceOf(t, kind, k)
      ensures ReportOk(t, kind, k)
    {
      assert IsPlaceOf(s, kind, k);
      OneReport(s, kind, k, r, t.sched.signals);
    }
    forall kind | IsPlaced(s, kind)
      ensures IsPlaced(t, kind)
    {
      var k: nat :| IsPlaceOf(s, kind, k);
      assert IsPlaceOf(t, kind, k);
    }
    assert IsAwaited(h[r].kind) ==> IsPlaceOf(t, h[r].kind, r);
  }

  /** Reading the kind at place `r` reports exactly the control event at that place. */
  lemma OneReport(s: System, kind: EventType, k: nat, r: nat, signals: set<EventType>)
    requires Script(s) && Reports(s) && IsPlaceOf(s, kind, k)
    requires s.sched.flow.ended < |s.sched.flow.taken|
    requires r == if s.sched.flow.queue == [] then s.sched.flow.ended else |s.sched.flow.taken|
    requires var h := History(s.sched.flow);
      signals == if IsAwaited(h[r].kind) then s.sched.signals + {h[r].kind} else s.sched.signals
    ensures kind in s.direct ==>
      && (kind in signals ==> k < s.sched.flow.ended + 1)
      && (k < s.sched.flow.ended + 1 && kind != START ==> kind in signals)
    ensures kind !in s.direct ==>
      (kind in signals <==> k < |s.sched.flow.taken| + if s.sched.flow.queue == [] then 0 else 1)
  {
    assert ReportOk(s, kind, k);
    if k != r && History(s.sched.flow)[r].kind == kind { PlaceUnique(s, kind, k, r); }
    if kind in s.direct && kind != START && k == s.sched.flow.ended && s.sched.flow.queue != [] {
      UnreportedIsLast(s, kind, k);
    }
  }

  lemma RequestReports(x: Setup, s: System, i: nat, ts: int)
    requires Inv(x, s) && Reports(s) && Allowed(x, s, AskFor(i, ts))
    ensures Reports(Asked(x, s, i, ts))
  {
    RequestGrows(x, s, i, ts);
    SameReports(s, Asked(x, s, i, ts));
  }

  lemma RequestGrows(x: Setup, s: System, i: nat, ts: int)
    requires Sane(x.config, s.sched) && AskingShape(x.config, s.asking) && Window(x.config, s.sched.flow)
    requires x.config.missingMode == WAIT_FOR_EVENT && i < x.config.sources
    ensures var t := Asked(x, s, i, ts);
      && t.phase == s.phase && t.sched.signals == s.sched.signals && t.direct == s.direct
      && t.sched.flow.ended == s.sched.flow.ended && s.sched.flow.taken <= t.sched.flow.taken
      && GrowsQuietly(History(s.sched.flow), History(t.sched.flow))
      && (s.sched.flow.queue != [] ==> t.sched.flow.taken == s.sched.flow.taken)
  {
    RequestHistory(x.config, s.sched, ts, i);
    RequestExtends(x.config, s.sched, ts, i);
  }

  lemma ParameterGrows(c: Config, s: Sched, p: string)
    requires Window(c, s.flow)
    ensures var t := ChangeParameter(c, s, p);
      && t == s.(flow := t.flow)
      && t.flow.ended == s.flow.ended && s.flow.taken <= t.flow.taken
      && GrowsQuietly(History(s.flow), History(t.flow))
      && (s.flow.queue != [] ==> t.flow.taken == s.flow.taken)
  {
    ScheduleWindow(c, s.flow, ScheduledEvent(TIMESTAMP_ZERO, PARAMETER_CHANGE, [], p));
  }

  lemma ParameterReports(x: Setup, s: System, p: string)
    requires Window(x.config, s.sched.flow) && Reports(s)
    ensures Reports(s.(sched := ChangeParameter(x.config, s.sched, p)))
  {
    ParameterGrows(x.config, s.sched, p);
    SameReports(s, s.(sched := ChangeParameter(x.config, s.sched, p)));
  }

  /** Every action keeps the reports right. */
  lemma ActionKeepsReports(x: Setup, s: System, a: Action)
    requires Inv(x, s) && Script(s) && Reports(s) && Allowed(x, s, a)
    ensures Reports(Apply(x, s, a))
  {
    if IsQuiet(a) {
      QuietActions(x, s, a);
      SameReports(s, Apply(x, s, a));
    } else {
      match a {
        case AskFor(i, ts) => RequestReports(x, s, i, ts);
        case MainThread => MainReports(x, s);
        case SetParameter(p) => ParameterReports(x, s, p);
        case CompleteNode(v) => EndReports(x, s, v.slot);
      }
    }
  }
}
