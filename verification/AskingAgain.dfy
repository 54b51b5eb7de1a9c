/**
  A run in which a promise is set twice. The dataflow has one slot and two sources; while a frame is
  queued, STOP is scheduled, and the other source is refused for a later frame. It asks again, as
  nothing keeps it from doing, and is listed twice. When the queued frame is loaded, its input is
  committed a second time.
*/
module AskingAgain {
  import opened Events
  import opened Clock
  import opened Cycles
  import opened Network
  import opened Marking
  import opened SchedulerCore
  import opened SchedulerWindow
  import opened Requests
  import opened SourceInputs
  import opened DataflowSystem
  import opened Pipeline
  import opened PipelineSteps
  import opened PipelineTheorems
  import opened Lifecycle
  import opened Progress
  import opened Reachability
  import opened Refusals
  import ER = EarlyReports
  import R = Ring
  import Runs
  import SR = SourceRequests

  /** A step of the dataflow in which a source that neither waits nor holds a buffer asks for any later frame. */
  ghost predicate LooseNext(x: Setup, s: System, a: Action, t: System) {
    Next(x, s, a, t) || LooseAsk(x, s, a, t)
  }

  ghost predicate LooseAsk(x: Setup, s: System, a: Action, t: System) {
    a.AskFor? && MayAskLoosely(x, s, a.source, a.timestamp) && t == Asked(x, s, a.source, a.timestamp)
  }

  ghost predicate MayAskLoosely(x: Setup, s: System, i: nat, ts: int) {
    && x.Valid() && Sane(x.config, s.sched) && AskingShape(x.config, s.asking)
    && StartLoaded(s.sched.flow) && i < x.config.sources
    && AsksLater(x.config, s.asking, ts, i) && Returns(x.config, s.sched, ts)
  }

  ghost function LooseSteps(x: Setup): (System, Action, System) -> bool {
    (s, a, t) => LooseNext(x, s, a, t)
  }

  /** One slot, two sources that wait for buffers. */
  ghost predicate IsSmall(x: Setup) {
    x.Valid() && x.net.n == 1 && x.config.sources == 2 && x.config.sourceMode == WAIT_FOR_BUFFER
  }

  /** Two source tasks without successors. */
  function Sample(): Setup {
    Setup(Network(1, {Named("a"), Named("b")}, {}, {}, [Named("a"), Named("b")]),
          Config(1, 2, 0, WAIT_FOR_BUFFER, WAIT_FOR_EVENT), 1, [], map[])
  }

  lemma SampleIsSmall()
    ensures IsSmall(Sample())
  {
    forall v
      ensures !Digraph.Reaches(Sample().net.edges, v, v)
    {
      NoEdges(Sample().net.edges, v);
    }
  }

  /** The first frame's timestamp. */
  function FirstStamp(x: Setup): int { 2 * x.config.maxOffset + 1 }

  // ---- requests while one frame runs in the only slot ----------------------------------------

  /** The first frame runs, every other request so far was for a later one. */
  ghost predicate FrameRuns(x: Setup, s: System) {
    && Reachable(x, s) && IsSmall(x)
    && |s.sched.flow.taken| == 3 && s.sched.flow.ended == 2
    && s.sched.flow.taken[..2] == ER.CONFIGURED && s.sched.flow.taken[2] == DataEvent(FirstStamp(x))
    && s.sched.clock.initial == FirstStamp(x) && s.sched.clock.delta == x.delta
  }

  /** The only slot does not match a later frame. */
  lemma NotRunning(x: Setup, s: System, ts: int, i: nat)
    requires FrameRuns(x, s) && ts > FirstStamp(x) + 2 * x.config.maxOffset
    ensures Shape(x.config, s.sched.flow)
    ensures FindRunning(x.config, CancelSource(x.config, s.sched.flow, ts, i), ts, 0) < 0
    ensures s.sched.flow.running[0] && s.sched.flow.runningTs[0] == FirstStamp(x)
  {
    ReachableIsFull(x, s);
    assert R.Slot(2, 1) == R.Slot(1, 1) == R.Slot(0, 1) == 0;
    assert Hosts(x.config, s.sched.flow, 2);
  }

  /** The source that has asked for the running frame gets it and delivers it. */
  lemma Delivers(x: Setup, s: System) returns (t: System)
    requires FrameRuns(x, s) && s.asking.states == [Idle, Waiting(FirstStamp(x))]
    ensures FrameRuns(x, t) && t.asking == s.asking.(states := [Idle, Idle]) && (1, 0) in t.sched.flow.promises
    ensures t.phase == s.phase && t.sched == s.sched.(flow := t.sched.flow)
    ensures ER.Holds(t, s.sched.flow.taken, s.sched.flow.queue, 2)
  {
    var f := s.sched.flow;
    ReachableIsFull(x, s);
    FrameIsReached(x, s);
    SR.DeferredFindsItsFrame(x.config, s.sched, s.asking, 1, 2);
    assert R.Slot(2, 1) == R.Slot(1, 1) == R.Slot(0, 1) == 0;
    ActionReaches(x, s, Awake(1));
    t := DeliversHeld(x, Awoken(x, s, 1));
  }

  lemma FrameIsReached(x: Setup, s: System)
    requires FrameRuns(x, s) && Full(x, s)
    ensures Reached(x.config, s.sched.flow, FirstStamp(x))
    ensures (s.sched.flow.taken + s.sched.flow.queue)[2] == DataEvent(FirstStamp(x))
  {
    var f := s.sched.flow;
    assert LatestFrame(f);
    assert f.taken[0] == f.taken[..2][0] && f.taken[1] == f.taken[..2][1];
  }

  lemma DeliversHeld(x: Setup, s: System) returns (t: System)
    requires FrameRuns(x, s) && s.asking.states == [Idle, Holding(0)]
    ensures FrameRuns(x, t) && t.asking == s.asking.(states := [Idle, Idle]) && (1, 0) in t.sched.flow.promises
    ensures t.phase == s.phase && t.sched == s.sched.(flow := t.sched.flow)
    ensures ER.Holds(t, s.sched.flow.taken, s.sched.flow.queue, 2)
  {
    ReachableIsFull(x, s);
    assert SourceOk(x.config, s.sched.flow, s.asking, 1);
    ActionReaches(x, s, Deliver(1));
    t := Delivered(x, s, 1);
  }

  /** A source asks for the expected frame, which is queued. */
  lemma AsksForNext(x: Setup, s: System) returns (t: System)
    requires FrameRuns(x, s) && s.asking.states == [Idle, Idle] && |s.asking.last| == 2 == |s.sched.lastNew|
    requires s.asking.last[1] == FirstStamp(x) == s.sched.lastNew[1]
    requires s.sched.flow.queue == [] && s.sched.clock.expected == FirstStamp(x) + x.delta && !s.sched.stopScheduled
    ensures FrameRuns(x, t)
    ensures t.asking == Asking([Idle, Waiting(FirstStamp(x) + x.delta)], s.asking.last[1 := FirstStamp(x) + x.delta])
    ensures ER.Holds(t, s.sched.flow.taken, [DataEvent(FirstStamp(x) + x.delta)], 2)
    ensures t.sched.clock.expected == FirstStamp(x) + x.delta + x.delta && t.phase == s.phase
    ensures t.sched.lastNew == s.sched.lastNew[1 := FirstStamp(x) + x.delta] && !t.sched.stopScheduled
    ensures s.sched.flow.promises <= t.sched.flow.promises
  {
    var c, ts := x.config, FirstStamp(x) + x.delta;
    MayAskLater(x, s, 1, ts);
    NextIsQueued(c, s.sched, ts, 1);
    RequestExtends(c, s.sched, ts, 1);
    ActionReaches(x, s, AskFor(1, ts));
    t := Asked(x, s, 1, ts);
  }

  /** An idle source may ask for the expected frame. */
  lemma MayAskLater(x: Setup, s: System, i: nat, ts: int)
    requires FrameRuns(x, s) && i < 2 == |s.asking.states| == |s.asking.last| == |s.sched.lastNew|
    requires s.asking.states[i] == Idle && ts > s.asking.last[i] + 4 * x.config.maxOffset
    requires ts == s.sched.clock.expected > FirstStamp(x) + 2 * x.config.maxOffset && s.sched.lastNew[i] < ts
    ensures Sane(x.config, s.sched) && Window(x.config, s.sched.flow) && AskingShape(x.config, s.asking)
    ensures Allowed(x, s, AskFor(i, ts)) && !IsInvalidNext(x.config, s.sched, ts, i)
    ensures FindRunning(x.config, CancelSource(x.config, s.sched.flow, ts, i), ts, 0) < 0
  {
    ReachableIsFull(x, s);
    NotRunning(x, s, ts, i);
    StartIsLoaded(x, s);
    NotInvalid(x.config, s.sched, ts, i);
    DistantMayAsk(x.config, s.sched, s.asking, ts, i);
  }

  lemma StartIsLoaded(x: Setup, s: System)
    requires FrameRuns(x, s)
    ensures StartLoaded(s.sched.flow)
  {
    assert s.sched.flow.taken[1] == s.sched.flow.taken[..2][1] == ControlEvent(START);
  }

  lemma NotInvalid(c: Config, s: Sched, ts: int, i: nat)
    requires c.maxOffset >= 0 && i < |s.lastNew| && s.lastNew[i] < ts && s.clock.initial <= ts
    ensures !IsInvalidNext(c, s, ts, i)
  {
  }

  /** Behind the running frame the expected one has to wait. */
  lemma NextIsQueued(c: Config, s: Sched, ts: int, i: nat)
    requires Sane(c, s) && Window(c, s.flow) && c.slots == 1 && i < c.sources && !IsInvalidNext(c, s, ts, i)
    requires c.sourceMode == WAIT_FOR_BUFFER && c.missingMode == WAIT_FOR_EVENT && !s.stopScheduled
    requires s.flow.queue == [] && s.flow.ended < |s.flow.taken| && s.clock.initial != TIMESTAMP_ZERO
    requires ts == s.clock.expected && FindRunning(c, CancelSource(c, s.flow, ts, i), ts, 0) < 0
    ensures var (t, fut) := Request(c, s, ts, i);
      && fut == Deferred(ts) && t.flow.taken == s.flow.taken && t.flow.queue == [DataEvent(ts)]
      && t.flow.ended == s.flow.ended && t.lastNew == s.lastNew[i := ts] && !t.stopScheduled
      && t.clock.expected == ts + s.clock.delta && t.clock.initial == s.clock.initial && t.clock.delta == s.clock.delta
  {
    var g := CancelSource(c, s.flow, ts, i);
    CancelKeepsWindow(c, s.flow, ts, i);
    assert g.queue == [];
    ER.Schedules(c, g, DataEvent(ts));
  }

  /** Once STOP is scheduled, a frame that is neither running nor queued is refused. */
  lemma StopRefuses(c: Config, s: Sched, ts: int, i: nat)
    requires Sane(c, s) && i < c.sources && c.missingMode == WAIT_FOR_EVENT && s.stopScheduled
    requires !IsInvalidNext(c, s, ts, i) && FindRunning(c, CancelSource(c, s.flow, ts, i), ts, 0) < 0
    requires !IsScheduled(c, CancelSource(c, s.flow, ts, i), ts)
    ensures var (t, fut) := Request(c, s, ts, i);
      && fut == NoBuffer && t == SR.Asked(c, s, ts, i).(lastNew := s.lastNew[i := ts])
  {
  }

  /** Neither the queued frame nor STOP matches a frame that comes later. */
  lemma NotQueued(c: Config, f: Flow, ts: int, i: nat, queued: int)
    requires Shape(c, f) && |f.queue| == 2 && f.queue[0].kind == DATA && f.queue[0].timestamp == queued
    requires f.queue[1].kind != DATA && f.queue[1].timestamp == TIMESTAMP_ZERO
    requires 0 <= queued && queued + 2 * c.maxOffset < ts && c.maxOffset >= 0
    ensures !IsScheduled(c, CancelSource(c, f, ts, i), ts)
    ensures CancelSource(c, f, ts, i).queue
         == [f.queue[0].(invalidSources := f.queue[0].invalidSources + [i]), f.queue[1]]
  {
    var g := CancelSource(c, f, ts, i);
    assert g.queue[0] == Mark(c, f.queue[0], ts, i) && g.queue[1] == Mark(c, f.queue[1], ts, i);
  }

  /** The other source asks for a frame two later when STOP is scheduled, and is refused and listed. */
  lemma IsRefused(x: Setup, s: System) returns (t: System)
    requires FrameRuns(x, s) && |s.asking.states| == 2 == |s.asking.last| == |s.sched.lastNew|
    requires s.asking.states[0] == Idle && s.asking.last[0] == NeverAsked(x.config)
    requires s.sched.lastNew[0] == TIMESTAMP_ZERO
    requires s.sched.clock.expected == FirstStamp(x) + x.delta + x.delta && s.sched.stopScheduled
    requires s.sched.flow.queue == [DataEvent(FirstStamp(x) + x.delta), ControlEvent(STOP)]
    ensures FrameRuns(x, t) && |t.asking.states| == 2 == |t.asking.last| == |t.sched.lastNew|
    ensures t.asking.states[0] == Refused && t.asking.last[0] == FirstStamp(x) + x.delta + x.delta == t.sched.lastNew[0]
    ensures t.sched.flow.queue == [PaddingEvent(FirstStamp(x) + x.delta, 0), ControlEvent(STOP)]
    ensures t.sched.clock.expected == s.sched.clock.expected && t.sched.stopScheduled
    ensures s.sched.flow.promises <= t.sched.flow.promises && (0, 0) in t.sched.flow.promises
  {
    var c, f, ts := x.config, s.sched.flow, FirstStamp(x) + x.delta + x.delta;
    MayAskLater(x, s, 0, ts);
    NotQueued(c, f, ts, 0, FirstStamp(x) + x.delta);
    StopRefuses(c, s.sched, ts, 0);
    OpenOrSettled(x, s, ts);
    ActionReaches(x, s, AskFor(0, ts));
    t := Asked(x, s, 0, ts);
    assert DataEvent(FirstStamp(x) + x.delta).invalidSources + [0] == [0];
  }

  /** A later request settles the running frame's input of its source. */
  lemma OpenOrSettled(x: Setup, s: System, ts: int)
    requires FrameRuns(x, s) && |s.asking.states| == 2 && s.asking.states[0] == Idle
    requires ts > FirstStamp(x) + 2 * x.config.maxOffset
    ensures Shape(x.config, s.sched.flow) && (0, 0) in CancelSource(x.config, s.sched.flow, ts, 0).promises
  {
    ReachableIsFull(x, s);
    NotRunning(x, s, ts, 0);
    assert InputOk(x.config, s.sched.flow, s.asking, 0, 0);
  }

  // ---- the run -------------------------------------------------------------------------------

  /** The source has been refused and is listed. */
  ghost predicate IsListed(x: Setup, s: System) {
    && FrameRuns(x, s) && |s.asking.states| == 2 == |s.asking.last| == |s.sched.lastNew|
    && s.asking.states[0] == Refused && s.asking.last[0] == FirstStamp(x) + x.delta + x.delta == s.sched.lastNew[0]
    && s.sched.flow.queue == [PaddingEvent(FirstStamp(x) + x.delta, 0), ControlEvent(STOP)]
    && s.sched.clock.expected == FirstStamp(x) + x.delta + x.delta && s.sched.stopScheduled
  }

  /** And the running frame is about to end. */
  lemma RefusedOnce(x: Setup) returns (t: System)
    requires IsSmall(x)
    ensures IsListed(x, t) && t.counts.Running(Step(0, TimeStepEnd))
  {
    var s := Queues(x);
    var u := ER.MainSubmits(x, s, STOP, Stopping);
    var v := IsRefused(x, u);
    FrameMayEnd(x, v);
    t := ReachesEnd(x, v);
    assert R.Slot(2, 1) == R.Slot(1, 1) == R.Slot(0, 1) == 0;
  }

  lemma FrameMayEnd(x: Setup, s: System)
    requires FrameRuns(x, s) && (0, 0) in s.sched.flow.promises && (1, 0) in s.sched.flow.promises
    ensures MayEnd(x, s)
  {
    var f := s.sched.flow;
    assert R.Slot(2, 1) == R.Slot(1, 1) == R.Slot(0, 1) == 0;
    assert f.taken[0] == f.taken[..2][0] && f.taken[1] == f.taken[..2][1];
  }

  /** One source has delivered the first frame and waits for the second, which is queued. */
  lemma Queues(x: Setup) returns (t: System)
    requires IsSmall(x)
    ensures FrameRuns(x, t) && t.phase == Started && |t.asking.states| == 2 == |t.asking.last| == |t.sched.lastNew|
    ensures t.asking.states[0] == Idle && t.asking.last[0] == NeverAsked(x.config)
    ensures t.sched.lastNew[0] == TIMESTAMP_ZERO
    ensures t.sched.clock.expected == FirstStamp(x) + x.delta + x.delta && (1, 0) in t.sched.flow.promises
    ensures t.sched.flow.queue == [DataEvent(FirstStamp(x) + x.delta)]
  {
    var s := ER.IsStartedUp(x);
    var u := ER.FirstRequest(x, s, 1, FirstStamp(x));
    assert u.sched.flow.taken[..2] == ER.CONFIGURED;
    assert u.asking.states == [Idle, Waiting(FirstStamp(x))];
    var v := Delivers(x, u);
    t := AsksForNext(x, v);
  }

  /** The source may ask again, as it asks for something later. */
  lemma AsksLoosely(x: Setup, s: System, ts: int)
    requires IsListed(x, s) && ts == FirstStamp(x) + x.delta + x.delta + x.delta
    ensures MayAskLoosely(x, s, 0, ts)
  {
    ShapesAreSane(x, s);
    StartIsLoaded(x, s);
  }

  /** Asked again, the queued frame lists the source twice; nothing else of the scheduler's events changes. */
  lemma ListsAgain(x: Setup, s: System, ts: int)
    requires IsListed(x, s) && ts == FirstStamp(x) + x.delta + x.delta + x.delta
    requires Sane(x.config, s.sched) && AskingShape(x.config, s.asking)
    ensures IsListedTwice(x, s, Asked(x, s, 0, ts))
  {
    var c, f := x.config, s.sched.flow;
    ShapesAreSane(x, s);
    NotRunning(x, s, ts, 0);
    NotInvalid(c, s.sched, ts, 0);
    NotQueued(c, f, ts, 0, FirstStamp(x) + x.delta);
    StopRefuses(c, s.sched, ts, 0);
    CancelKeepsWindow(c, f, ts, 0);
  }

  lemma ShapesAreSane(x: Setup, s: System)
    requires FrameRuns(x, s)
    ensures Sane(x.config, s.sched) && AskingShape(x.config, s.asking) && Window(x.config, s.sched.flow)
  {
    ReachableIsFull(x, s);
  }

  ghost predicate IsListedTwice(x: Setup, s: System, t: System) {
    && t == s.(sched := t.sched, asking := t.asking)
    && Sane(x.config, t.sched) && AskingShape(x.config, t.asking) && Window(x.config, t.sched.flow)
    && t.sched.flow.ended == 2 < |t.sched.flow.taken| && |t.sched.flow.queue| == 2
    && t.sched.flow.queue[0].kind == DATA && t.sched.flow.queue[0].invalidSources == [0, 0]
  }

  /**
    In every dataflow with one slot and two sources that wait for buffers: a run whose steps are all
    allowed up to the last two, and in which, after a refused source has asked once more, the end of
    the running step sets a promise twice.
  */
  lemma AskingAgainFaults(x: Setup) returns (states: seq<System>, actions: seq<Action>)
    requires IsSmall(x)
    ensures Runs.IsStretch(LooseSteps(x), states, actions) && states[0] == InitialSystem(x)
    ensures |actions| >= 2 && IsRun(x, states[..|actions| - 1], actions[..|actions| - 2])
    ensures Refused in states[|actions| - 2].asking.states
    ensures actions[|actions| - 2] == AskFor(0, FirstStamp(x) + x.delta + x.delta + x.delta)
    ensures states[|actions|].sched.flow.faults > states[|actions| - 1].sched.flow.faults
  {
    var s := RefusedOnce(x);
    var ts := FirstStamp(x) + x.delta + x.delta + x.delta;
    AsksLoosely(x, s, ts);
    var t := Asked(x, s, 0, ts);
    ListsAgain(x, s, ts);
    var u := LastEnds(x, s, t);
    assert s.asking.states[0] in s.asking.states;
    var before, first :| Runs.IsWay(Steps(x), before, first, InitialSystem(x), s);
    var ask, end := AskFor(0, ts), CompleteNode(Step(0, TimeStepEnd));
    states, actions := before + [t, u], first + [ask, end];
    TwoMore(x, before, first, s, ask, t, end, u);
    LastTwo(before, first, s, t, u, ask, end);
  }

  /** Where things are when two steps are appended. */
  lemma LastTwo(
    before: seq<System>, first: seq<Action>, s: System, t: System, u: System, a: Action, b: Action)
    requires |before| == |first| + 1 && before[|first|] == s
    ensures var states, actions := before + [t, u], first + [a, b];
      && states[..|actions| - 1] == before && actions[..|actions| - 2] == first
      && states[|actions| - 2] == s && states[|actions| - 1] == t && states[|actions|] == u
      && actions[|actions| - 2] == a && states[0] == before[0]
  {
  }

  lemma LastEnds(x: Setup, s: System, t: System) returns (u: System)
    requires IsSmall(x) && s.counts.Running(Step(0, TimeStepEnd)) && IsListedTwice(x, s, t)
    ensures Next(x, t, CompleteNode(Step(0, TimeStepEnd)), u)
    ensures u.sched.flow.faults > t.sched.flow.faults
  {
    assert R.Slot(2, 1) == R.Slot(1, 1) == R.Slot(0, 1) == 0;
    assert [0, 0][0] == [0, 0][1];
    EndFaults(x.config, t.sched.flow);
    EndsNoBetter(x.config, t.sched.flow, 0);
    u := Complete(x, t, Step(0, TimeStepEnd));
  }

  /** Faults are never taken back. */
  lemma EndsNoBetter(c: Config, f: Flow, slot: nat)
    requires Shape(c, f) && slot < c.slots
    ensures FreeTimeStep(c, f, slot).faults >= f.faults
  {
    var g := Vacate(c, f, slot);
    if g.queue != [] { LoadFrame(c, g.(queue := g.queue[1..]), g.queue[0]); }
  }

  lemma TwoMore(
    x: Setup, states: seq<System>, actions: seq<Action>, s: System, a: Action, t: System, b: Action, u: System)
    requires Runs.IsStretch(Steps(x), states, actions) && states[|actions|] == s
    requires LooseAsk(x, s, a, t) && Next(x, t, b, u)
    ensures Runs.IsStretch(LooseSteps(x), states + [t, u], actions + [a, b])
  {
    var next := LooseSteps(x);
    Runs.StretchWidens(Steps(x), next, states, actions);
    assert Runs.IsStretch(next, [s, t, u], [a, b]);
    Runs.Joins(next, states, actions, [s, t, u], [a, b]);
    assert [s, t, u][1..] == [t, u];
  }
}
