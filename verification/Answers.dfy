/**
  What a request is answered and what it schedules, in terms of the events taken and queued. The
  module's main results are that the answer is the buffer of the frame in flight, a deferred future,
  or no buffer, each in exactly the cases listed; and that the history grows by exactly the frames
  the clock owes.
*/
module Answers {
  import opened Events
  import opened Ring
  import opened Clock
  import opened SchedulerCore
  import opened SchedulerWindow
  import opened Requests
  import opened SourceInputs
  import SR = SourceRequests
  import opened DataflowSystem
  import opened Pipeline
  import opened PipelineSteps
  import opened PipelineTheorems
  import opened Lifecycle
  import FrameGrid
  import Runs

  // ---- the cases -----------------------------------------------------------------------------

  predicate IsNear(c: Config, ts: int, frame: int) { -2 * c.maxOffset <= ts - frame <= 2 * c.maxOffset }

  /** The k-th event is a frame near the timestamp, and its step has not ended. */
  predicate IsInFlight(c: Config, f: Flow, ts: int, k: nat) {
    f.ended <= k < |f.taken| && f.taken[k].kind == DATA && IsNear(c, ts, f.taken[k].timestamp)
  }

  ghost predicate HasInFlight(c: Config, f: Flow, ts: int) {
    exists k: nat :: IsInFlight(c, f, ts, k)
  }

  /** A frame near the timestamp waits for a slot. */
  ghost predicate HasQueued(c: Config, f: Flow, ts: int) {
    exists q: nat :: q < |f.queue| && f.queue[q].kind == DATA && IsNear(c, ts, f.queue[q].timestamp)
  }

  /** The timestamp lies before the first frame, or no later than the source's latest new time step. */
  predicate IsOutOfDate(c: Config, s: Sched, ts: int, i: nat)
    requires i < |s.lastNew|
  {
    ts < s.clock.initial - 2 * c.maxOffset || ts <= s.lastNew[i] - 2 * c.maxOffset
  }

  /** The frame the clock owes next: the very first request decides it. */
  function DueStamp(s: Sched, ts: int): int {
    if s.clock.initial == TIMESTAMP_ZERO then ts else s.clock.expected
  }

  /** Before STOP, the frame owed next or one after it is asked for. */
  predicate IsDue(c: Config, s: Sched, ts: int) {
    !s.stopScheduled && ts >= DueStamp(s, ts) - 2 * c.maxOffset
  }

  // ---- the answer ----------------------------------------------------------------------------

  /** The buffer of a frame in flight: the only one when sources wait, else that of the lowest slot. */
  ghost predicate IsBufferInFlight(c: Config, f: Flow, ts: int, fut: Future)
    requires c.slots >= 1
  {
    && (exists k: nat :: IsInFlight(c, f, ts, k) && fut == SlotBuffer(Slot(k, c.slots)))
    && (forall k: nat :: IsInFlight(c, f, ts, k) ==> fut.slot <= Slot(k, c.slots))
    && (c.sourceMode == WAIT_FOR_BUFFER ==>
          forall k: nat :: IsInFlight(c, f, ts, k) ==> fut.slot == Slot(k, c.slots))
  }

  ghost predicate IsAnswer(c: Config, s: Sched, ts: int, i: nat, fut: Future)
    requires Sane(c, s) && i < c.sources
  {
    if IsOutOfDate(c, s, ts, i) then fut == NoBuffer
    else if HasInFlight(c, s.flow, ts) then IsBufferInFlight(c, s.flow, ts, fut)
    else if c.sourceMode == WAIT_FOR_BUFFER then
      fut == if HasQueued(c, s.flow, ts) || IsDue(c, s, ts) then Deferred(ts) else NoBuffer
    else
      fut == if !s.stopScheduled && s.flow.free > 0 then SlotBuffer(Slot(|s.flow.taken|, c.slots)) else NoBuffer
  }

  /** The slots' timestamps find exactly the frames in flight. */
  lemma SearchFindsInFlight(c: Config, f: Flow, a: Asking, ts: int)
    requires Inputs(c, f, a) && Window(c, f) && ts > 2 * c.maxOffset
    ensures FindRunning(c, f, ts, 0) >= 0 <==> HasInFlight(c, f, ts)
    ensures FindRunning(c, f, ts, 0) >= 0 ==>
      exists k: nat :: IsInFlight(c, f, ts, k) && FindRunning(c, f, ts, 0) == Slot(k, c.slots)
    ensures forall k: nat :: IsInFlight(c, f, ts, k) ==> FindRunning(c, f, ts, 0) <= Slot(k, c.slots)
  {
    var j := FindRunning(c, f, ts, 0);
    forall k: nat | IsInFlight(c, f, ts, k)
      ensures 0 <= j <= Slot(k, c.slots)
    {
      SlotBound(k, c.slots);
      assert Hosts(c, f, k);
    }
    if j >= 0 {
      var k := MatchRuns(c, f, a, ts, j);
      assert IsInFlight(c, f, ts, k);
    }
  }

  /** The search of the queue finds exactly the queued frames. */
  lemma SearchFindsQueued(c: Config, f: Flow, a: Asking, ts: int)
    requires Inputs(c, f, a) && ts > 2 * c.maxOffset
    ensures IsScheduled(c, f, ts) <==> HasQueued(c, f, ts)
  {
    forall q: nat | q < |f.queue| && IsWithinRange(f.queue[q].timestamp, ts, c.maxOffset)
      ensures f.queue[q].kind == DATA && IsNear(c, ts, f.queue[q].timestamp)
    {
      assert QueuedOk(c, f.queue[q], a);
    }
  }

  /** When sources wait for buffers no two frames in flight are near one timestamp. */
  lemma InFlightOnce(c: Config, s: Sched, ts: int, k: nat, l: nat)
    requires Frames(c, s) && c.sourceMode == WAIT_FOR_BUFFER
    requires IsInFlight(c, s.flow, ts, k) && IsInFlight(c, s.flow, ts, l)
    ensures k == l
  {
    SR.FramesMatchOnce(c, s, ts, k, l);
  }

  lemma FoundIsInFlight(c: Config, s: Sched, a: Asking, ts: int)
    requires SR.Good(c, s, a) && ts > 2 * c.maxOffset && FindRunning(c, s.flow, ts, 0) >= 0
    ensures HasInFlight(c, s.flow, ts)
    ensures IsBufferInFlight(c, s.flow, ts, SlotBuffer(FindRunning(c, s.flow, ts, 0)))
  {
    SearchFindsInFlight(c, s.flow, a, ts);
    var j := FindRunning(c, s.flow, ts, 0);
    var l: nat :| IsInFlight(c, s.flow, ts, l) && j == Slot(l, c.slots);
    if c.sourceMode == WAIT_FOR_BUFFER {
      forall k: nat | IsInFlight(c, s.flow, ts, k)
        ensures k == l
      {
        InFlightOnce(c, s, ts, k, l);
      }
    }
  }

  /** Canceling older inputs changes nothing a request looks for. */
  lemma AskedLooksAlike(c: Config, s: Sched, ts: int, i: nat)
    requires Shape(c, s.flow)
    ensures var t := SR.Asked(c, s, ts, i);
      && FindRunning(c, t.flow, ts, 0) == FindRunning(c, s.flow, ts, 0)
      && (IsScheduled(c, t.flow, ts) <==> IsScheduled(c, s.flow, ts))
      && t.flow.free == s.flow.free && t.flow.taken == s.flow.taken && t.flow.latest == s.flow.latest
      && t.stopScheduled == s.stopScheduled
      && t.clock.expected == DueStamp(s, ts) && t.clock.delta == s.clock.delta
  {
    SR.SameSearch(c, s.flow, SR.Asked(c, s, ts, i).flow, ts, 0);
  }

  /** A new time step: deferred if it is due, in a slot if one may be taken at once, else refused. */
  lemma NewAnswer(c: Config, s: Sched, ts: int, i: nat)
    requires Sane(c, s) && Window(c, s.flow) && i < c.sources
    ensures var fut := SR.NewRequest(c, s, ts, i).1;
      if c.sourceMode == WAIT_FOR_BUFFER then
        fut == if !s.stopScheduled && ts >= s.clock.expected - 2 * c.maxOffset then Deferred(ts) else NoBuffer
      else
        fut == if !s.stopScheduled && s.flow.free > 0 then SlotBuffer(Slot(|s.flow.taken|, c.slots)) else NoBuffer
  {
    if c.sourceMode == IMMEDIATE_RETURN && s.flow.free > 0 {
      var h := s.flow.(free := s.flow.free - 1);
      LoadFrame(c, h, DataEvent(ts));
      NextIsFree(c, s.flow);
    }
  }

  /**
    A request that does no harm and returns is answered with the buffer of the frame in flight, with
    a deferred future, or with no buffer, each in exactly the cases of `IsAnswer`.
  */
  lemma RequestAnswers(c: Config, s: Sched, a: Asking, ts: int, i: nat)
    requires SR.Good(c, s, a) && i < c.sources && MayAsk(c, s, a, ts, i)
    ensures IsAnswer(c, s, ts, i, Request(c, s, ts, i).1)
  {
    if !IsInvalidNext(c, s, ts, i) {
      var s1 := SR.Asked(c, s, ts, i);
      AskedLooksAlike(c, s, ts, i);
      SearchFindsInFlight(c, s.flow, a, ts);
      SearchFindsQueued(c, s.flow, a, ts);
      if FindRunning(c, s.flow, ts, 0) >= 0 {
        FoundIsInFlight(c, s, a, ts);
      } else {
        CancelKeepsWindow(c, s.flow, ts, i);
        NewAnswer(c, s1.(lastNew := s.lastNew[i := ts]), ts, i);
      }
    }
  }

  // ---- what it schedules ---------------------------------------------------------------------

  function Frame(ts: int, without: seq<nat>): ScheduledEvent { ScheduledEvent(ts, DATA, without, "") }

  /** The frames a new time step calls for: the one owed next, and after a gap one more. */
  function NewFrames(c: Config, s: Sched, ts: int, i: nat): seq<ScheduledEvent> {
    var due := DueStamp(s, ts);
    if c.sourceMode == IMMEDIATE_RETURN then
      if !s.stopScheduled && s.flow.free > 0 then [Frame(ts, [])] else []
    else if !IsDue(c, s, ts) then []
    else if ts <= due + 2 * c.maxOffset then [Frame(due, [])]
    else [Frame(due, [i]), Frame(due + s.clock.delta, [])]
  }

  /** A request adds frames if it is not out of date and no frame near it runs or is queued. */
  ghost function Added(c: Config, s: Sched, ts: int, i: nat): seq<ScheduledEvent>
    requires i < |s.lastNew|
  {
    if IsOutOfDate(c, s, ts, i) || HasInFlight(c, s.flow, ts) || HasQueued(c, s.flow, ts) then []
    else NewFrames(c, s, ts, i)
  }

  /** A queued frame that lies more than a match window behind goes on without the source. */
  function Settled(c: Config, ev: ScheduledEvent, ts: int, i: nat): ScheduledEvent {
    if ev.kind == DATA && ts - ev.timestamp > 2 * c.maxOffset
    then ev.(invalidSources := ev.invalidSources + [i]) else ev
  }

  /** The history before the request's own frames. */
  function Kept(c: Config, s: Sched, ts: int, i: nat): (h: seq<ScheduledEvent>)
    requires i < |s.lastNew|
    ensures |h| == |History(s.flow)|
  {
    if IsOutOfDate(c, s, ts, i) then History(s.flow)
    else s.flow.taken
         + seq(|s.flow.queue|, q requires 0 <= q < |s.flow.queue| => Settled(c, s.flow.queue[q], ts, i))
  }

  lemma CancelHistoryExactly(c: Config, s: Sched, ts: int, i: nat)
    requires Sane(c, s) && i < c.sources && !IsOutOfDate(c, s, ts, i)
    ensures History(SR.Asked(c, s, ts, i).flow) == Kept(c, s, ts, i)
  {
    var queue := MarkAll(c, s.flow.queue, ts, i);
    forall q | 0 <= q < |queue|
      ensures queue[q] == Settled(c, s.flow.queue[q], ts, i)
    {
    }
  }

  lemma NewHistory(c: Config, s: Sched, ts: int, i: nat)
    requires Sane(c, s) && Window(c, s.flow) && i < c.sources
    requires c.sourceMode == WAIT_FOR_BUFFER ==> s.clock.initial != TIMESTAMP_ZERO
    ensures History(SR.NewRequest(c, s, ts, i).0.flow) == History(s.flow) + NewFrames(c, s, ts, i)
  {
    if s.stopScheduled {
    } else if c.sourceMode == IMMEDIATE_RETURN {
      ImmediateWindow(c, s.flow, ts);
    } else {
      WaitAdds(c, s, ts, i);
    }
  }

  lemma WaitAdds(c: Config, s: Sched, ts: int, i: nat)
    requires Sane(c, s) && Window(c, s.flow) && s.clock.initial != TIMESTAMP_ZERO
    requires c.sourceMode == WAIT_FOR_BUFFER && !s.stopScheduled
    ensures History(NewTimestampWait(c, s, ts, i).0.flow) == History(s.flow) + NewFrames(c, s, ts, i)
  {
    if s.clock.IsNext(ts, c.maxOffset) {
      ScheduleWindow(c, s.flow, DataEvent(s.clock.expected));
    } else if s.clock.IsFurtherAhead(ts, c.maxOffset) {
      var p := SchedulePadding(c, s, i);
      ScheduleWindow(c, s.flow, PaddingEvent(s.clock.expected, i));
      ScheduleWindow(c, p.flow, DataEvent(p.clock.expected));
    }
  }

  /** A request that finds its frame adds nothing to the history. */
  lemma FoundAddsNothing(c: Config, s: Sched, ts: int, i: nat)
    requires Sane(c, s) && i < c.sources && c.missingMode == WAIT_FOR_EVENT && !IsOutOfDate(c, s, ts, i)
    requires FindRunning(c, s.flow, ts, 0) >= 0 || (c.sourceMode == WAIT_FOR_BUFFER && IsScheduled(c, s.flow, ts))
    ensures History(Request(c, s, ts, i).0.flow) == Kept(c, s, ts, i)
  {
    AskedLooksAlike(c, s, ts, i);
    CancelHistoryExactly(c, s, ts, i);
  }

  /** The scheduler once a request has noted that its source asks for a new time step. */
  function Noted(c: Config, s: Sched, ts: int, i: nat): Sched
    requires Sane(c, s) && i < c.sources
  {
    SR.Asked(c, s, ts, i).(lastNew := s.lastNew[i := ts])
  }

  lemma NotFoundIsNew(c: Config, s: Sched, ts: int, i: nat)
    requires Sane(c, s) && i < c.sources && c.missingMode == WAIT_FOR_EVENT && !IsOutOfDate(c, s, ts, i)
    requires FindRunning(c, s.flow, ts, 0) < 0 && !(c.sourceMode == WAIT_FOR_BUFFER && IsScheduled(c, s.flow, ts))
    ensures Request(c, s, ts, i) == SR.NewRequest(c, Noted(c, s, ts, i), ts, i)
  {
    AskedLooksAlike(c, s, ts, i);
  }

  lemma NotedOwesTheSame(c: Config, s: Sched, ts: int, i: nat)
    requires Sane(c, s) && i < c.sources && ts > 2 * c.maxOffset
    ensures Noted(c, s, ts, i).clock.initial != TIMESTAMP_ZERO
    ensures NewFrames(c, Noted(c, s, ts, i), ts, i) == NewFrames(c, s, ts, i)
  {
  }

  lemma NotFoundAdds(c: Config, s: Sched, ts: int, i: nat)
    requires Sane(c, s) && Window(c, s.flow) && i < c.sources && ts > 2 * c.maxOffset
    requires c.missingMode == WAIT_FOR_EVENT && !IsOutOfDate(c, s, ts, i)
    requires FindRunning(c, s.flow, ts, 0) < 0 && !(c.sourceMode == WAIT_FOR_BUFFER && IsScheduled(c, s.flow, ts))
    ensures History(Request(c, s, ts, i).0.flow) == Kept(c, s, ts, i) + NewFrames(c, s, ts, i)
  {
    CancelHistoryExactly(c, s, ts, i);
    CancelKeepsWindow(c, s.flow, ts, i);
    NotedOwesTheSame(c, s, ts, i);
    NotFoundIsNew(c, s, ts, i);
    NewHistory(c, Noted(c, s, ts, i), ts, i);
  }

  /** Sources that are served at once never find a frame queued. */
  lemma NoneQueued(c: Config, s: Sched, ts: int)
    requires Frames(c, s) && c.sourceMode == IMMEDIATE_RETURN
    ensures !HasQueued(c, s.flow, ts)
  {
  }

  /**
    The history grows by exactly the frames of `Added`: none, the frame owed next, or that frame
    without the source and the one after it. The events before stay, but for the queued frames the
    source has left behind, which list it once more.
  */
  lemma RequestAdds(c: Config, s: Sched, a: Asking, ts: int, i: nat)
    requires SR.Good(c, s, a) && i < c.sources && MayAsk(c, s, a, ts, i)
    ensures History(Request(c, s, ts, i).0.flow) == Kept(c, s, ts, i) + Added(c, s, ts, i)
  {
    SearchFindsInFlight(c, s.flow, a, ts);
    SearchFindsQueued(c, s.flow, a, ts);
    if c.sourceMode == IMMEDIATE_RETURN { NoneQueued(c, s, ts); }
    if !IsOutOfDate(c, s, ts, i) {
      if HasInFlight(c, s.flow, ts) || HasQueued(c, s.flow, ts) {
        FoundAddsNothing(c, s, ts, i);
      } else {
        NotFoundAdds(c, s, ts, i);
      }
    }
  }

  /** The scheduler notes a request exactly if it asks for a new time step. */
  lemma RequestNotes(c: Config, s: Sched, a: Asking, ts: int, i: nat)
    requires SR.Good(c, s, a) && i < c.sources && MayAsk(c, s, a, ts, i)
    ensures Request(c, s, ts, i).0.lastNew ==
      if IsOutOfDate(c, s, ts, i) || HasInFlight(c, s.flow, ts) || HasQueued(c, s.flow, ts) then s.lastNew
      else s.lastNew[i := ts]
  {
    SearchFindsInFlight(c, s.flow, a, ts);
    SearchFindsQueued(c, s.flow, a, ts);
    AskedLooksAlike(c, s, ts, i);
    if c.sourceMode == IMMEDIATE_RETURN { NoneQueued(c, s, ts); }
  }

  // ---- futures of sources that were given up -------------------------------------------------

  /**
    When the oldest is given up, a waiting source whose input another source's request has closed gets
    no buffer, and its future leaves the scheduler as it is.
  */
  lemma GivenUpGetsNothing(c: Config, f: Flow, ts: int, other: nat, awaited: int, i: nat, j: nat)
    requires Shape(c, f) && c.missingMode == CANCEL_OLDEST && i < c.sources && j < c.slots
    requires f.running[j] && ts - f.runningTs[j] > 2 * c.maxOffset && FindRunning(c, f, awaited, 0) == j
    ensures var g := CancelOlderEvents(c, f, ts, other);
      (i, j) in g.setInput && Resolve(c, g, awaited, i) == (g, NoBuffer)
  {
    var g := CancelOlderEvents(c, f, ts, other);
    CancelSourcesSettle(c, f, ts, c.sources);
    assert (i, j).0 < c.sources && ((i, j) in f.setInput || IsOpenOlder(c, f, ts, (i, j)));
    SR.SameSearch(c, f, g, awaited, 0);
  }

  // ---- every run -----------------------------------------------------------------------------

  /** A source's latest new time step was one of its requests. */
  predicate OwnRequests(c: Config, s: Sched, a: Asking) {
    && |s.lastNew| == c.sources == |a.last|
    && forall i :: 0 <= i < c.sources ==> s.lastNew[i] <= a.last[i] || s.lastNew[i] == TIMESTAMP_ZERO
  }

  lemma RequestKeepsOwn(c: Config, s: Sched, a: Asking, ts: int, i: nat)
    requires SR.Good(c, s, a) && i < c.sources && MayAsk(c, s, a, ts, i) && OwnRequests(c, s, a)
    ensures OwnRequests(c, Request(c, s, ts, i).0, Replied(c, s, a, ts, i))
  {
  }

  lemma ActionKeepsOwn(x: Setup, s: System, a: Action)
    requires Inv(x, s) && Allowed(x, s, a) && OwnRequests(x.config, s.sched, s.asking)
    ensures OwnRequests(x.config, Apply(x, s, a).sched, Apply(x, s, a).asking)
  {
    if IsQuiet(a) {
      FrameGrid.QuietClock(x, s, a);
    } else if a.AskFor? {
      RequestKeepsOwn(x.config, s.sched, s.asking, a.timestamp, a.source);
    }
  }

  ghost function IsFair(x: Setup): System -> bool {
    (s: System) => Inv(x, s) && OwnRequests(x.config, s.sched, s.asking) && FrameGrid.OnGrid(x.config, s.sched)
  }

  lemma RunIsFair(x: Setup, states: seq<System>, actions: seq<Action>, m: nat)
    requires IsRun(x, states, actions) && m < |states|
    ensures IsFair(x)(states[m])
  {
    forall s, a, t | IsFair(x)(s) && Steps(x)(s, a, t)
      ensures IsFair(x)(t)
    {
      ActionKeepsInv(x, s, a);
      ActionKeepsOwn(x, s, a);
      FrameGrid.ActionKeepsGrid(x, s, a);
    }
    InitialInv(x);
    Runs.Keeps(Steps(x), IsFair(x), states, actions, m);
  }

  /** A request is out of date only if it comes before the first frame. */
  lemma OutOfDateIsEarly(c: Config, s: Sched, a: Asking, ts: int, i: nat)
    requires i < c.sources && OwnRequests(c, s, a) && ts > a.last[i] && ts > 2 * c.maxOffset >= 0
    ensures IsOutOfDate(c, s, ts, i) <==> ts < s.clock.initial - 2 * c.maxOffset
  {
  }

  lemma {:induction false} FramesAreStamps(h: seq<ScheduledEvent>, k: nat)
    requires k < |h| && h[k].kind == DATA
    ensures h[k].timestamp in FrameGrid.Stamps(h)
  {
    if k < |h| - 1 { FramesAreStamps(h[..|h| - 1], k); }
  }

  lemma {:induction false} GridStartsFirst(first: int, delta: int, count: nat, t: int)
    requires delta >= 0 && t in FrameGrid.Grid(first, delta, count)
    ensures t >= first
  {
    if t in FrameGrid.Grid(first, delta, count - 1) {
      GridStartsFirst(first, delta, count - 1, t);
    } else {
      FrameTimeGrows(first, delta, count - 1);
    }
  }

  lemma {:induction false} FrameTimeGrows(first: int, delta: int, k: nat)
    requires delta >= 0
    ensures FrameGrid.FrameTime(first, delta, k) >= first
  {
    if k > 0 { FrameTimeGrows(first, delta, k - 1); }
  }

  /** When sources wait, nothing is owed, queued or in flight for a timestamp before the first frame. */
  lemma NothingIsEarly(c: Config, s: Sched, ts: int)
    requires Frames(c, s) && FrameGrid.OnGrid(c, s) && c.sourceMode == WAIT_FOR_BUFFER
    requires ts < s.clock.initial - 2 * c.maxOffset && s.clock.initial != TIMESTAMP_ZERO
    ensures !HasInFlight(c, s.flow, ts) && !HasQueued(c, s.flow, ts) && !IsDue(c, s, ts)
  {
    var h := History(s.flow);
    forall k: nat | k < |h| && h[k].kind == DATA
      ensures !IsNear(c, ts, h[k].timestamp)
    {
      FramesAreStamps(h, k);
      GridStartsFirst(s.clock.initial, s.clock.delta, s.clock.step, h[k].timestamp);
    }
    forall q: nat | q < |s.flow.queue| && s.flow.queue[q].kind == DATA
      ensures !IsNear(c, ts, s.flow.queue[q].timestamp)
    {
      assert h[|s.flow.taken| + q] == s.flow.queue[q];
    }
    forall k: nat | k < |s.flow.taken| && s.flow.taken[k].kind == DATA
      ensures !IsNear(c, ts, s.flow.taken[k].timestamp)
    {
      assert h[k] == s.flow.taken[k];
    }
  }

  /**
    In every run whose sources wait for buffers, a request gets the buffer of the one frame in flight
    near its timestamp; if there is none it is deferred, provided such a frame is queued or is owed;
    and it gets no buffer in exactly the remaining cases.
  */
  lemma WaitingAnswer(x: Setup, states: seq<System>, actions: seq<Action>, m: nat, i: nat, ts: int)
    requires IsRun(x, states, actions) && m < |actions| && x.config.sourceMode == WAIT_FOR_BUFFER
    requires actions[m] == AskFor(i, ts)
    ensures Sane(x.config, states[m].sched) && i < x.config.sources
    ensures var c, s, fut := x.config, states[m].sched, Request(x.config, states[m].sched, ts, i).1;
      && (fut.SlotBuffer? <==> HasInFlight(c, s.flow, ts))
      && (forall k: nat :: IsInFlight(c, s.flow, ts, k) ==> fut == SlotBuffer(Slot(k, c.slots)))
      && (fut.Deferred? <==> !HasInFlight(c, s.flow, ts) && (HasQueued(c, s.flow, ts) || IsDue(c, s, ts)))
      && (fut.Deferred? ==> fut == Deferred(ts))
  {
    var c, s, a := x.config, states[m].sched, states[m].asking;
    RunIsFair(x, states, actions, m);
    assert Runs.StepAt(Steps(x), states, actions, m);
    RequestAnswers(c, s, a, ts, i);
    OutOfDateIsEarly(c, s, a, ts, i);
    if IsOutOfDate(c, s, ts, i) { NothingIsEarly(c, s, ts); }
  }

  /**
    In every run whose sources are served at once, a request before the first frame gets no buffer;
    any other gets the buffer of the lowest slot with a frame in flight near its timestamp, else the
    next slot if that is free before STOP, and no buffer in exactly the remaining cases.
  */
  lemma ImmediateAnswer(x: Setup, states: seq<System>, actions: seq<Action>, m: nat, i: nat, ts: int)
    requires IsRun(x, states, actions) && m < |actions| && x.config.sourceMode == IMMEDIATE_RETURN
    requires actions[m] == AskFor(i, ts)
    ensures Sane(x.config, states[m].sched) && i < x.config.sources
    ensures var c, s, fut := x.config, states[m].sched, Request(x.config, states[m].sched, ts, i).1;
      if ts < s.clock.initial - 2 * c.maxOffset then fut == NoBuffer
      else if HasInFlight(c, s.flow, ts) then IsBufferInFlight(c, s.flow, ts, fut)
      else
        && !fut.Deferred?
        && (fut.SlotBuffer? <==> !s.stopScheduled && s.flow.free > 0)
        && (fut.SlotBuffer? ==> fut.slot == Slot(|s.flow.taken|, c.slots))
  {
    var c, s, a := x.config, states[m].sched, states[m].asking;
    RunIsFair(x, states, actions, m);
    assert Runs.StepAt(Steps(x), states, actions, m);
    RequestAnswers(c, s, a, ts, i);
    OutOfDateIsEarly(c, s, a, ts, i);
  }

  /**
    A frame in flight does not always answer a source that is served at once: a request before the
    first frame is refused, although a frame near it, asked for a little later than that, still runs.
  */
  lemma EarlyIsRefused() returns (c: Config, s: Sched, a: Asking, ts: int, i: nat)
    ensures SR.Good(c, s, a) && i < c.sources && MayAsk(c, s, a, ts, i) && c.sourceMode == IMMEDIATE_RETURN
    ensures HasInFlight(c, s.flow, ts) && Request(c, s, ts, i).1 == NoBuffer
  {
    c := Config(1, 2, 1, IMMEDIATE_RETURN, WAIT_FOR_EVENT);
    a := InitialAsking(c);
    SR.StartGood(c, 10);
    var s0 := Start(c, 10);
    var s1 := s0.(clock := s0.clock.NewTimestamp(100, 1));
    SR.NewTimestampFrames(c, s0, 100);
    SR.ImmediateGood(c, s1, a, 98);
    ImmediateWindow(c, s1.flow, 98);
    s := s1.(flow := ScheduleImmediately(c, s1.flow, 98));
    ts, i := 97, 0;
    assert IsInFlight(c, s.flow, ts, 0);
  }
}
