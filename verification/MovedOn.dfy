/**
  No frame is held up by a source that has moved on. When sources wait for buffers and no request
  skips more than one frame, every frame that a source's latest request leaves behind already has
  that source's input spoken for in its slot, or lists the source while it is queued.
*/
module MovedOn {
  import opened Events
  import opened Clock
  import opened SchedulerCore
  import opened SchedulerWindow
  import opened Requests
  import opened SourceInputs
  import opened DataflowSystem
  import opened Pipeline
  import opened PipelineSteps
  import opened PipelineTheorems
  import opened Lifecycle
  import Answers
  import FrameGrid
  import SR = SourceRequests
  import R = Ring
  import N = Network
  import Runs

  /** Step `k` does not wait for source `i`: its slot's input is spoken for, or its entry lists the source. */
  predicate Spoken(c: Config, f: Flow, i: nat, k: nat)
    requires Shape(c, f) && k < |History(f)|
  {
    if k < |f.taken| then (i, R.Slot(k, c.slots)) in f.setInput
    else i in f.queue[k - |f.taken|].invalidSources
  }

  /** Step `k` has a frame that source `i` has left behind. */
  predicate LeftBehind(c: Config, f: Flow, last: seq<int>, i: nat, k: nat)
    requires |last| == c.sources
  {
    && i < c.sources && f.ended <= k < |History(f)|
    && History(f)[k].kind == DATA && IsOlder(c, History(f)[k].timestamp, last[i])
  }

  ghost predicate NothingHeld(c: Config, f: Flow, last: seq<int>)
    requires Shape(c, f) && |last| == c.sources
  {
    forall i: nat, k: nat :: LeftBehind(c, f, last, i, k) ==> Spoken(c, f, i, k)
  }

  /** The sources that have moved past a frame are exactly the ones its event lists, or fewer. */
  ghost predicate ListsTheAbsent(c: Config, ev: ScheduledEvent, last: seq<int>)
    requires |last| == c.sources
  {
    forall i: nat :: i < c.sources && IsOlder(c, ev.timestamp, last[i]) ==> i in ev.invalidSources
  }

  // ---- what the scheduler's operations do to spoken inputs -----------------------------------

  lemma ScheduleSpoken(c: Config, f: Flow, ev: ScheduledEvent, i: nat, k: nat)
    requires Window(c, f) && i < c.sources && f.ended <= k < |History(f)|
    ensures var g := Schedule(c, f, ev);
      && Shape(c, g) && k < |History(g)| && History(g)[k] == History(f)[k]
      && (Spoken(c, g, i, k) <==> Spoken(c, f, i, k))
  {
    ScheduleWindow(c, f, ev);
    if f.free > 0 {
      LoadFrame(c, f.(free := f.free - 1), ev);
      NextIsFree(c, f);
      WindowInjectiveFact(f.ended, k, |f.taken|, c.slots);
    }
  }

  /** A frame just scheduled waits for exactly the sources it does not list. */
  lemma ScheduleSpeaks(c: Config, f: Flow, ev: ScheduledEvent, i: nat)
    requires Window(c, f) && i < c.sources && ev.kind == DATA
    ensures var g, k := Schedule(c, f, ev), |History(f)|;
      && Shape(c, g) && |History(g)| == k + 1 && History(g)[k] == ev && k >= g.ended
      && (Spoken(c, g, i, k) <==> i in ev.invalidSources)
  {
    ScheduleWindow(c, f, ev);
    if f.free > 0 {
      LoadFrame(c, f.(free := f.free - 1), ev);
      NextIsFree(c, f);
    }
  }

  lemma OnlyNewFrame(c: Config, f: Flow, ev: ScheduledEvent, last: seq<int>, i: nat, k: nat)
    requires Window(c, f) && |last| == c.sources && NothingHeld(c, f, last)
    requires Shape(c, Schedule(c, f, ev)) && LeftBehind(c, Schedule(c, f, ev), last, i, k) && k < |History(f)|
    ensures Spoken(c, Schedule(c, f, ev), i, k)
  {
    ScheduleWindow(c, f, ev);
    ScheduleSpoken(c, f, ev, i, k);
    assert LeftBehind(c, f, last, i, k);
  }

  /** Scheduling a frame holds something up exactly when a source has passed it without being listed. */
  lemma ScheduleHolds(c: Config, f: Flow, ev: ScheduledEvent, last: seq<int>)
    requires Window(c, f) && |last| == c.sources && NothingHeld(c, f, last)
    ensures Shape(c, Schedule(c, f, ev))
    ensures NothingHeld(c, Schedule(c, f, ev), last) <==> (ev.kind == DATA ==> ListsTheAbsent(c, ev, last))
  {
    var g, n := Schedule(c, f, ev), |History(f)|;
    ScheduleWindow(c, f, ev);
    assert History(g) == History(f) + [ev];
    if ev.kind == DATA ==> ListsTheAbsent(c, ev, last) {
      forall i: nat, k: nat | LeftBehind(c, g, last, i, k)
        ensures Spoken(c, g, i, k)
      {
        if k < n { OnlyNewFrame(c, f, ev, last, i, k); } else { ScheduleSpeaks(c, f, ev, i); }
      }
    } else {
      var i: nat :| i < c.sources && IsOlder(c, ev.timestamp, last[i]) && i !in ev.invalidSources;
      ScheduleSpeaks(c, f, ev, i);
      assert LeftBehind(c, g, last, i, n);
    }
  }

  lemma EndSpoken(c: Config, f: Flow, i: nat, k: nat)
    requires Window(c, f) && f.ended < |f.taken| && i < c.sources && f.ended < k < |History(f)|
    requires History(f)[k].kind == DATA && Spoken(c, f, i, k) && R.Slot(f.ended, c.slots) < c.slots
    ensures var g := FreeTimeStep(c, f, R.Slot(f.ended, c.slots));
      Shape(c, g) && k < |History(g)| && Spoken(c, g, i, k)
  {
    var s := R.Slot(f.ended, c.slots);
    FreeWindow(c, f);
    if f.queue != [] {
      var z := Vacate(c, f, s);
      LoadFrame(c, z.(queue := z.queue[1..]), z.queue[0]);
      if k < |f.taken| {
        WindowInjectiveFact(f.ended, k, f.ended, c.slots);
      } else if k == |f.taken| {
        NextIsFree(c, f);
        R.Wraps(f.ended, c.slots);
      }
    }
  }

  lemma EndHolds(c: Config, f: Flow, last: seq<int>)
    requires Window(c, f) && f.ended < |f.taken| && |last| == c.sources && NothingHeld(c, f, last)
    ensures var s := R.Slot(f.ended, c.slots);
      s < c.slots && Shape(c, FreeTimeStep(c, f, s)) && NothingHeld(c, FreeTimeStep(c, f, s), last)
  {
    FreeWindow(c, f);
    var g := FreeTimeStep(c, f, R.Slot(f.ended, c.slots));
    forall i: nat, k: nat | LeftBehind(c, g, last, i, k)
      ensures Spoken(c, g, i, k)
    {
      assert History(g) == History(f);
      assert LeftBehind(c, f, last, i, k);
      EndSpoken(c, f, i, k);
    }
  }

  /** The frames and ended steps are the same, and no input is taken back. */
  lemma SameHolds(c: Config, f: Flow, g: Flow, last: seq<int>)
    requires Shape(c, f) && Shape(c, g) && |last| == c.sources && NothingHeld(c, f, last)
    requires g.taken == f.taken && g.queue == f.queue && g.ended == f.ended && f.setInput <= g.setInput
    ensures NothingHeld(c, g, last)
  {
    forall i: nat, k: nat | LeftBehind(c, g, last, i, k)
      ensures Spoken(c, g, i, k)
    {
      assert LeftBehind(c, f, last, i, k);
    }
  }

  /** A request settles everything its source leaves behind by it. */
  lemma CancelHolds(c: Config, f: Flow, last: seq<int>, ts: int, i: nat)
    requires Window(c, f) && |last| == c.sources && i < c.sources && NothingHeld(c, f, last)
    ensures Shape(c, CancelSource(c, f, ts, i))
    ensures NothingHeld(c, CancelSource(c, f, ts, i), last[i := ts])
  {
    var g := CancelSource(c, f, ts, i);
    forall x: nat, k: nat | LeftBehind(c, g, last[i := ts], x, k)
      ensures Spoken(c, g, x, k)
    {
      CancelSpeaks(c, f, last, ts, i, x, k);
    }
  }

  lemma CancelSpeaks(c: Config, f: Flow, last: seq<int>, ts: int, i: nat, x: nat, k: nat)
    requires Window(c, f) && |last| == c.sources && i < c.sources && NothingHeld(c, f, last)
    requires LeftBehind(c, CancelSource(c, f, ts, i), last[i := ts], x, k)
    ensures Spoken(c, CancelSource(c, f, ts, i), x, k)
  {
    var g := CancelSource(c, f, ts, i);
    CancelHistory(c, f, ts, i);
    if k < |f.taken| {
      assert Hosts(c, f, k);
      R.SlotBound(k, c.slots);
      if x != i { assert LeftBehind(c, f, last, x, k); }
    } else {
      var q := k - |f.taken|;
      assert g.queue[q] == Mark(c, f.queue[q], ts, i);
      if x != i { assert LeftBehind(c, f, last, x, k); }
    }
  }

  // ---- what makes a request safe -------------------------------------------------------------

  /** The request lies at most one frame beyond the one the clock expects next. */
  predicate SkipsAtMostOne(c: Config, clock: ClockState, ts: int) {
    var e := clock.NewTimestamp(ts, c.maxOffset).expected;
    ts <= e + clock.delta + 2 * c.maxOffset
  }

  /** No source has asked past the frame that is scheduled next. */
  predicate NoneAhead(c: Config, s: Sched, last: seq<int>)
    requires |last| == c.sources == |s.lastNew|
  {
    && (forall i: nat :: i < c.sources ==> s.lastNew[i] <= last[i] || s.lastNew[i] == TIMESTAMP_ZERO)
    && (s.clock.initial == TIMESTAMP_ZERO ==>
          forall i: nat :: i < c.sources ==> last[i] == NeverAsked(c) && s.lastNew[i] == TIMESTAMP_ZERO)
    && (s.clock.initial != TIMESTAMP_ZERO && !s.stopScheduled ==>
          forall i: nat :: i < c.sources ==> last[i] <= s.clock.expected + 2 * c.maxOffset)
  }

  predicate NoneEarly(s: Sched) {
    s.clock.initial != TIMESTAMP_ZERO ==>
      forall k :: 0 <= k < |History(s.flow)| && History(s.flow)[k].kind == DATA
        ==> History(s.flow)[k].timestamp >= s.clock.initial
  }

  ghost predicate Prompt(c: Config, s: Sched, last: seq<int>) {
    && Sane(c, s) && |last| == c.sources
    && NothingHeld(c, s.flow, last) && NoneAhead(c, s, last) && NoneEarly(s)
  }

  // ---- requests ------------------------------------------------------------------------------

  /** All other sources are at or before the expected frame; source `i` asks for `ts`. */
  predicate OthersWait(c: Config, s: Sched, last: seq<int>, ts: int, i: nat)
    requires |last| == c.sources
  {
    && i < c.sources && last[i] == ts
    && forall j: nat :: j < c.sources && j != i ==> last[j] <= s.clock.expected + 2 * c.maxOffset
  }

  /** The skipped frame lists the source that skips it, so it is not held up; the next frame is the question. */
  lemma PaddingHolds(c: Config, s: Sched, last: seq<int>, ts: int, i: nat)
    requires Window(c, s.flow) && |last| == c.sources && NothingHeld(c, s.flow, last)
    requires OthersWait(c, s, last, ts, i)
    ensures var t := SchedulePadding(c, s, i);
      Window(c, t.flow) && NothingHeld(c, t.flow, last)
  {
    ScheduleWindow(c, s.flow, PaddingEvent(s.clock.expected, i));
    ScheduleHolds(c, s.flow, PaddingEvent(s.clock.expected, i), last);
  }

  lemma NextHolds(c: Config, s: Sched, last: seq<int>, ts: int, i: nat)
    requires Window(c, s.flow) && |last| == c.sources && NothingHeld(c, s.flow, last)
    requires OthersWait(c, s, last, ts, i)
    ensures Shape(c, ScheduleNext(c, s).flow)
    ensures NothingHeld(c, ScheduleNext(c, s).flow, last) <==> ts <= s.clock.expected + 2 * c.maxOffset
  {
    ScheduleHolds(c, s.flow, DataEvent(s.clock.expected), last);
  }

  /**
    A request for a new time step that lies ahead of the expected frame leaves nothing held up if
    and only if it skips a single frame: the padding loop schedules exactly one event without the
    source, and the frame after it is scheduled with all sources.
  */
  lemma SkippingHolds(c: Config, s: Sched, last: seq<int>, ts: int, i: nat)
    requires Window(c, s.flow) && |last| == c.sources && NothingHeld(c, s.flow, last)
    requires c.sourceMode == WAIT_FOR_BUFFER && !s.stopScheduled && s.clock.delta > 0
    requires OthersWait(c, s, last, ts, i) && s.clock.IsFurtherAhead(ts, c.maxOffset)
    ensures var t := SR.NewRequest(c, s, ts, i).0;
      && Shape(c, t.flow)
      && (NothingHeld(c, t.flow, last) <==> ts <= s.clock.expected + s.clock.delta + 2 * c.maxOffset)
  {
    PaddingHolds(c, s, last, ts, i);
    NextHolds(c, SchedulePadding(c, s, i), last, ts, i);
  }

  lemma NewRequestHolds(c: Config, s: Sched, last: seq<int>, ts: int, i: nat)
    requires Window(c, s.flow) && |last| == c.sources && NothingHeld(c, s.flow, last)
    requires c.sourceMode == WAIT_FOR_BUFFER && s.clock.delta > 0
    requires s.stopScheduled || OthersWait(c, s, last, ts, i)
    requires ts <= s.clock.expected + s.clock.delta + 2 * c.maxOffset
    ensures var t := SR.NewRequest(c, s, ts, i).0;
      && Shape(c, t.flow) && NothingHeld(c, t.flow, last)
      && t.lastNew == s.lastNew && t.clock.initial == s.clock.initial && t.stopScheduled == s.stopScheduled
      && t.clock.expected >= s.clock.expected
      && (!s.stopScheduled ==> ts <= t.clock.expected + 2 * c.maxOffset)
  {
    if !s.stopScheduled {
      if s.clock.IsNext(ts, c.maxOffset) {
        NextHolds(c, s, last, ts, i);
      } else if s.clock.IsFurtherAhead(ts, c.maxOffset) {
        SkippingHolds(c, s, last, ts, i);
      }
    }
  }

  /** A frame that matches a request lies before the frame that the clock expects. */
  lemma MatchIsBeforeExpected(c: Config, s: Sched, ts: int, k: nat)
    requires Frames(c, s) && c.sourceMode == WAIT_FOR_BUFFER && k < |History(s.flow)|
    requires History(s.flow)[k].kind == DATA && IsWithinRange(History(s.flow)[k].timestamp, ts, c.maxOffset)
    ensures ts < s.clock.expected
  {
  }

  /** A request that finds its frame, running or queued, asks for something before the expected frame. */
  lemma FoundIsBeforeExpected(c: Config, s: Sched, a: Asking, ts: int)
    requires SR.Good(c, s, a) && c.sourceMode == WAIT_FOR_BUFFER && ts > 2 * c.maxOffset
    requires FindRunning(c, s.flow, ts, 0) >= 0 || IsScheduled(c, s.flow, ts)
    ensures ts < s.clock.expected
  {
    var j := FindRunning(c, s.flow, ts, 0);
    if j >= 0 {
      var k := MatchRuns(c, s.flow, a, ts, j);
      MatchIsBeforeExpected(c, s, ts, k);
    } else {
      var q :| 0 <= q < |s.flow.queue| && IsWithinRange(s.flow.queue[q].timestamp, ts, c.maxOffset);
      assert QueuedOk(c, s.flow.queue[q], a);
      MatchIsBeforeExpected(c, s, ts, |s.flow.taken| + q);
    }
  }

  /** A prompt source's request is not out of date, unless it comes before the very first frame. */
  lemma InvalidIsEarly(c: Config, s: Sched, a: Asking, ts: int, i: nat)
    requires SR.Good(c, s, a) && i < c.sources && MayAsk(c, s, a, ts, i) && NoneAhead(c, s, a.last)
    requires IsInvalidNext(c, s, ts, i)
    ensures s.clock.initial != TIMESTAMP_ZERO && ts + c.maxOffset < s.clock.initial - c.maxOffset
  {
  }

  /** A request before the first frame leaves no frame behind. */
  lemma EarlyHolds(c: Config, s: Sched, last: seq<int>, ts: int, i: nat)
    requires Prompt(c, s, last) && i < c.sources && s.clock.initial != TIMESTAMP_ZERO
    requires ts + c.maxOffset < s.clock.initial - c.maxOffset
    ensures NothingHeld(c, s.flow, last[i := ts])
  {
    forall x: nat, k: nat | LeftBehind(c, s.flow, last[i := ts], x, k)
      ensures Spoken(c, s.flow, x, k)
    {
      assert x != i && LeftBehind(c, s.flow, last, x, k);
    }
  }

  /** What is left of a request once its source's older inputs are settled. */
  lemma AskedHolds(c: Config, s: Sched, last: seq<int>, ts: int, i: nat)
    requires Sane(c, s) && Window(c, s.flow) && Frames(c, s)
    requires i < c.sources == |last| && last[i] == ts && c.sourceMode == WAIT_FOR_BUFFER
    requires s.clock.initial != TIMESTAMP_ZERO && NothingHeld(c, s.flow, last)
    requires s.stopScheduled || OthersWait(c, s, last, ts, i)
    requires ts <= s.clock.expected + s.clock.delta + 2 * c.maxOffset
    requires forall j: nat :: j < c.sources ==> s.lastNew[j] <= last[j] || s.lastNew[j] == TIMESTAMP_ZERO
    ensures var t := SR.NewRequest(c, s, ts, i).0;
      Shape(c, t.flow) && |t.lastNew| == c.sources && NothingHeld(c, t.flow, last) && NoneAhead(c, t, last)
  {
    NewRequestHolds(c, s, last, ts, i);
  }

  /** The other sources are not ahead of a clock that a request has just set. */
  lemma OthersWaitOnceAsked(c: Config, s: Sched, a: Asking, ts: int, i: nat)
    requires SR.Good(c, s, a) && i < c.sources && MayAsk(c, s, a, ts, i) && NoneAhead(c, s, a.last)
    ensures s.stopScheduled || OthersWait(c, SR.Asked(c, s, ts, i), a.last[i := ts], ts, i)
  {
  }

  lemma RequestHolds(c: Config, s: Sched, a: Asking, ts: int, i: nat)
    requires SR.Good(c, s, a) && i < c.sources && MayAsk(c, s, a, ts, i) && c.sourceMode == WAIT_FOR_BUFFER
    requires Prompt(c, s, a.last) && SkipsAtMostOne(c, s.clock, ts)
    ensures var t := Request(c, s, ts, i).0;
      Sane(c, t) && NothingHeld(c, t.flow, a.last[i := ts]) && NoneAhead(c, t, a.last[i := ts])
  {
    if IsInvalidNext(c, s, ts, i) {
      InvalidIsEarly(c, s, a, ts, i);
      EarlyHolds(c, s, a.last, ts, i);
    } else {
      ValidRequestHolds(c, s, a, ts, i);
    }
  }

  lemma ValidRequestHolds(c: Config, s: Sched, a: Asking, ts: int, i: nat)
    requires SR.Good(c, s, a) && i < c.sources && MayAsk(c, s, a, ts, i) && c.sourceMode == WAIT_FOR_BUFFER
    requires Prompt(c, s, a.last) && SkipsAtMostOne(c, s.clock, ts) && !IsInvalidNext(c, s, ts, i)
    ensures var t := Request(c, s, ts, i).0;
      Sane(c, t) && NothingHeld(c, t.flow, a.last[i := ts]) && NoneAhead(c, t, a.last[i := ts])
  {
    var last, s1, b := a.last[i := ts], SR.Asked(c, s, ts, i), Refuse(a, i, ts);
    SR.AskedGood(c, s, a, ts, i);
    CancelHolds(c, s.flow, a.last, ts, i);
    if FindRunning(c, s1.flow, ts, 0) >= 0 || IsScheduled(c, s1.flow, ts) {
      FoundHolds(c, s1, b, ts, i);
      ServedHolds(c, s, last, ts, i);
    } else {
      OthersWaitOnceAsked(c, s, a, ts, i);
      UnservedHolds(c, s, last, ts, i);
    }
  }

  lemma UnservedHolds(c: Config, s: Sched, last: seq<int>, ts: int, i: nat)
    requires Sane(c, s) && i < c.sources == |last| && c.missingMode == WAIT_FOR_EVENT
    requires !IsInvalidNext(c, s, ts, i) && last[i] == ts && c.sourceMode == WAIT_FOR_BUFFER
    requires var s1 := SR.Asked(c, s, ts, i);
      && FindRunning(c, s1.flow, ts, 0) < 0 && !IsScheduled(c, s1.flow, ts)
      && Window(c, s1.flow) && Frames(c, s1) && s1.clock.initial != TIMESTAMP_ZERO
      && NothingHeld(c, s1.flow, last) && (s1.stopScheduled || OthersWait(c, s1, last, ts, i))
      && ts <= s1.clock.expected + s1.clock.delta + 2 * c.maxOffset
    requires forall j: nat :: j < c.sources && j != i ==> s.lastNew[j] <= last[j] || s.lastNew[j] == TIMESTAMP_ZERO
    ensures var t := Request(c, s, ts, i).0;
      Sane(c, t) && NothingHeld(c, t.flow, last) && NoneAhead(c, t, last)
  {
    Answers.AskedLooksAlike(c, s, ts, i);
    Answers.NotFoundIsNew(c, s, ts, i);
    AskedHolds(c, SR.Asked(c, s, ts, i).(lastNew := s.lastNew[i := ts]), last, ts, i);
  }

  /** A request that finds its frame changes no more than what canceling and claiming do. */
  lemma ServedHolds(c: Config, s: Sched, last: seq<int>, ts: int, i: nat)
    requires Sane(c, s) && i < c.sources && c.missingMode == WAIT_FOR_EVENT && c.sourceMode == WAIT_FOR_BUFFER
    requires !IsInvalidNext(c, s, ts, i) && |last| == c.sources && last[i] == ts
    requires var s1 := SR.Asked(c, s, ts, i);
      && (FindRunning(c, s1.flow, ts, 0) >= 0 || IsScheduled(c, s1.flow, ts)) && ts < s1.clock.expected
      && NothingHeld(c, s1.flow, last)
      && (FindRunning(c, s1.flow, ts, 0) >= 0 ==>
            NothingHeld(c, Claim(s1.flow, i, FindRunning(c, s1.flow, ts, 0)), last))
    ensures var t := Request(c, s, ts, i).0;
      && Sane(c, t) && NothingHeld(c, t.flow, last)
      && t.clock == SR.Asked(c, s, ts, i).clock && t.lastNew == s.lastNew
  {
  }

  /** A request that finds its frame takes nothing back and asks for nothing ahead of the clock. */
  lemma FoundHolds(c: Config, s: Sched, a: Asking, ts: int, i: nat)
    requires SR.Good(c, s, a) && i < c.sources && c.sourceMode == WAIT_FOR_BUFFER && ts > 2 * c.maxOffset
    requires FindRunning(c, s.flow, ts, 0) >= 0 || IsScheduled(c, s.flow, ts)
    requires NothingHeld(c, s.flow, a.last)
    ensures ts < s.clock.expected
    ensures var j := FindRunning(c, s.flow, ts, 0); j >= 0 ==> NothingHeld(c, Claim(s.flow, i, j), a.last)
  {
    FoundIsBeforeExpected(c, s, a, ts);
    var j := FindRunning(c, s.flow, ts, 0);
    if j >= 0 { SameHolds(c, s.flow, Claim(s.flow, i, j), a.last); }
  }

  // ---- frames do not come before the first one -----------------------------------------------

  lemma ScheduleEarly(c: Config, s: Sched, ev: ScheduledEvent, clock: ClockState)
    requires Window(c, s.flow) && NoneEarly(s)
    requires clock.initial == s.clock.initial
    requires ev.kind == DATA ==> ev.timestamp >= clock.initial
    ensures Window(c, Schedule(c, s.flow, ev))
    ensures NoneEarly(s.(flow := Schedule(c, s.flow, ev), clock := clock))
  {
    ScheduleWindow(c, s.flow, ev);
    assert History(Schedule(c, s.flow, ev)) == History(s.flow) + [ev];
  }

  lemma NewRequestEarly(c: Config, s: Sched, ts: int, i: nat)
    requires Window(c, s.flow) && NoneEarly(s) && c.sourceMode == WAIT_FOR_BUFFER
    requires s.clock.expected >= s.clock.initial && s.clock.delta > 0
    ensures NoneEarly(SR.NewRequest(c, s, ts, i).0)
  {
    if s.clock.IsNext(ts, c.maxOffset) {
      ScheduleEarly(c, s, DataEvent(s.clock.expected), s.clock.Advance());
    } else if s.clock.IsFurtherAhead(ts, c.maxOffset) {
      var p := SchedulePadding(c, s, i);
      ScheduleEarly(c, s, PaddingEvent(s.clock.expected, i), s.clock.Advance());
      ScheduleEarly(c, p, DataEvent(p.clock.expected), p.clock.Advance());
    }
  }

  lemma SameEarly(s: Sched, t: Sched)
    requires NoneEarly(s) && History(t.flow) == History(s.flow) && t.clock.initial == s.clock.initial
    ensures NoneEarly(t)
  {
  }

  lemma RequestEarly(c: Config, s: Sched, a: Asking, ts: int, i: nat)
    requires SR.Good(c, s, a) && i < c.sources && MayAsk(c, s, a, ts, i) && c.sourceMode == WAIT_FOR_BUFFER
    requires NoneEarly(s)
    ensures NoneEarly(Request(c, s, ts, i).0)
  {
    if !IsInvalidNext(c, s, ts, i) {
      var s1 := SR.Asked(c, s, ts, i);
      SR.AskedGood(c, s, a, ts, i);
      CancelEarly(c, s, ts, i);
      var j := FindRunning(c, s1.flow, ts, 0);
      var s2 := s1.(lastNew := s.lastNew[i := ts]);
      SameEarly(s1, s2);
      if j >= 0 {
        SameEarly(s1, s1.(flow := Claim(s1.flow, i, j)));
      } else if !IsScheduled(c, s1.flow, ts) {
        NewRequestEarly(c, s2, ts, i);
      }
    }
  }

  lemma CancelEarly(c: Config, s: Sched, ts: int, i: nat)
    requires Shape(c, s.flow) && Frames(c, s) && NoneEarly(s) && c.sourceMode == WAIT_FOR_BUFFER
    ensures NoneEarly(SR.Asked(c, s, ts, i))
  {
    var h, h' := History(s.flow), History(SR.Asked(c, s, ts, i).flow);
    forall k | 0 <= k < |h'| && h'[k].kind == DATA
      ensures h'[k].timestamp >= SR.Asked(c, s, ts, i).clock.initial
    {
      assert h'[k].timestamp == h[k].timestamp && h'[k].kind == h[k].kind;
    }
  }

  // ---- every run -----------------------------------------------------------------------------

  /** A step of the dataflow whose requests skip at most one frame. */
  ghost function PromptSteps(x: Setup): (System, Action, System) -> bool {
    (s, a, t) => Next(x, s, a, t) && (a.AskFor? ==> SkipsAtMostOne(x.config, s.sched.clock, a.timestamp))
  }

  lemma ControlPrompt(c: Config, s: Sched, last: seq<int>, ev: ScheduledEvent, stop: bool)
    requires Window(c, s.flow) && Prompt(c, s, last) && ev.kind != DATA
    ensures Prompt(c, s.(flow := Schedule(c, s.flow, ev), stopScheduled := s.stopScheduled || stop), last)
  {
    ScheduleHolds(c, s.flow, ev, last);
    ScheduleEarly(c, s, ev, s.clock);
  }

  lemma MainPrompt(x: Setup, s: System)
    requires Window(x.config, s.sched.flow) && Prompt(x.config, s.sched, s.asking.last)
    ensures Prompt(x.config, MainStep(x, s).sched, s.asking.last)
  {
    if Submits(s.phase) {
      var kind := NextEvent(s.phase);
      ControlPrompt(x.config, s.sched, s.asking.last, ControlEvent(kind), kind == STOP);
    }
  }

  lemma EndPrompt(x: Setup, s: System, j: nat)
    requires Inv(x, s) && Prompt(x.config, s.sched, s.asking.last)
    requires j < x.net.n && s.counts.Running(N.Step(j, N.TimeStepEnd))
    ensures Prompt(x.config, TimeStepEnded(x.config, s.sched, j), s.asking.last)
  {
    EndsOldest(x, s, j);
    EndHolds(x.config, s.sched.flow, s.asking.last);
    FrameGrid.EndHistory(x, s, j);
  }

  lemma QuietPrompt(x: Setup, s: System, a: Action)
    requires Inv(x, s) && Allowed(x, s, a) && IsQuiet(a) && Prompt(x.config, s.sched, s.asking.last)
    ensures Prompt(x.config, Apply(x, s, a).sched, Apply(x, s, a).asking.last)
  {
    ActionKeepsInv(x, s, a);
    QuietActions(x, s, a);
    FrameGrid.QuietClock(x, s, a);
    SameHolds(x.config, s.sched.flow, Apply(x, s, a).sched.flow, s.asking.last);
    SameEarly(s.sched, Apply(x, s, a).sched);
  }

  lemma RequestPrompt(x: Setup, s: System, i: nat, ts: int)
    requires Inv(x, s) && Allowed(x, s, AskFor(i, ts)) && x.config.sourceMode == WAIT_FOR_BUFFER
    requires Prompt(x.config, s.sched, s.asking.last) && SkipsAtMostOne(x.config, s.sched.clock, ts)
    ensures Prompt(x.config, Asked(x, s, i, ts).sched, Asked(x, s, i, ts).asking.last)
  {
    RequestHolds(x.config, s.sched, s.asking, ts, i);
    RequestEarly(x.config, s.sched, s.asking, ts, i);
  }

  lemma ActionKeepsPrompt(x: Setup, s: System, a: Action)
    requires Inv(x, s) && Allowed(x, s, a) && x.config.sourceMode == WAIT_FOR_BUFFER
    requires Prompt(x.config, s.sched, s.asking.last)
    requires a.AskFor? ==> SkipsAtMostOne(x.config, s.sched.clock, a.timestamp)
    ensures Prompt(x.config, Apply(x, s, a).sched, Apply(x, s, a).asking.last)
  {
    if IsQuiet(a) {
      QuietPrompt(x, s, a);
    } else {
      match a {
        case AskFor(i, ts) => RequestPrompt(x, s, i, ts);
        case MainThread => MainPrompt(x, s);
        case SetParameter(p) =>
          ControlPrompt(x.config, s.sched, s.asking.last,
                        ScheduledEvent(TIMESTAMP_ZERO, PARAMETER_CHANGE, [], p), false);
        case CompleteNode(v) => EndPrompt(x, s, v.slot);
      }
    }
  }

  lemma InitialPrompt(x: Setup)
    requires x.Valid()
    ensures Prompt(x.config, InitialSystem(x).sched, InitialSystem(x).asking.last)
  {
  }

  lemma RunKeepsPrompt(x: Setup, states: seq<System>, actions: seq<Action>, i: nat)
    requires x.Valid() && x.config.sourceMode == WAIT_FOR_BUFFER
    requires Runs.IsStretch(PromptSteps(x), states, actions) && states[0] == InitialSystem(x) && i < |states|
    ensures Inv(x, states[i]) && Prompt(x.config, states[i].sched, states[i].asking.last)
  {
    var inv := (s: System) => Inv(x, s) && Prompt(x.config, s.sched, s.asking.last);
    forall s, a, t | inv(s) && PromptSteps(x)(s, a, t)
      ensures inv(t)
    {
      ActionKeepsInv(x, s, a);
      ActionKeepsPrompt(x, s, a);
    }
    InitialInv(x);
    InitialPrompt(x);
    Runs.Keeps(PromptSteps(x), inv, states, actions, i);
  }

  /**
    In every run whose requests skip at most one frame, a frame in flight that a source's latest
    request has left behind does not wait for that source: the input is spoken for in the frame's
    slot, and a queued frame lists the source.
  */
  lemma NoFrameIsHeldUp(x: Setup, states: seq<System>, actions: seq<Action>, n: nat, i: nat, k: nat)
    requires x.Valid() && x.config.sourceMode == WAIT_FOR_BUFFER
    requires Runs.IsStretch(PromptSteps(x), states, actions) && states[0] == InitialSystem(x) && n < |states|
    requires i < x.config.sources && k < |History(states[n].sched.flow)| && k >= states[n].sched.flow.ended
    requires History(states[n].sched.flow)[k].kind == DATA && |states[n].asking.last| == x.config.sources
    requires IsOlder(x.config, History(states[n].sched.flow)[k].timestamp, states[n].asking.last[i])
    ensures var f := states[n].sched.flow;
      if k < |f.taken| then (i, R.Slot(k, x.net.n)) in f.setInput
      else i in f.queue[k - |f.taken|].invalidSources
  {
    RunKeepsPrompt(x, states, actions, n);
    assert LeftBehind(x.config, states[n].sched.flow, states[n].asking.last, i, k);
  }
}
