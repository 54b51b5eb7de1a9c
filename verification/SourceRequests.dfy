/**
  Requests keep the scheduler's invariants: the window, the inputs and the frame order. The
  module's main results are that a request under `MayAsk` keeps all three, and that a deferred
  future finds the slot of its own frame, still running.
*/
module SourceRequests {
  import opened Events
  import opened Ring
  import opened Clock
  import opened SchedulerCore
  import opened SchedulerWindow
  import opened Requests
  import opened SourceInputs

  ghost predicate Good(c: Config, s: Sched, a: Asking) {
    && Sane(c, s)
    && c.missingMode == WAIT_FOR_EVENT
    && Window(c, s.flow)
    && Inputs(c, s.flow, a)
    && Frames(c, s)
  }

  lemma StartGood(c: Config, delta: int)
    requires c.Valid() && c.missingMode == WAIT_FOR_EVENT && delta > 4 * c.maxOffset
    ensures Good(c, Start(c, delta), InitialAsking(c))
  {
    InitialWindow(c);
  }

  // ---- frame order ---------------------------------------------------------------------------

  predicate SameStamps(q: seq<ScheduledEvent>, r: seq<ScheduledEvent>) {
    && |q| == |r|
    && forall i :: 0 <= i < |q| ==> q[i].kind == r[i].kind && q[i].timestamp == r[i].timestamp
  }

  /** Marking, claiming and committing leave the frame order alone. */
  lemma FramesSame(c: Config, s: Sched, t: Sched)
    requires Frames(c, s) && t.clock == s.clock
    requires t.flow.taken == s.flow.taken && SameStamps(s.flow.queue, t.flow.queue)
    requires t.flow.latestRunning == s.flow.latestRunning
    ensures Frames(c, t)
  {
    var h, h' := s.flow.taken + s.flow.queue, t.flow.taken + t.flow.queue;
    forall i | 0 <= i < |h|
      ensures h[i].kind == h'[i].kind && h[i].timestamp == h'[i].timestamp
    {
    }
  }

  lemma NewTimestampFrames(c: Config, s: Sched, ts: int)
    requires Frames(c, s) && ts > 2 * c.maxOffset
    ensures Frames(c, s.(clock := s.clock.NewTimestamp(ts, c.maxOffset)))
    ensures s.clock.NewTimestamp(ts, c.maxOffset).initial != TIMESTAMP_ZERO
  {
    var t := s.(clock := s.clock.NewTimestamp(ts, c.maxOffset));
    var h := s.flow.taken + s.flow.queue;
    assert t.clock.delta == s.clock.delta;
    if s.clock.initial != TIMESTAMP_ZERO {
      assert t.clock.expected == s.clock.expected && t.clock.initial == s.clock.initial;
    }
  }

  lemma LoadLatest(c: Config, f: Flow, ev: ScheduledEvent)
    requires Shape(c, f) && LatestFrame(f)
    ensures LatestFrame(Load(c, f, ev))
  {
    var g := Load(c, f, ev);
    LoadFrame(c, f, ev);
    if ev.kind == DATA {
      assert g.taken[|f.taken|] == ev;
    } else if k :| 0 <= k < |f.taken| && f.taken[k].kind == DATA && f.taken[k].timestamp == f.latestRunning
                   && forall l :: k < l < |f.taken| ==> f.taken[l].kind != DATA {
      assert g.taken[k] == f.taken[k];
    }
  }

  lemma ScheduleLatest(c: Config, f: Flow, ev: ScheduledEvent)
    requires Window(c, f) && LatestFrame(f)
    ensures LatestFrame(Schedule(c, f, ev))
  {
    ScheduleWindow(c, f, ev);
    if f.free > 0 {
      LoadLatest(c, f.(free := f.free - 1), ev);
    }
  }

  /** The expected frame comes after every frame scheduled so far. */
  lemma ScheduleDataFrames(c: Config, s: Sched, ev: ScheduledEvent)
    requires Window(c, s.flow) && Frames(c, s) && c.sourceMode == WAIT_FOR_BUFFER
    requires ev.kind == DATA && ev.timestamp == s.clock.expected && s.clock.initial != TIMESTAMP_ZERO
    ensures Frames(c, s.(flow := Schedule(c, s.flow, ev), clock := s.clock.Advance()))
  {
    ScheduleWindow(c, s.flow, ev);
    ScheduleLatest(c, s.flow, ev);
    var g := Schedule(c, s.flow, ev);
    var h, h' := s.flow.taken + s.flow.queue, g.taken + g.queue;
    assert h' == h + [ev];
    assert Spaced(h', s.clock.Advance());
  }

  lemma ScheduleControlFrames(c: Config, s: Sched, ev: ScheduledEvent)
    requires Window(c, s.flow) && Frames(c, s) && ev.kind != DATA
    ensures Frames(c, s.(flow := Schedule(c, s.flow, ev)))
  {
    ScheduleWindow(c, s.flow, ev);
    ScheduleLatest(c, s.flow, ev);
    var g := Schedule(c, s.flow, ev);
    assert g.taken + g.queue == s.flow.taken + s.flow.queue + [ev];
  }

  lemma ImmediateFrames(c: Config, s: Sched, ts: int)
    requires Window(c, s.flow) && Frames(c, s) && c.sourceMode == IMMEDIATE_RETURN
    ensures Frames(c, s.(flow := ScheduleImmediately(c, s.flow, ts)))
  {
    ImmediateWindow(c, s.flow, ts);
    if s.flow.free > 0 {
      LoadLatest(c, s.flow.(free := s.flow.free - 1), DataEvent(ts));
    }
  }

  lemma FreeFrames(c: Config, s: Sched)
    requires Window(c, s.flow) && Frames(c, s) && s.flow.ended < |s.flow.taken|
    ensures Slot(s.flow.ended, c.slots) < c.slots
    ensures Frames(c, s.(flow := FreeTimeStep(c, s.flow, Slot(s.flow.ended, c.slots))))
  {
    var f := s.flow;
    FreeWindow(c, f);
    var g := Vacate(c, f, Slot(f.ended, c.slots));
    if f.queue != [] {
      LoadLatest(c, g.(queue := g.queue[1..]), g.queue[0]);
      LoadFrame(c, g.(queue := g.queue[1..]), g.queue[0]);
    }
  }

  /** A queued frame is later than any frame that runs or ran. */
  lemma QueuedIsLater(c: Config, s: Sched, k: nat, q: nat)
    requires Frames(c, s) && c.sourceMode == WAIT_FOR_BUFFER
    requires k < |s.flow.taken| && q < |s.flow.queue|
    requires s.flow.taken[k].kind == DATA && s.flow.queue[q].kind == DATA
    ensures s.flow.taken[k].timestamp + s.clock.delta <= s.flow.queue[q].timestamp
  {
    var h := s.flow.taken + s.flow.queue;
    assert h[k] == s.flow.taken[k] && h[|s.flow.taken| + q] == s.flow.queue[q];
  }

  // ---- requests ------------------------------------------------------------------------------

  /** When the request's frame runs, its older queued frames do not exist, so nothing gets listed. */
  lemma MatchListsNothing(c: Config, s: Sched, a: Asking, ts: int, i: nat, j: nat)
    requires Good(c, s, a) && i < c.sources && ts > 2 * c.maxOffset && !Listed(s.flow, i) && j < c.slots
    requires IsWithinRange(ts, s.flow.runningTs[j], c.maxOffset)
    ensures CancelSource(c, s.flow, ts, i).queue == s.flow.queue
  {
    var k := MatchRuns(c, s.flow, a, ts, j);
    var q := s.flow.queue;
    forall x: nat | x < |q|
      ensures Mark(c, q[x], ts, i) == q[x]
    {
      if c.sourceMode == WAIT_FOR_BUFFER && q[x].kind == DATA { QueuedIsLater(c, s, k, x); }
    }
  }

  lemma RequestRunning(c: Config, s: Sched, a: Asking, ts: int, i: nat, j: nat)
    requires Good(c, s, a) && i < c.sources && AsksLater(c, a, ts, i) && !Listed(s.flow, i)
    requires j < c.slots && IsWithinRange(ts, s.flow.runningTs[j], c.maxOffset) && (i, j) !in s.flow.setInput
    ensures var f := Claim(CancelSource(c, s.flow, ts, i), i, j);
      && Good(c, s.(flow := f, clock := s.clock.NewTimestamp(ts, c.maxOffset)),
              WithState(Refuse(a, i, ts), i, Holding(j)))
  {
    var g := CancelSource(c, s.flow, ts, i);
    CancelInputs(c, s.flow, a, ts, i);
    MatchListsNothing(c, s, a, ts, i, j);
    ClaimInputs(c, g, Refuse(a, i, ts), i, j);
    var t := s.(flow := Claim(g, i, j));
    FramesSame(c, s, t);
    NewTimestampFrames(c, t, ts);
  }

  /** The scheduler after a request has canceled the source's older inputs and set the clock. */
  function Asked(c: Config, s: Sched, ts: int, i: nat): Sched
    requires Shape(c, s.flow)
  {
    s.(clock := s.clock.NewTimestamp(ts, c.maxOffset), flow := CancelSource(c, s.flow, ts, i))
  }

  lemma AskedGood(c: Config, s: Sched, a: Asking, ts: int, i: nat)
    requires Good(c, s, a) && i < c.sources && AsksLater(c, a, ts, i) && !Listed(s.flow, i)
    ensures Good(c, Asked(c, s, ts, i), Refuse(a, i, ts))
    ensures Asked(c, s, ts, i).clock.initial != TIMESTAMP_ZERO
  {
    CancelInputs(c, s.flow, a, ts, i);
    var t := s.(flow := CancelSource(c, s.flow, ts, i));
    FramesSame(c, s, t);
    NewTimestampFrames(c, t, ts);
  }

  /** The timestamp's frame is queued, or is the expected one or comes later. */
  predicate IsComing(c: Config, s: Sched, ts: int) {
    || IsScheduled(c, s.flow, ts)
    || (s.clock.initial != TIMESTAMP_ZERO && s.clock.expected <= ts + 2 * c.maxOffset)
  }

  /** A source may wait for a frame that is still to come: no step has had it yet. */
  lemma WaitGood(c: Config, s: Sched, a: Asking, i: nat)
    requires Good(c, s, a) && c.sourceMode == WAIT_FOR_BUFFER && i < c.sources && a.states[i].Refused?
    requires a.last[i] > 2 * c.maxOffset && IsComing(c, s, a.last[i]) && FindRunning(c, s.flow, a.last[i], 0) < 0
    ensures Good(c, s, WithState(a, i, Waiting(a.last[i])))
  {
    var f, ts := s.flow, a.last[i];
    forall k: nat | k < f.ended && f.taken[k].kind == DATA
      ensures !IsWithinRange(ts, f.taken[k].timestamp, c.maxOffset)
    {
      if IsScheduled(c, f, ts) {
        var q :| 0 <= q < |f.queue| && IsWithinRange(f.queue[q].timestamp, ts, c.maxOffset);
        assert QueuedOk(c, f.queue[q], a);
        QueuedIsLater(c, s, k, q);
      } else {
        assert (f.taken + f.queue)[k] == f.taken[k];
      }
    }
    StartWaiting(c, f, a, i);
  }

  lemma ScheduleNextGood(c: Config, s: Sched, a: Asking)
    requires Good(c, s, a) && c.sourceMode == WAIT_FOR_BUFFER && s.clock.initial != TIMESTAMP_ZERO
    ensures Good(c, ScheduleNext(c, s), a)
  {
    var ev := DataEvent(s.clock.expected);
    ScheduleInputs(c, s.flow, ev, a);
    ScheduleDataFrames(c, s, ev);
  }

  lemma SchedulePaddingGood(c: Config, s: Sched, a: Asking, i: nat)
    requires Good(c, s, a) && c.sourceMode == WAIT_FOR_BUFFER && s.clock.initial != TIMESTAMP_ZERO
    requires i < c.sources && a.states[i].Waiting? && IsOlder(c, s.clock.expected, a.last[i])
    ensures Good(c, SchedulePadding(c, s, i), a)
  {
    var ev := PaddingEvent(s.clock.expected, i);
    ScheduleInputs(c, s.flow, ev, a);
    ScheduleDataFrames(c, s, ev);
  }

  lemma RequestWait(c: Config, s: Sched, a: Asking, ts: int, i: nat)
    requires Good(c, s, a) && c.sourceMode == WAIT_FOR_BUFFER && s.clock.initial != TIMESTAMP_ZERO
    requires i < c.sources && a.states[i].Refused? && a.last[i] == ts > 2 * c.maxOffset
    requires FindRunning(c, s.flow, ts, 0) < 0
    ensures var (t, fut) := NewTimestampWait(c, s, ts, i);
      Good(c, t, WithState(a, i, Outcome(fut)))
  {
    var b := WithState(a, i, Waiting(ts));
    if s.clock.IsNext(ts, c.maxOffset) {
      WaitGood(c, s, a, i);
      ScheduleNextGood(c, s, b);
    } else if s.clock.IsFurtherAhead(ts, c.maxOffset) {
      WaitGood(c, s, a, i);
      SchedulePaddingGood(c, s, b, i);
      ScheduleNextGood(c, SchedulePadding(c, s, i), b);
    } else {
      assert WithState(a, i, Refused) == a;
    }
  }

  /** Taking a free slot at once for an unmatched timestamp. */
  lemma ImmediateGood(c: Config, s: Sched, a: Asking, ts: int)
    requires Good(c, s, a) && c.sourceMode == IMMEDIATE_RETURN && s.flow.free > 0 && ts > 2 * c.maxOffset
    ensures var g := ScheduleImmediately(c, s.flow, ts);
      && Good(c, s.(flow := g), a)
      && 0 <= g.latest < c.slots && g.runningTs[g.latest] == ts && g.queue == s.flow.queue
      && forall i: nat :: i < c.sources ==> (i, g.latest) !in g.setInput
  {
    var ev := DataEvent(ts);
    var h := s.flow.(free := s.flow.free - 1);
    ImmediateWindow(c, s.flow, ts);
    ImmediateFrames(c, s, ts);
    InputsSame(c, s.flow, h, a);
    NextIsFree(c, s.flow);
    assert Vacant(c, s.flow, |s.flow.taken|);
    LoadInputs(c, h, ev, a);
    LoadFrame(c, h, ev);
  }

  lemma RequestImmediate(c: Config, s: Sched, a: Asking, ts: int, i: nat)
    requires Good(c, s, a) && c.sourceMode == IMMEDIATE_RETURN
    requires i < c.sources && a.states[i].Refused? && a.last[i] == ts > 2 * c.maxOffset
    ensures var (t, fut) := NewTimestampImmediate(c, s, ts, i);
      Good(c, t, WithState(a, i, Outcome(fut)))
  {
    if s.flow.free > 0 {
      var g := ScheduleImmediately(c, s.flow, ts);
      ImmediateGood(c, s, a, ts);
      NothingListed(c, s.(flow := g), a, i);
      ClaimInputs(c, g, a, i, g.latest);
      FramesSame(c, s.(flow := g), s.(flow := Claim(g, i, g.latest)));
    } else {
      assert WithState(a, i, Refused) == a;
    }
  }

  lemma NothingListed(c: Config, s: Sched, a: Asking, i: nat)
    requires Good(c, s, a) && c.sourceMode == IMMEDIATE_RETURN
    ensures !Listed(s.flow, i)
  {
    forall q | 0 <= q < |s.flow.queue|
      ensures i !in s.flow.queue[q].invalidSources
    {
      assert QueuedOk(c, s.flow.queue[q], a);
    }
  }

  /** A request under `MayAsk` keeps the window, the inputs and the frame order. */
  lemma RequestGood(c: Config, s: Sched, a: Asking, ts: int, i: nat)
    requires Good(c, s, a) && i < c.sources && MayAsk(c, s, a, ts, i)
    ensures Good(c, Request(c, s, ts, i).0, Replied(c, s, a, ts, i))
  {
    if IsInvalidNext(c, s, ts, i) {
      AskedInVain(c, s.flow, a, ts, i);
    } else {
      var s1, b := Asked(c, s, ts, i), Refuse(a, i, ts);
      SameSearch(c, s.flow, s1.flow, ts, 0);
      var j := FindRunning(c, s1.flow, ts, 0);
      AskedGood(c, s, a, ts, i);
      if j >= 0 {
        RequestRunning(c, s, a, ts, i, j);
      } else if c.sourceMode == WAIT_FOR_BUFFER && IsScheduled(c, s1.flow, ts) {
        WaitGood(c, s1, b, i);
      } else {
        var s2 := s1.(lastNew := s.lastNew[i := ts]);
        assert Good(c, s2, b);
        RequestNew(c, s2, b, ts, i);
      }
    }
  }

  /** The search looks at nothing but the slots' timestamps. */
  lemma {:induction false} SameSearch(c: Config, f: Flow, g: Flow, ts: int, j: nat)
    requires Shape(c, f) && Shape(c, g) && f.runningTs == g.runningTs && j <= c.slots
    ensures FindRunning(c, f, ts, j) == FindRunning(c, g, ts, j)
    decreases c.slots - j
  {
    if j < c.slots { SameSearch(c, f, g, ts, j + 1); }
  }

  function NewRequest(c: Config, s: Sched, ts: int, i: nat): (Sched, Future)
    requires Shape(c, s.flow)
  {
    if s.stopScheduled then (s, NoBuffer)
    else match c.sourceMode
         case WAIT_FOR_BUFFER => NewTimestampWait(c, s, ts, i)
         case IMMEDIATE_RETURN => NewTimestampImmediate(c, s, ts, i)
  }

  lemma RequestNew(c: Config, s: Sched, a: Asking, ts: int, i: nat)
    requires Good(c, s, a) && (c.sourceMode == WAIT_FOR_BUFFER ==> s.clock.initial != TIMESTAMP_ZERO)
    requires i < c.sources && a.states[i].Refused? && a.last[i] == ts > 2 * c.maxOffset
    requires FindRunning(c, s.flow, ts, 0) < 0
    ensures var (t, fut) := NewRequest(c, s, ts, i);
      Good(c, t, WithState(a, i, Outcome(fut)))
  {
    if s.stopScheduled {
      assert WithState(a, i, Refused) == a;
    } else if c.sourceMode == WAIT_FOR_BUFFER {
      RequestWait(c, s, a, ts, i);
    } else {
      RequestImmediate(c, s, a, ts, i);
    }
  }

  // ---- deferred futures ----------------------------------------------------------------------

  /**
    Once the timestamp of a source's latest request is reached, no queued event lists the source any
    more; so from then on it may ask again also after a refusal.
  */
  lemma ReachedListsNothing(c: Config, s: Sched, a: Asking, i: nat)
    requires Good(c, s, a) && i < c.sources && Reached(c, s.flow, a.last[i])
    ensures !Listed(s.flow, i)
  {
    forall q: nat | q < |s.flow.queue|
      ensures i !in s.flow.queue[q].invalidSources
    {
      assert QueuedOk(c, s.flow.queue[q], a);
      if i in s.flow.queue[q].invalidSources {
        ListedIsAhead(c, s, a, i, q);
      }
    }
  }

  /** A queued frame that lists a source has a timestamp that has not been reached. */
  lemma ListedIsAhead(c: Config, s: Sched, a: Asking, i: nat, q: nat)
    requires Good(c, s, a) && i < c.sources && q < |s.flow.queue| && i in s.flow.queue[q].invalidSources
    ensures !Reached(c, s.flow, a.last[i])
  {
    assert QueuedOk(c, s.flow.queue[q], a);
    if k :| 0 <= k < |s.flow.taken| && s.flow.taken[k].kind == DATA
            && s.flow.taken[k].timestamp == s.flow.latestRunning {
      QueuedIsLater(c, s, k, q);
    }
  }

  /** A source that is not served may ask for a frame more than two match windows later, once its last is reached. */
  lemma RefusedMayAsk(c: Config, s: Sched, a: Asking, ts: int, i: nat)
    requires Good(c, s, a) && i < c.sources && AsksLater(c, a, ts, i) && ts > a.last[i] + 4 * c.maxOffset
    requires Reached(c, s.flow, a.last[i])
    ensures MayAsk(c, s, a, ts, i)
  {
    ReachedListsNothing(c, s, a, i);
    DistantIsOpen(c, s.flow, a, ts, i);
  }

  /** A deferred future, evaluated once its timestamp is reached, keeps the invariants. */
  lemma ResolveGood(c: Config, s: Sched, a: Asking, i: nat)
    requires Good(c, s, a) && i < c.sources && a.states[i].Waiting? && Reached(c, s.flow, a.states[i].timestamp)
    ensures var (f, fut) := Resolve(c, s.flow, a.states[i].timestamp, i);
      Good(c, s.(flow := f), WithState(a, i, if fut.SlotBuffer? then Holding(fut.slot) else Idle))
  {
    var ts := a.states[i].timestamp;
    var j := FindRunning(c, s.flow, ts, 0);
    assert SourceOk(c, s.flow, a, i);
    ReachedListsNothing(c, s, a, i);
    if j >= 0 {
      AwaitedIsOpen(c, s.flow, a, i, j);
      ClaimInputs(c, s.flow, a, i, j);
      FramesSame(c, s, s.(flow := Claim(s.flow, i, j)));
    } else {
      StopWaiting(c, s.flow, a, i);
    }
  }

  /** At most one frame matches a timestamp. */
  lemma FramesMatchOnce(c: Config, s: Sched, ts: int, k: nat, l: nat)
    requires Frames(c, s) && c.sourceMode == WAIT_FOR_BUFFER
    requires k < |s.flow.taken + s.flow.queue| && l < |s.flow.taken + s.flow.queue|
    requires (s.flow.taken + s.flow.queue)[k].kind == DATA == (s.flow.taken + s.flow.queue)[l].kind
    requires IsWithinRange(ts, (s.flow.taken + s.flow.queue)[k].timestamp, c.maxOffset)
    requires IsWithinRange(ts, (s.flow.taken + s.flow.queue)[l].timestamp, c.maxOffset)
    ensures k == l
  {
    var h := s.flow.taken + s.flow.queue;
    assert h[k].kind == DATA && h[l].kind == DATA;
  }

  /**
    A deferred request resolves to its own frame. If the frame it waits for has been scheduled, then
    by the time the wait is over that frame runs in a slot whose step has not ended; the future
    returns the buffer of exactly that slot, and the input was open.
  */
  lemma DeferredFindsItsFrame(c: Config, s: Sched, a: Asking, i: nat, k: nat)
    requires Good(c, s, a) && c.sourceMode == WAIT_FOR_BUFFER
    requires i < c.sources && a.states[i].Waiting? && Reached(c, s.flow, a.states[i].timestamp)
    requires k < |s.flow.taken + s.flow.queue| && (s.flow.taken + s.flow.queue)[k].kind == DATA
    requires IsWithinRange(a.states[i].timestamp, (s.flow.taken + s.flow.queue)[k].timestamp, c.maxOffset)
    ensures s.flow.ended <= k < |s.flow.taken|
    ensures Resolve(c, s.flow, a.states[i].timestamp, i).1 == SlotBuffer(Slot(k, c.slots))
    ensures Slot(k, c.slots) < c.slots && (i, Slot(k, c.slots)) !in s.flow.setInput
    ensures s.flow.running[Slot(k, c.slots)]
  {
    var ts := a.states[i].timestamp;
    var f, h := s.flow, s.flow.taken + s.flow.queue;
    assert SourceOk(c, f, a, i);
    if k >= |f.taken| {
      var l :| 0 <= l < |f.taken| && f.taken[l].kind == DATA && f.taken[l].timestamp == f.latestRunning;
      QueuedIsLater(c, s, l, k - |f.taken|);
      assert false;
    }
    assert k < f.ended ==> EndedOk(c, f.taken[k], a, i);
    SlotBound(k, c.slots);
    assert Hosts(c, f, k);
    var j := FindRunning(c, f, ts, 0);
    var l := MatchRuns(c, f, a, ts, j);
    FramesMatchOnce(c, s, ts, k, l);
    AwaitedIsOpen(c, f, a, i, j);
  }

  lemma CommitGood(c: Config, s: Sched, a: Asking, i: nat)
    requires Good(c, s, a) && i < c.sources && a.states[i].Holding?
    ensures Good(c, s.(flow := Commit(s.flow, i, a.states[i].slot)), WithState(a, i, Idle))
  {
    CommitInputs(c, s.flow, a, i);
    FramesSame(c, s, s.(flow := Commit(s.flow, i, a.states[i].slot)));
  }

  lemma ControlGood(c: Config, s: Sched, a: Asking, ev: ScheduledEvent)
    requires Good(c, s, a) && ev.kind != DATA && EntryOk(c, ev)
    ensures Good(c, s.(flow := Schedule(c, s.flow, ev)), a)
  {
    ScheduleInputs(c, s.flow, ev, a);
    ScheduleControlFrames(c, s, ev);
  }

  lemma EndGood(c: Config, s: Sched, a: Asking)
    requires Good(c, s, a) && s.flow.ended < |s.flow.taken|
    requires AllSettled(c, s.flow, Slot(s.flow.ended, c.slots))
    ensures Slot(s.flow.ended, c.slots) < c.slots
    ensures Good(c, TimeStepEnded(c, s, Slot(s.flow.ended, c.slots)), a)
  {
    FreeWindow(c, s.flow);
    FreeInputs(c, s.flow, a);
    FreeFrames(c, s);
  }
}
