/**
  The scheduler's requests: how a source asks for the buffer of a timestamp, which older inputs
  that settles, and which events it schedules.
*/
module Requests {
  import opened Events
  import opened Ring
  import opened Clock
  import opened SchedulerCore

  /** `lastNew` is the timestamp of each source's latest request for a new time step. */
  datatype Sched = Sched(
    flow: Flow,
    clock: ClockState,
    lastNew: seq<int>,
    stopScheduled: bool,
    signals: set<EventType>)

  /**
    The future a request returns: no buffer, the buffer of a running slot, or a buffer still to be
    looked up when the timestamp is reached.
  */
  datatype Future = NoBuffer | SlotBuffer(slot: nat) | Deferred(timestamp: int)

  predicate Sane(c: Config, s: Sched) {
    c.Valid() && Shape(c, s.flow) && |s.lastNew| == c.sources
  }

  function Start(c: Config, delta: int): Sched
  {
    Sched(Initial(c), ClockState(TIMESTAMP_ZERO, TIMESTAMP_ZERO, TIMESTAMP_ZERO, 0, delta, []),
          seq(c.sources, _ => TIMESTAMP_ZERO), false, {})
  }

  // ---- canceling older inputs ----------------------------------------------------------------

  /** `timestamp` lies more than both offsets behind `now`. */
  predicate IsOlder(c: Config, timestamp: int, now: int) {
    timestamp + c.maxOffset < now - c.maxOffset
  }

  function OpenOlder(c: Config, f: Flow, ts: int, source: nat): set<(nat, nat)>
    requires Shape(c, f)
  {
    set j | 0 <= j < c.slots && (source, j) !in f.setInput && f.running[j] && IsOlder(c, f.runningTs[j], ts)
      :: (source, j)
  }

  function Mark(c: Config, ev: ScheduledEvent, ts: int, source: nat): ScheduledEvent {
    if ev.kind == DATA && IsOlder(c, ev.timestamp, ts)
    then ev.(invalidSources := ev.invalidSources + [source]) else ev
  }

  function MarkAll(c: Config, queue: seq<ScheduledEvent>, ts: int, source: nat): (r: seq<ScheduledEvent>)
    ensures |r| == |queue| && forall i :: 0 <= i < |queue| ==> r[i] == Mark(c, queue[i], ts, source)
  {
    seq(|queue|, i requires 0 <= i < |queue| => Mark(c, queue[i], ts, source))
  }

  /** A source that asks for a newer timestamp gives up on its inputs of older events. */
  function CancelSource(c: Config, f: Flow, ts: int, source: nat): Flow
    requires Shape(c, f)
  {
    var older := OpenOlder(c, f, ts, source);
    f.(setInput := f.setInput + older,
       promises := f.promises + older,
       queue := MarkAll(c, f.queue, ts, source))
  }

  function CancelSources(c: Config, f: Flow, ts: int, count: nat): Flow
    requires Shape(c, f)
    ensures Shape(c, CancelSources(c, f, ts, count))
  {
    if count == 0 then f else CancelSource(c, CancelSources(c, f, ts, count - 1), ts, count - 1)
  }

  function CancelOlderEvents(c: Config, f: Flow, ts: int, source: nat): (g: Flow)
    requires Shape(c, f)
    ensures Shape(c, g)
  {
    match c.missingMode
    case WAIT_FOR_EVENT => CancelSource(c, f, ts, source)
    case CANCEL_OLDEST => CancelSources(c, f, ts, c.sources)
  }

  /** The input of an older running slot that is still open. */
  predicate IsOpenOlder(c: Config, f: Flow, ts: int, p: (nat, nat))
    requires Shape(c, f)
  {
    p.1 < c.slots && p !in f.setInput && f.running[p.1] && ts - f.runningTs[p.1] > 2 * c.maxOffset
  }

  /**
    Giving up the oldest settles, for each of the sources and whoever asks, exactly the open inputs
    of older running slots.
  */
  lemma {:induction false} CancelSourcesSettle(c: Config, f: Flow, ts: int, count: nat)
    requires Shape(c, f)
    ensures var g := CancelSources(c, f, ts, count);
      && g == f.(setInput := g.setInput, promises := g.promises, queue := g.queue)
      && (forall p: (nat, nat) :: p in g.setInput <==> p in f.setInput || (p.0 < count && IsOpenOlder(c, f, ts, p)))
      && (forall p: (nat, nat) :: p in g.promises <==> p in f.promises || (p.0 < count && IsOpenOlder(c, f, ts, p)))
  {
    if count > 0 { CancelSourcesSettle(c, f, ts, count - 1); }
  }

  /** A queued event that goes without the first `count` sources if it is a frame left behind. */
  function Without(c: Config, ev: ScheduledEvent, ts: int, count: nat): ScheduledEvent {
    if ev.kind == DATA && ts - ev.timestamp > 2 * c.maxOffset
    then ev.(invalidSources := ev.invalidSources + seq(count, i => i)) else ev
  }

  lemma WithoutOneMore(c: Config, ev: ScheduledEvent, ts: int, count: nat)
    ensures Without(c, ev, ts, 0) == ev
    ensures Mark(c, Without(c, ev, ts, count), ts, count) == Without(c, ev, ts, count + 1)
  {
    assert seq(count + 1, i => i) == seq(count, i => i) + [count];
  }

  /** It lists each of the sources once more in every older queued frame, and changes no other event. */
  lemma {:induction false} CancelSourcesList(c: Config, f: Flow, ts: int, count: nat, q: nat)
    requires Shape(c, f) && q < |f.queue|
    ensures var g := CancelSources(c, f, ts, count);
      |g.queue| == |f.queue| && g.queue[q] == Without(c, f.queue[q], ts, count)
  {
    if count > 0 {
      CancelSourcesList(c, f, ts, count - 1, q);
      WithoutOneMore(c, f.queue[q], ts, count - 1);
    } else {
      WithoutOneMore(c, f.queue[q], ts, 0);
    }
  }

  // ---- looking a timestamp up ----------------------------------------------------------------

  /** The first slot from `j` on whose timestamp matches, or -1. */
  function FindRunning(c: Config, f: Flow, ts: int, j: nat): (r: int)
    requires Shape(c, f) && j <= c.slots
    ensures -1 <= r < c.slots
    ensures r >= 0 ==> r >= j && IsWithinRange(ts, f.runningTs[r], c.maxOffset)
    ensures r < 0 ==> forall i :: j <= i < c.slots ==> !IsWithinRange(ts, f.runningTs[i], c.maxOffset)
    ensures forall i :: j <= i < r ==> !IsWithinRange(ts, f.runningTs[i], c.maxOffset)
    decreases c.slots - j
  {
    if j == c.slots then -1
    else if IsWithinRange(ts, f.runningTs[j], c.maxOffset) then j
    else FindRunning(c, f, ts, j + 1)
  }

  predicate IsScheduled(c: Config, f: Flow, ts: int) {
    exists i :: 0 <= i < |f.queue| && IsWithinRange(f.queue[i].timestamp, ts, c.maxOffset)
  }

  // ---- requests ------------------------------------------------------------------------------

  predicate IsInvalidNext(c: Config, s: Sched, ts: int, source: nat)
    requires source < |s.lastNew|
  {
    || ts + c.maxOffset < s.clock.initial - c.maxOffset
    || ts + c.maxOffset <= s.lastNew[source] - c.maxOffset
  }

  function DataEvent(ts: int): ScheduledEvent { ScheduledEvent(ts, DATA, [], "") }

  function PaddingEvent(ts: int, source: nat): ScheduledEvent { ScheduledEvent(ts, DATA, [source], "") }

  /** Schedules the frame the clock expects next, and advances the clock. */
  function ScheduleNext(c: Config, s: Sched): Sched
    requires Shape(c, s.flow)
  {
    s.(flow := Schedule(c, s.flow, DataEvent(s.clock.expected)), clock := s.clock.Advance())
  }

  /** One round of the padding loop: the skipped frame is scheduled without the source. */
  function SchedulePadding(c: Config, s: Sched, source: nat): Sched
    requires Shape(c, s.flow)
  {
    s.(flow := Schedule(c, s.flow, PaddingEvent(s.clock.expected, source)), clock := s.clock.Advance())
  }

  /**
    The padding loop comes to an end for `ts`. `PaddingLoopEnds` shows that this is exactly when it
    does, and that it then makes a single round.
  */
  predicate PaddingEnds(c: Config, clock: ClockState, ts: int) {
    clock.IsFurtherAhead(ts, c.maxOffset) ==> clock.Advance().IsNextOrBigger(ts, c.maxOffset)
  }

  /** The request returns. */
  predicate Returns(c: Config, s: Sched, ts: int) {
    c.sourceMode == WAIT_FOR_BUFFER ==> PaddingEnds(c, s.clock.NewTimestamp(ts, c.maxOffset), ts)
  }

  lemma ScheduleShape(c: Config, f: Flow, ev: ScheduledEvent)
    requires Shape(c, f)
    ensures Shape(c, Schedule(c, f, ev))
  {
    var g := f.(queue := f.queue + [ev]);
    if g.free > 0 {
      var h := g.(free := g.free - 1);
      LoadFrame(c, h.(queue := h.queue[1..]), h.queue[0]);
    }
  }

  function NewTimestampWait(c: Config, s: Sched, ts: int, source: nat): (Sched, Future)
    requires Shape(c, s.flow)
  {
    if s.clock.IsNext(ts, c.maxOffset) then (ScheduleNext(c, s), Deferred(ts))
    else if s.clock.IsFurtherAhead(ts, c.maxOffset) then
      ScheduleShape(c, s.flow, PaddingEvent(s.clock.expected, source));
      (ScheduleNext(c, SchedulePadding(c, s, source)), Deferred(ts))
    else (s, NoBuffer)
  }

  function NewTimestampImmediate(c: Config, s: Sched, ts: int, source: nat): (Sched, Future)
    requires Shape(c, s.flow)
  {
    var g := ScheduleImmediately(c, s.flow, ts);
    if s.flow.free > 0
    then
      LoadFrame(c, s.flow.(free := s.flow.free - 1), DataEvent(ts));
      (s.(flow := Claim(g, source, g.latest)), SlotBuffer(g.latest))
    else (s, NoBuffer)
  }

  function Request(c: Config, s: Sched, ts: int, source: nat): (Sched, Future)
    requires Sane(c, s) && source < c.sources
  {
    if IsInvalidNext(c, s, ts, source) then (s, NoBuffer) else
    var f := CancelOlderEvents(c, s.flow, ts, source);
    var s1 := s.(clock := s.clock.NewTimestamp(ts, c.maxOffset), flow := f);
    var j := FindRunning(c, f, ts, 0);
    if j >= 0 then (s1.(flow := Claim(f, source, j)), SlotBuffer(j))
    else if c.sourceMode == WAIT_FOR_BUFFER && IsScheduled(c, f, ts) then (s1, Deferred(ts))
    else
      var s2 := s1.(lastNew := s.lastNew[source := ts]);
      if s.stopScheduled then (s2, NoBuffer)
      else match c.sourceMode
           case WAIT_FOR_BUFFER => NewTimestampWait(c, s2, ts, source)
           case IMMEDIATE_RETURN => NewTimestampImmediate(c, s2, ts, source)
  }

  // ---- deferred futures ----------------------------------------------------------------------

  /** The wait inside a deferred future is over. */
  predicate Reached(c: Config, f: Flow, ts: int) {
    f.latestRunning >= ts - 2 * c.maxOffset
  }

  /** What a deferred future returns once its wait is over. */
  function Resolve(c: Config, f: Flow, ts: int, source: nat): (Flow, Future)
    requires Shape(c, f)
  {
    var j := FindRunning(c, f, ts, 0);
    if j < 0 || (source, j) in f.setInput then (f, NoBuffer)
    else (Claim(f, source, j), SlotBuffer(j))
  }

  // ---- control events and ends of time steps -------------------------------------------------

  function ControlEvent(kind: EventType): ScheduledEvent { ScheduledEvent(TIMESTAMP_ZERO, kind, [], "") }

  function ScheduleControl(c: Config, s: Sched, kind: EventType): Sched
    requires Shape(c, s.flow)
  {
    s.(flow := Schedule(c, s.flow, ControlEvent(kind)), stopScheduled := s.stopScheduled || kind == STOP)
  }

  function ChangeParameter(c: Config, s: Sched, pattern: string): Sched
    requires Shape(c, s.flow)
  {
    s.(flow := Schedule(c, s.flow, ScheduledEvent(TIMESTAMP_ZERO, PARAMETER_CHANGE, [], pattern)))
  }

  predicate IsAwaited(kind: EventType) {
    kind == CONFIGURE || kind == START || kind == STOP || kind == TEARDOWN
  }

  /** The slot's event kind is looked at after the slot has been freed, and perhaps taken again. */
  function TimeStepEnded(c: Config, s: Sched, slot: nat): Sched
    requires Shape(c, s.flow) && slot < c.slots
  {
    var f := FreeTimeStep(c, s.flow, slot);
    assert |f.slots| == c.slots by { FreeShape(c, s.flow, slot); }
    var kind := f.slots[slot].kind;
    s.(flow := f, signals := if IsAwaited(kind) then s.signals + {kind} else s.signals)
  }

  lemma FreeShape(c: Config, f: Flow, slot: nat)
    requires Shape(c, f) && slot < c.slots
    ensures Shape(c, FreeTimeStep(c, f, slot))
  {
    var g := Vacate(c, f, slot);
    if g.queue != [] { LoadFrame(c, g.(queue := g.queue[1..]), g.queue[0]); }
  }
}
