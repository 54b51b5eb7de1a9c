/**
  The sources' side of the scheduler. Sources ask for strictly later frames and wait for each future
  before they ask again, also after they were handed no buffer. As long as `MayAsk` holds of their
  requests, every input of every time step is settled exactly once: claimed and committed, canceled,
  marked invalid while queued, or committed by a non-data event. `Refusals` shows that `MayAsk` is
  exactly what that takes.
*/
module SourceInputs {
  import opened Events
  import opened Ring
  import opened Clock
  import opened SchedulerCore
  import opened SchedulerWindow
  import opened Requests

  /**
    What a source is doing: nothing, waiting for a deferred future, or holding a buffer; or it was
    handed no buffer for its latest request, which may have listed it in queued events.
  */
  datatype SourceState = Idle | Waiting(timestamp: int) | Holding(slot: nat) | Refused

  /** `last` is the timestamp of each source's latest request. */
  datatype Asking = Asking(states: seq<SourceState>, last: seq<int>)

  predicate AskingShape(c: Config, a: Asking) {
    |a.states| == c.sources && |a.last| == c.sources
  }

  /** A timestamp before every match window, so that any real frame is a first request. */
  function NeverAsked(c: Config): int { -4 * c.maxOffset }

  function InitialAsking(c: Config): Asking {
    Asking(seq(c.sources, _ => Idle), seq(c.sources, _ => NeverAsked(c)))
  }

  // ---- the invariant -------------------------------------------------------------------------

  predicate EntryOk(c: Config, ev: ScheduledEvent) {
    if ev.kind == DATA then ev.timestamp > 2 * c.maxOffset
    else ev.timestamp == TIMESTAMP_ZERO && ev.invalidSources == []
  }

  /** One input of a running slot: settled means spoken for and, unless held, fulfilled. */
  ghost predicate InputOk(c: Config, f: Flow, a: Asking, i: nat, j: nat)
    requires Shape(c, f) && AskingShape(c, a) && i < c.sources && j < c.slots
  {
    && ((i, j) in f.promises ==> (i, j) in f.setInput)
    && ((i, j) in f.setInput && a.states[i] != Holding(j) ==> (i, j) in f.promises)
    && (f.slots[j].kind == DATA && (i, j) in f.setInput ==> f.runningTs[j] - 2 * c.maxOffset <= a.last[i])
    && (f.slots[j].kind != DATA ==> (i, j) in f.promises)
    && (a.states[i].Waiting? && IsWithinRange(a.states[i].timestamp, f.runningTs[j], c.maxOffset)
        ==> (i, j) !in f.setInput)
  }

  ghost predicate SourceOk(c: Config, f: Flow, a: Asking, i: nat)
    requires Shape(c, f) && AskingShape(c, a) && i < c.sources
  {
    match a.states[i]
    case Holding(j) => j < c.slots && f.running[j] && (i, j) in f.setInput && (i, j) !in f.promises
    case Waiting(ts) => a.last[i] == ts > 2 * c.maxOffset
    case _ => true
  }

  /** The sources a queued event will do without have asked for something newer, and are listed once. */
  ghost predicate QueuedOk(c: Config, ev: ScheduledEvent, a: Asking)
    requires AskingShape(c, a)
  {
    && EntryOk(c, ev)
    && (forall x, y :: 0 <= x < y < |ev.invalidSources| ==> ev.invalidSources[x] != ev.invalidSources[y])
    && (forall i :: i in ev.invalidSources ==>
          i < c.sources && IsOlder(c, ev.timestamp, a.last[i]) && (a.states[i].Waiting? || a.states[i].Refused?))
  }

  /** A step that has ended: no source waits for its frame. */
  ghost predicate EndedOk(c: Config, ev: ScheduledEvent, a: Asking, i: nat)
    requires AskingShape(c, a) && i < c.sources
  {
    ev.kind == DATA ==>
      a.states[i].Waiting? ==> !IsWithinRange(a.states[i].timestamp, ev.timestamp, c.maxOffset)
  }

  ghost predicate Inputs(c: Config, f: Flow, a: Asking) {
    && c.Valid() && Shape(c, f) && AskingShape(c, a)
    && f.faults == 0
    && (forall i: nat, j: nat :: i < c.sources && j < c.slots && f.running[j] ==> InputOk(c, f, a, i, j))
    && (forall i: nat :: i < c.sources ==> SourceOk(c, f, a, i))
    && (forall q :: 0 <= q < |f.queue| ==> QueuedOk(c, f.queue[q], a))
    && (forall k :: 0 <= k < |f.taken| ==> EntryOk(c, f.taken[k]))
    && f.ended <= |f.taken|
    && (forall k: nat, i: nat :: k < f.ended && i < c.sources ==> EndedOk(c, f.taken[k], a, i))
  }

  /**
    The frames in schedule order. When sources wait for buffers, consecutive frames lie at least the
    clock's distance apart and the clock expects the one after them; otherwise no frame is queued.
  */
  ghost predicate Frames(c: Config, s: Sched) {
    var f, h := s.flow, s.flow.taken + s.flow.queue;
    && s.clock.delta > 4 * c.maxOffset && c.maxOffset >= 0
    && (c.sourceMode == IMMEDIATE_RETURN ==> forall q :: 0 <= q < |f.queue| ==> f.queue[q].kind != DATA)
    && (c.sourceMode == WAIT_FOR_BUFFER ==>
          && Spaced(h, s.clock)
          && (s.clock.initial == TIMESTAMP_ZERO ==> forall k :: 0 <= k < |h| ==> h[k].kind != DATA)
          && (s.clock.initial != TIMESTAMP_ZERO ==> s.clock.expected >= s.clock.initial > 2 * c.maxOffset))
    && LatestFrame(f)
  }

  ghost predicate Spaced(h: seq<ScheduledEvent>, clock: ClockState) {
    && (forall k, l :: 0 <= k < l < |h| && h[k].kind == DATA && h[l].kind == DATA
          ==> h[k].timestamp + clock.delta <= h[l].timestamp)
    && (forall k :: 0 <= k < |h| && h[k].kind == DATA ==> h[k].timestamp + clock.delta <= clock.expected)
  }

  /** The latest running timestamp is that of the frame loaded last. */
  ghost predicate LatestFrame(f: Flow) {
    || (f.latestRunning == TIMESTAMP_ZERO && forall k :: 0 <= k < |f.taken| ==> f.taken[k].kind != DATA)
    || exists k :: 0 <= k < |f.taken| && f.taken[k].kind == DATA && f.taken[k].timestamp == f.latestRunning
                   && forall l :: k < l < |f.taken| ==> f.taken[l].kind != DATA
  }

  // ---- loading, scheduling, freeing ----------------------------------------------------------

  lemma LoadInputs(c: Config, f: Flow, ev: ScheduledEvent, a: Asking)
    requires Inputs(c, f, a) && QueuedOk(c, ev, a)
    requires !f.running[Next(f.latest, c.slots)] && Reset(f, Next(f.latest, c.slots))
    ensures Inputs(c, Load(c, f, ev), a)
  {
    var g := Load(c, f, ev);
    var slot := Next(f.latest, c.slots);
    LoadFrame(c, f, ev);
    LoadClean(c, f, ev, a);
    forall i: nat, j: nat | i < c.sources && j < c.slots && g.running[j]
      ensures InputOk(c, g, a, i, j)
    {
      if j == slot {
        assert SourceOk(c, f, a, i);
        if ev.kind != DATA { assert AllSources(c)[i] == i; }
      } else {
        assert InputOk(c, f, a, i, j);
      }
    }
    forall i: nat | i < c.sources
      ensures SourceOk(c, g, a, i)
    {
      assert SourceOk(c, f, a, i);
    }
    forall k: nat, i: nat | k < g.ended && i < c.sources
      ensures EndedOk(c, g.taken[k], a, i)
    {
      assert EndedOk(c, f.taken[k], a, i);
    }
  }

  /** Loading a well-formed event into a reset slot fulfils no promise twice. */
  lemma LoadClean(c: Config, f: Flow, ev: ScheduledEvent, a: Asking)
    requires Shape(c, f) && AskingShape(c, a) && QueuedOk(c, ev, a)
    requires Reset(f, Next(f.latest, c.slots))
    ensures Load(c, f, ev).faults == f.faults
  {
    var slot := Next(f.latest, c.slots);
    var g := TakeTaskflow(c, f, slot, ev.timestamp).(latest := slot, taken := f.taken + [ev]);
    var pattern := PatternShown(ev);
    var h := g.(slots := g.slots[slot := SlotEvent(ev.timestamp, ev.kind, pattern)]);
    var h' := if ev.kind == DATA then h.(latestRunning := ev.timestamp) else h;
    ClaimAndCommitClean(h', Resolved(c, ev), slot);
  }

  /** Only the fields that the inputs are about matter. */
  lemma InputsSame(c: Config, f: Flow, g: Flow, a: Asking)
    requires Inputs(c, f, a)
    requires g == f.(free := g.free, queue := g.queue)
    requires forall q :: 0 <= q < |g.queue| ==> QueuedOk(c, g.queue[q], a)
    ensures Inputs(c, g, a)
  {
    forall i: nat, j: nat | i < c.sources && j < c.slots && g.running[j]
      ensures InputOk(c, g, a, i, j)
    {
      assert InputOk(c, f, a, i, j);
    }
    forall i: nat | i < c.sources
      ensures SourceOk(c, g, a, i)
    {
      assert SourceOk(c, f, a, i);
    }
  }

  lemma ScheduleInputs(c: Config, f: Flow, ev: ScheduledEvent, a: Asking)
    requires Inputs(c, f, a) && Window(c, f) && QueuedOk(c, ev, a)
    ensures Inputs(c, Schedule(c, f, ev), a) && Window(c, Schedule(c, f, ev))
  {
    ScheduleWindow(c, f, ev);
    if f.free > 0 {
      var h := f.(free := f.free - 1);
      InputsSame(c, f, h, a);
      NextIsFree(c, f);
      assert Vacant(c, f, |f.taken|);
      LoadInputs(c, h, ev, a);
    } else {
      InputsSame(c, f, f.(queue := f.queue + [ev]), a);
    }
  }

  /** Every input of the slot has been fulfilled. */
  predicate AllSettled(c: Config, f: Flow, j: nat) {
    forall i: nat :: i < c.sources ==> (i, j) in f.promises
  }

  /** Ending the oldest step, once its inputs are settled, keeps the inputs' invariant. */
  lemma FreeInputs(c: Config, f: Flow, a: Asking)
    requires Inputs(c, f, a) && Window(c, f) && f.ended < |f.taken|
    requires AllSettled(c, f, Slot(f.ended, c.slots))
    ensures Slot(f.ended, c.slots) < c.slots
    ensures Inputs(c, FreeTimeStep(c, f, Slot(f.ended, c.slots)), a)
  {
    var e := f.ended;
    SlotBound(e, c.slots);
    var s := Slot(e, c.slots);
    var g := Vacate(c, f, s);
    VacateInputs(c, f, a);
    if f.queue == [] {
      var h := FreeTimeStep(c, f, s);
      forall i: nat, j: nat | i < c.sources && j < c.slots && h.running[j]
        ensures InputOk(c, h, a, i, j)
      {
        assert InputOk(c, g, a, i, j);
      }
      forall i: nat | i < c.sources
        ensures SourceOk(c, h, a, i)
      {
        assert SourceOk(c, g, a, i);
      }
    } else {
      FreeWindow(c, f);
      InputsSame(c, g, g.(queue := g.queue[1..]), a);
      LoadInputs(c, g.(queue := g.queue[1..]), g.queue[0], a);
    }
  }

  lemma VacateInputs(c: Config, f: Flow, a: Asking)
    requires Inputs(c, f, a) && Window(c, f) && f.ended < |f.taken|
    requires AllSettled(c, f, Slot(f.ended, c.slots)) && Slot(f.ended, c.slots) < c.slots
    ensures Inputs(c, Vacate(c, f, Slot(f.ended, c.slots)), a)
  {
    var e := f.ended;
    var s := Slot(e, c.slots);
    var g := Vacate(c, f, s);
    assert Hosts(c, f, e) && Shows(c, f, e);
    forall i: nat, j: nat | i < c.sources && j < c.slots && g.running[j]
      ensures InputOk(c, g, a, i, j)
    {
      assert InputOk(c, f, a, i, j);
    }
    forall i: nat | i < c.sources
      ensures SourceOk(c, g, a, i)
    {
      assert SourceOk(c, f, a, i);
      assert (i, s) in f.promises;
    }
    forall k: nat, i: nat | k < g.ended && i < c.sources
      ensures EndedOk(c, g.taken[k], a, i)
    {
      if k < e {
        assert EndedOk(c, f.taken[k], a, i);
      } else {
        assert InputOk(c, f, a, i, s) && (i, s) in f.promises;
      }
    }
  }

  // ---- asking, claiming, committing ----------------------------------------------------------

  function WithState(a: Asking, i: nat, state: SourceState): Asking
    requires i < |a.states|
  {
    a.(states := a.states[i := state])
  }

  /** While its request is served, a source counts as refused. */
  function Refuse(a: Asking, i: nat, ts: int): Asking
    requires i < |a.states| == |a.last|
  {
    Asking(a.states[i := Refused], a.last[i := ts])
  }

  /** The source's state after a request, given the future it was handed. */
  function Outcome(fut: Future): SourceState {
    match fut
    case SlotBuffer(j) => Holding(j)
    case Deferred(ts) => Waiting(ts)
    case NoBuffer => Refused
  }

  /** What the sources are doing after a request; one that is out of date leaves its source as it was. */
  function Replied(c: Config, s: Sched, a: Asking, ts: int, i: nat): Asking
    requires Sane(c, s) && AskingShape(c, a) && i < c.sources
  {
    if IsInvalidNext(c, s, ts, i) then a.(last := a.last[i := ts])
    else WithState(Refuse(a, i, ts), i, Outcome(Request(c, s, ts, i).1))
  }

  predicate Listed(f: Flow, i: nat) {
    exists q :: 0 <= q < |f.queue| && i in f.queue[q].invalidSources
  }

  /** The slot that runs the timestamp's frame, if there is one, has the source's input open. */
  predicate InputOpen(c: Config, f: Flow, ts: int, i: nat)
    requires Shape(c, f)
  {
    var j := FindRunning(c, f, ts, 0);
    j >= 0 ==> (i, j) !in f.setInput
  }

  /** The source waits for no future, holds no buffer, and asks for a later frame than ever before. */
  predicate AsksLater(c: Config, a: Asking, ts: int, i: nat)
    requires AskingShape(c, a) && i < c.sources
  {
    (a.states[i].Idle? || a.states[i].Refused?) && ts > a.last[i] && ts > 2 * c.maxOffset
  }

  /**
    A request that does no harm: it is out of date, or no queued event lists its source already and
    the frame it finds running still waits for the source.
  */
  predicate MayAsk(c: Config, s: Sched, a: Asking, ts: int, i: nat)
    requires Sane(c, s) && AskingShape(c, a) && i < c.sources
  {
    && AsksLater(c, a, ts, i)
    && (IsInvalidNext(c, s, ts, i) || (!Listed(s.flow, i) && InputOpen(c, s.flow, ts, i)))
  }

  /** A source that was not refused, and asks for more than two match windows later, may always ask. */
  lemma DistantMayAsk(c: Config, s: Sched, a: Asking, ts: int, i: nat)
    requires Sane(c, s) && Inputs(c, s.flow, a) && Window(c, s.flow) && i < c.sources
    requires AsksLater(c, a, ts, i) && a.states[i].Idle? && ts > a.last[i] + 4 * c.maxOffset
    ensures MayAsk(c, s, a, ts, i)
  {
    forall q | 0 <= q < |s.flow.queue|
      ensures i !in s.flow.queue[q].invalidSources
    {
      assert QueuedOk(c, s.flow.queue[q], a);
    }
    DistantIsOpen(c, s.flow, a, ts, i);
  }

  /** A frame that far from all a source has asked for is open to it. */
  lemma DistantIsOpen(c: Config, f: Flow, a: Asking, ts: int, i: nat)
    requires Inputs(c, f, a) && Window(c, f) && i < c.sources
    requires ts > 2 * c.maxOffset && ts > a.last[i] + 4 * c.maxOffset
    ensures InputOpen(c, f, ts, i)
  {
    var j := FindRunning(c, f, ts, 0);
    if j >= 0 {
      var k := MatchRuns(c, f, a, ts, j);
      assert InputOk(c, f, a, i, j);
    }
  }

  /** A slot whose timestamp matches runs the DATA event of a step in flight. */
  lemma MatchRuns(c: Config, f: Flow, a: Asking, ts: int, j: nat) returns (k: nat)
    requires Inputs(c, f, a) && Window(c, f) && ts > 2 * c.maxOffset && j < c.slots
    requires IsWithinRange(ts, f.runningTs[j], c.maxOffset)
    ensures f.ended <= k < |f.taken| && Slot(k, c.slots) == j
    ensures f.running[j] && f.slots[j].kind == DATA == f.taken[k].kind && f.runningTs[j] == f.taken[k].timestamp
  {
    var r := Uses(f.ended, j, c.slots);
    k := StepOf(j, r, c.slots);
    WindowStep(f.ended, j, c.slots);
    SplitStep(j, r, c.slots);
    assert k >= |f.taken| ==> Vacant(c, f, k);
    assert k < |f.taken|;
    assert Hosts(c, f, k) && Shows(c, f, k);
    assert EntryOk(c, f.taken[k]);
  }

  /** A source that no queued event lists settles its older inputs, each for the first time. */
  lemma CancelInputs(c: Config, f: Flow, a: Asking, ts: int, i: nat)
    requires Inputs(c, f, a) && Window(c, f) && i < c.sources && AsksLater(c, a, ts, i) && !Listed(f, i)
    ensures Inputs(c, CancelSource(c, f, ts, i), Refuse(a, i, ts))
    ensures Window(c, CancelSource(c, f, ts, i))
  {
    var g, b := CancelSource(c, f, ts, i), Refuse(a, i, ts);
    SameSlots(c, f, g);
    forall x: nat, j: nat | x < c.sources && j < c.slots && g.running[j]
      ensures InputOk(c, g, b, x, j)
    {
      assert InputOk(c, f, a, x, j);
    }
    forall x: nat | x < c.sources
      ensures SourceOk(c, g, b, x)
    {
      assert SourceOk(c, f, a, x);
    }
    forall q | 0 <= q < |g.queue|
      ensures QueuedOk(c, g.queue[q], b)
    {
      assert QueuedOk(c, f.queue[q], a);
      assert g.queue[q] == Mark(c, f.queue[q], ts, i);
    }
    forall k: nat, x: nat | k < g.ended && x < c.sources
      ensures EndedOk(c, g.taken[k], b, x)
    {
      assert EndedOk(c, f.taken[k], a, x);
    }
  }

  lemma CancelKeepsWindow(c: Config, f: Flow, ts: int, source: nat)
    requires Window(c, f)
    ensures Window(c, CancelSource(c, f, ts, source))
  {
    SameSlots(c, f, CancelSource(c, f, ts, source));
  }

  /** A cancel never meets a promise that is already fulfilled. */
  lemma CancelIsFirst(c: Config, f: Flow, a: Asking, ts: int, i: nat)
    requires Inputs(c, f, a) && i < c.sources
    ensures OpenOlder(c, f, ts, i) !! f.promises
  {
    forall j: nat | j < c.slots && f.running[j] && (i, j) !in f.setInput
      ensures (i, j) !in f.promises
    {
      assert InputOk(c, f, a, i, j);
    }
  }

  /** A source that no queued event lists may stop waiting. */
  lemma StopWaiting(c: Config, f: Flow, a: Asking, i: nat)
    requires Inputs(c, f, a) && i < c.sources && a.states[i].Waiting? && !Listed(f, i)
    ensures Inputs(c, f, WithState(a, i, Idle))
  {
    var b := WithState(a, i, Idle);
    forall x: nat, j: nat | x < c.sources && j < c.slots && f.running[j]
      ensures InputOk(c, f, b, x, j)
    {
      assert InputOk(c, f, a, x, j);
    }
    SameElsewhere(c, f, a, b, i);
  }

  /** What the invariant says of a source whose state changes, apart from the running slots. */
  lemma SameElsewhere(c: Config, f: Flow, a: Asking, b: Asking, i: nat)
    requires Inputs(c, f, a) && i < c.sources && AskingShape(c, b)
    requires forall x :: 0 <= x < c.sources && x != i ==> b.states[x] == a.states[x] && b.last[x] == a.last[x]
    requires b.last[i] >= a.last[i]
    requires b.states[i].Waiting? || b.states[i].Refused? || b.states[i] == a.states[i] || !Listed(f, i)
    requires forall k: nat :: k < f.ended ==> EndedOk(c, f.taken[k], b, i)
    ensures forall x: nat :: x < c.sources && x != i ==> SourceOk(c, f, b, x)
    ensures forall q :: 0 <= q < |f.queue| ==> QueuedOk(c, f.queue[q], b)
    ensures forall k: nat, x: nat :: k < f.ended && x < c.sources ==> EndedOk(c, f.taken[k], b, x)
  {
    forall x: nat | x < c.sources && x != i
      ensures SourceOk(c, f, b, x)
    {
      assert SourceOk(c, f, a, x);
    }
    forall q | 0 <= q < |f.queue|
      ensures QueuedOk(c, f.queue[q], b)
    {
      assert QueuedOk(c, f.queue[q], a);
    }
    forall k: nat, x: nat | k < f.ended && x < c.sources
      ensures EndedOk(c, f.taken[k], b, x)
    {
      assert EndedOk(c, f.taken[k], a, x);
    }
  }

  /** A source may wait for a frame that no ended step had, and whose running slot is open. */
  lemma StartWaiting(c: Config, f: Flow, a: Asking, i: nat)
    requires Inputs(c, f, a) && i < c.sources && a.states[i].Refused? && a.last[i] > 2 * c.maxOffset
    requires forall j: nat :: j < c.slots && IsWithinRange(a.last[i], f.runningTs[j], c.maxOffset)
                              ==> (i, j) !in f.setInput
    requires forall k: nat :: k < f.ended && f.taken[k].kind == DATA
                              ==> !IsWithinRange(a.last[i], f.taken[k].timestamp, c.maxOffset)
    ensures Inputs(c, f, WithState(a, i, Waiting(a.last[i])))
  {
    var b := WithState(a, i, Waiting(a.last[i]));
    forall x: nat, j: nat | x < c.sources && j < c.slots && f.running[j]
      ensures InputOk(c, f, b, x, j)
    {
      assert InputOk(c, f, a, x, j);
    }
    SameElsewhere(c, f, a, b, i);
  }

  /** A request that is out of date changes nothing but the source's latest timestamp. */
  lemma AskedInVain(c: Config, f: Flow, a: Asking, ts: int, i: nat)
    requires Inputs(c, f, a) && i < c.sources && AsksLater(c, a, ts, i)
    ensures Inputs(c, f, a.(last := a.last[i := ts]))
  {
    var b := a.(last := a.last[i := ts]);
    assert SourceOk(c, f, a, i);
    forall x: nat, j: nat | x < c.sources && j < c.slots && f.running[j]
      ensures InputOk(c, f, b, x, j)
    {
      assert InputOk(c, f, a, x, j);
    }
    SameElsewhere(c, f, a, b, i);
  }

  /** A source that no queued event lists may claim an open input of a running slot. */
  lemma ClaimInputs(c: Config, f: Flow, a: Asking, i: nat, j: nat)
    requires Inputs(c, f, a) && Window(c, f) && i < c.sources && j < c.slots && !a.states[i].Holding?
    requires a.last[i] > 2 * c.maxOffset && IsWithinRange(a.last[i], f.runningTs[j], c.maxOffset)
    requires (i, j) !in f.setInput && !Listed(f, i)
    ensures f.running[j]
    ensures Inputs(c, Claim(f, i, j), WithState(a, i, Holding(j))) && Window(c, Claim(f, i, j))
  {
    var g, b := Claim(f, i, j), WithState(a, i, Holding(j));
    var k := MatchRuns(c, f, a, a.last[i], j);
    SameSlots(c, f, g);
    assert InputOk(c, f, a, i, j);
    forall x: nat, y: nat | x < c.sources && y < c.slots && g.running[y]
      ensures InputOk(c, g, b, x, y)
    {
      assert InputOk(c, f, a, x, y);
    }
    SameElsewhere(c, f, a, b, i);
    forall x: nat | x < c.sources
      ensures SourceOk(c, g, b, x)
    {
      assert x != i ==> SourceOk(c, f, b, x);
    }
  }

  /** A waiting source's input is open in the slot that runs its frame. */
  lemma AwaitedIsOpen(c: Config, f: Flow, a: Asking, i: nat, j: nat)
    requires Inputs(c, f, a) && Window(c, f) && i < c.sources && j < c.slots && a.states[i].Waiting?
    requires IsWithinRange(a.states[i].timestamp, f.runningTs[j], c.maxOffset)
    ensures (i, j) !in f.setInput && f.running[j] && a.last[i] == a.states[i].timestamp > 2 * c.maxOffset
  {
    assert SourceOk(c, f, a, i);
    var k := MatchRuns(c, f, a, a.states[i].timestamp, j);
    assert InputOk(c, f, a, i, j);
  }

  /** A source's commit fulfils an open promise of a running slot. */
  lemma CommitInputs(c: Config, f: Flow, a: Asking, i: nat)
    requires Inputs(c, f, a) && Window(c, f) && i < c.sources && a.states[i].Holding?
    ensures var j := a.states[i].slot;
      && Inputs(c, Commit(f, i, j), WithState(a, i, Idle)) && Window(c, Commit(f, i, j))
  {
    var j := a.states[i].slot;
    var g, b := Commit(f, i, j), WithState(a, i, Idle);
    assert SourceOk(c, f, a, i);
    SameSlots(c, f, g);
    forall x: nat, y: nat | x < c.sources && y < c.slots && g.running[y]
      ensures InputOk(c, g, b, x, y)
    {
      assert InputOk(c, f, a, x, y);
    }
    forall x: nat | x < c.sources
      ensures SourceOk(c, g, b, x)
    {
      assert SourceOk(c, f, a, x);
    }
    forall q | 0 <= q < |g.queue|
      ensures QueuedOk(c, g.queue[q], b)
    {
      assert QueuedOk(c, f.queue[q], a);
    }
    forall k: nat, x: nat | k < g.ended && x < c.sources
      ensures EndedOk(c, g.taken[k], b, x)
    {
      assert EndedOk(c, f.taken[k], a, x);
    }
  }
}
