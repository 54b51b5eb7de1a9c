/**
  The in-flow scheduler as a state and its transitions. `InFlowScheduler` proves its methods
  against these functions; the invariants and theorems are stated about them.

  `taken` and `ended` are history: the events loaded into slots so far, and how many time steps
  have ended.
*/
module SchedulerCore {
  import opened Events
  import opened Ring

  datatype Config = Config(
    slots: nat,
    sources: nat,
    maxOffset: int,
    sourceMode: SourceMode,
    missingMode: MissingSourceEventMode)
  {
    predicate Valid() { slots >= 1 && maxOffset >= 0 }
  }

  /** What a slot's buffer says about its current (or latest) event. */
  datatype SlotEvent = SlotEvent(timestamp: int, kind: EventType, changedPattern: string)

  /**
    `setInput` holds the pairs (source, slot) whose input is spoken for; `promises` those whose
    one-shot promise has been fulfilled since the slot was last reset; `valid` the pairs
    (cell, slot) of output cells marked valid. `faults` counts attempts to fulfil a promise twice.
  */
  datatype Flow = Flow(
    queue: seq<ScheduledEvent>,
    free: nat,
    latest: int,
    running: seq<bool>,
    runningTs: seq<int>,
    setInput: set<(nat, nat)>,
    slots: seq<SlotEvent>,
    promises: set<(nat, nat)>,
    valid: set<(nat, nat)>,
    faults: nat,
    latestRunning: int,
    taken: seq<ScheduledEvent>,
    ended: nat)

  predicate Shape(c: Config, f: Flow) {
    && c.slots >= 1
    && |f.running| == c.slots
    && |f.runningTs| == c.slots
    && |f.slots| == c.slots
    && -1 <= f.latest < c.slots
  }

  function Initial(c: Config): Flow {
    Flow([], c.slots, -1, seq(c.slots, _ => false), seq(c.slots, _ => TIMESTAMP_ZERO), {},
         seq(c.slots, _ => SlotEvent(TIMESTAMP_ZERO, INVALID, "")), {}, {}, 0, TIMESTAMP_ZERO, [], 0)
  }

  /** All entries of one slot. */
  function Column(pairs: set<(nat, nat)>, slot: nat): set<(nat, nat)> {
    set p | p in pairs && p.1 == slot
  }

  function Sources(c: Config, slot: nat): set<(nat, nat)> {
    set i | 0 <= i < c.sources :: (i, slot)
  }

  function At(sources: seq<nat>, slot: nat): set<(nat, nat)> {
    set i | i in sources :: (i, slot)
  }

  // ---- source inputs -------------------------------------------------------------------------

  /** Fulfilling a promise a second time throws. */
  function Commit(f: Flow, source: nat, slot: nat): Flow {
    if (source, slot) in f.promises then f.(faults := f.faults + 1)
    else f.(promises := f.promises + {(source, slot)})
  }

  /** A cancel swallows the exception of a second fulfilment. */
  function Cancel(f: Flow, source: nat, slot: nat): Flow {
    f.(promises := f.promises + {(source, slot)})
  }

  function Claim(f: Flow, source: nat, slot: nat): Flow {
    f.(setInput := f.setInput + {(source, slot)})
  }

  function ClaimAndCommit(f: Flow, sources: seq<nat>, slot: nat): Flow
    decreases |sources|
  {
    if sources == [] then f
    else ClaimAndCommit(Commit(Claim(f, sources[0], slot), sources[0], slot), sources[1..], slot)
  }

  function AllSources(c: Config): seq<nat> {
    seq(c.sources, i => i)
  }

  // ---- loading and freeing slots -------------------------------------------------------------

  function TakeTaskflow(c: Config, f: Flow, slot: nat, ts: int): Flow
    requires Shape(c, f) && slot < c.slots
  {
    f.(running := f.running[slot := true],
       runningTs := f.runningTs[slot := ts],
       setInput := f.setInput - Sources(c, slot))
  }

  /** The pattern a slot shows for an event: only a parameter change names one. */
  function PatternShown(ev: ScheduledEvent): string {
    if ev.kind == PARAMETER_CHANGE then ev.changedPattern else ""
  }

  /** The slot after the latest one gets the event; no list of free slots is consulted. */
  function Load(c: Config, f: Flow, ev: ScheduledEvent): Flow
    requires Shape(c, f)
  {
    var slot := Next(f.latest, c.slots);
    var g := TakeTaskflow(c, f, slot, ev.timestamp).(latest := slot, taken := f.taken + [ev]);
    var pattern := PatternShown(ev);
    var h := g.(slots := g.slots[slot := SlotEvent(ev.timestamp, ev.kind, pattern)]);
    if ev.kind == DATA
    then ClaimAndCommit(h.(latestRunning := ev.timestamp), ev.invalidSources, slot)
    else ClaimAndCommit(h, AllSources(c), slot)
  }

  function RunFromQueue(c: Config, f: Flow): Flow
    requires Shape(c, f) && f.queue != []
  {
    Load(c, f.(queue := f.queue[1..]), f.queue[0])
  }

  function Schedule(c: Config, f: Flow, ev: ScheduledEvent): Flow
    requires Shape(c, f)
  {
    var g := f.(queue := f.queue + [ev]);
    if g.free > 0 then RunFromQueue(c, g.(free := g.free - 1)) else g
  }

  /** Takes a slot now or not at all, past the queue. */
  function ScheduleImmediately(c: Config, f: Flow, ts: int): Flow
    requires Shape(c, f)
  {
    if f.free > 0 then Load(c, f.(free := f.free - 1), ScheduledEvent(ts, DATA, [], "")) else f
  }

  function ResetNewEvent(c: Config, f: Flow, slot: nat): Flow
    requires Shape(c, f) && slot < c.slots
  {
    f.(promises := f.promises - Column(f.promises, slot),
       valid := f.valid - Column(f.valid, slot),
       slots := f.slots[slot := f.slots[slot].(changedPattern := "")])
  }

  /** What `freeTimeStep` does before it looks at the queue. */
  function Vacate(c: Config, f: Flow, slot: nat): Flow
    requires Shape(c, f) && slot < c.slots
  {
    ResetNewEvent(c, f, slot).(running := f.running[slot := false], ended := f.ended + 1)
  }

  function FreeTimeStep(c: Config, f: Flow, slot: nat): Flow
    requires Shape(c, f) && slot < c.slots
  {
    var g := Vacate(c, f, slot);
    if g.queue == []
    then g.(runningTs := g.runningTs[slot := TIMESTAMP_ZERO],
            free := if g.free + 1 <= c.slots then g.free + 1 else c.slots)
    else RunFromQueue(c, g)
  }

  // ---- frames of the operations --------------------------------------------------------------

  lemma {:induction false} ClaimAndCommitFrame(f: Flow, sources: seq<nat>, slot: nat)
    ensures var g := ClaimAndCommit(f, sources, slot);
      && g == f.(setInput := g.setInput, promises := g.promises, faults := g.faults)
      && g.setInput == f.setInput + At(sources, slot)
      && g.promises == f.promises + At(sources, slot)
      && g.faults >= f.faults
    decreases |sources|
  {
    if sources != [] {
      var h := Commit(Claim(f, sources[0], slot), sources[0], slot);
      ClaimAndCommitFrame(h, sources[1..], slot);
      assert At(sources, slot) == {(sources[0], slot)} + At(sources[1..], slot);
    }
  }

  /** Distinct sources with open promises are committed without a fault. */
  lemma {:induction false} ClaimAndCommitClean(f: Flow, sources: seq<nat>, slot: nat)
    requires forall i, j :: 0 <= i < j < |sources| ==> sources[i] != sources[j]
    requires forall i :: i in sources ==> (i, slot) !in f.promises
    ensures ClaimAndCommit(f, sources, slot).faults == f.faults
    decreases |sources|
  {
    if sources != [] {
      var h := Commit(Claim(f, sources[0], slot), sources[0], slot);
      ClaimAndCommitClean(h, sources[1..], slot);
    }
  }

  lemma LoadFrame(c: Config, f: Flow, ev: ScheduledEvent)
    requires Shape(c, f)
    ensures var g := Load(c, f, ev);
      var slot := Next(f.latest, c.slots);
      && Shape(c, g)
      && g.queue == f.queue && g.free == f.free && g.valid == f.valid && g.ended == f.ended
      && g.latest == slot && g.taken == f.taken + [ev]
      && g.running == f.running[slot := true]
      && g.runningTs == f.runningTs[slot := ev.timestamp]
      && g.slots == f.slots[slot := g.slots[slot]]
      && g.slots[slot].kind == ev.kind && g.slots[slot].timestamp == ev.timestamp
      && g.slots[slot].changedPattern == PatternShown(ev)
      && g.latestRunning == (if ev.kind == DATA then ev.timestamp else f.latestRunning)
      && g.faults >= f.faults
      && (forall i: nat, s: nat :: (i, s) in g.setInput <==>
            || (s == slot && i in Resolved(c, ev))
            || ((i, s) in f.setInput && !(s == slot && i < c.sources)))
      && (forall i: nat, s: nat :: (i, s) in g.promises <==>
            (i, s) in f.promises || (s == slot && i in Resolved(c, ev)))
  {
    var slot := Next(f.latest, c.slots);
    var g := TakeTaskflow(c, f, slot, ev.timestamp).(latest := slot, taken := f.taken + [ev]);
    var pattern := PatternShown(ev);
    var h := g.(slots := g.slots[slot := SlotEvent(ev.timestamp, ev.kind, pattern)]);
    var h' := if ev.kind == DATA then h.(latestRunning := ev.timestamp) else h;
    ClaimAndCommitFrame(h', Resolved(c, ev), slot);
  }

  /** The sources whose input an event settles when it is loaded. */
  function Resolved(c: Config, ev: ScheduledEvent): seq<nat> {
    if ev.kind == DATA then ev.invalidSources else AllSources(c)
  }
}
