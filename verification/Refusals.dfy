/**
  What becomes of a source that asks again after it was handed no buffer. A request marks every older
  queued frame with its source, whether or not it did so before; and a request for a frame that runs
  is served although the source may have had that frame already. So a request keeps every input
  settled once exactly when no queued event lists its source and the frame it finds is still open to
  it. A run shows what happens otherwise.
*/
module Refusals {
  import opened Events
  import opened Clock
  import opened Ring
  import opened SchedulerCore
  import opened SchedulerWindow
  import opened Requests
  import opened SourceInputs
  import SR = SourceRequests

  predicate Distinct(sources: seq<nat>) {
    forall i, j :: 0 <= i < j < |sources| ==> sources[i] != sources[j]
  }

  lemma DistinctSplits(sources: seq<nat>)
    requires sources != []
    ensures Distinct(sources) <==> sources[0] !in sources[1..] && Distinct(sources[1..])
  {
    var rest := sources[1..];
    forall i | 0 <= i < |rest| && Distinct(sources)
      ensures rest[i] != sources[0]
    {
      assert rest[i] == sources[i + 1];
    }
    assert forall i :: 0 < i < |sources| ==> sources[i] == rest[i - 1];
  }

  /** Committing a list of sources faults exactly when one is listed twice or already fulfilled. */
  lemma {:induction false} ClaimAndCommitFaults(f: Flow, sources: seq<nat>, slot: nat)
    ensures ClaimAndCommit(f, sources, slot).faults == f.faults
            <==> Distinct(sources) && forall i :: i in sources ==> (i, slot) !in f.promises
    decreases |sources|
  {
    if sources != [] {
      var first, rest := sources[0], sources[1..];
      var g := Commit(Claim(f, first, slot), first, slot);
      ClaimAndCommitFaults(g, rest, slot);
      ClaimAndCommitFrame(g, rest, slot);
      DistinctSplits(sources);
      assert forall i :: i in sources <==> i == first || i in rest;
      assert forall i: nat :: (i, slot) in g.promises <==> i == first || (i, slot) in f.promises;
    }
  }

  /** Loading an event into a reset slot is free of faults if and only if it lists no source twice. */
  lemma LoadFaults(c: Config, f: Flow, ev: ScheduledEvent)
    requires Shape(c, f) && Reset(f, Next(f.latest, c.slots))
    ensures Load(c, f, ev).faults == f.faults <==> Distinct(Resolved(c, ev))
  {
    var slot := Next(f.latest, c.slots);
    var g := TakeTaskflow(c, f, slot, ev.timestamp).(latest := slot, taken := f.taken + [ev]);
    var pattern := PatternShown(ev);
    var h := g.(slots := g.slots[slot := SlotEvent(ev.timestamp, ev.kind, pattern)]);
    var h' := if ev.kind == DATA then h.(latestRunning := ev.timestamp) else h;
    ClaimAndCommitFaults(h', Resolved(c, ev), slot);
  }

  /** The end of a step faults exactly when it loads a queued event that lists a source twice. */
  lemma EndFaults(c: Config, f: Flow)
    requires Window(c, f) && f.ended < |f.taken|
    ensures Slot(f.ended, c.slots) < c.slots
    ensures FreeTimeStep(c, f, Slot(f.ended, c.slots)).faults == f.faults
            <==> f.queue == [] || Distinct(Resolved(c, f.queue[0]))
  {
    SlotBound(f.ended, c.slots);
    if f.queue != [] {
      var v := Vacate(c, f, Slot(f.ended, c.slots));
      FreeToQueue(c, f);
      LoadFaults(c, v.(queue := v.queue[1..]), v.queue[0]);
    }
  }

  // ---- exactly when a request does no harm ---------------------------------------------------

  /** A request leaves every queued event where it is, marked if it is older. */
  lemma RequestKeepsQueue(c: Config, s: Sched, ts: int, i: nat, q: nat)
    requires Sane(c, s) && Window(c, s.flow) && c.missingMode == WAIT_FOR_EVENT && i < c.sources
    requires !IsInvalidNext(c, s, ts, i) && q < |s.flow.queue|
    ensures var t := Request(c, s, ts, i).0;
      q < |t.flow.queue| && t.flow.queue[q] == Mark(c, s.flow.queue[q], ts, i)
  {
    var s1 := SR.Asked(c, s, ts, i);
    CancelKeepsWindow(c, s.flow, ts, i);
    var s2 := s1.(lastNew := s.lastNew[i := ts]);
    NewRequestKeepsQueue(c, s2, ts, i, q);
  }

  lemma NewRequestKeepsQueue(c: Config, s: Sched, ts: int, i: nat, q: nat)
    requires Window(c, s.flow) && q < |s.flow.queue|
    ensures var t := SR.NewRequest(c, s, ts, i).0;
      q < |t.flow.queue| && t.flow.queue[q] == s.flow.queue[q]
  {
    if s.clock.IsNext(ts, c.maxOffset) {
      ScheduleWindow(c, s.flow, DataEvent(s.clock.expected));
    } else if s.clock.IsFurtherAhead(ts, c.maxOffset) {
      var p := SchedulePadding(c, s, i);
      ScheduleWindow(c, s.flow, PaddingEvent(s.clock.expected, i));
      ScheduleWindow(c, p.flow, DataEvent(p.clock.expected));
    }
    ImmediateWindow(c, s.flow, ts);
  }

  /** A source that is listed and asks again is listed twice. */
  lemma ListedTwice(c: Config, s: Sched, a: Asking, ts: int, i: nat, q: nat)
    requires SR.Good(c, s, a) && i < c.sources && AsksLater(c, a, ts, i) && !IsInvalidNext(c, s, ts, i)
    requires q < |s.flow.queue| && i in s.flow.queue[q].invalidSources
    ensures var t := Request(c, s, ts, i).0;
      q < |t.flow.queue| && t.flow.queue[q].kind == DATA && !Distinct(t.flow.queue[q].invalidSources)
  {
    var listed := s.flow.queue[q].invalidSources;
    assert QueuedOk(c, s.flow.queue[q], a);
    RequestKeepsQueue(c, s, ts, i, q);
    var x :| 0 <= x < |listed| && listed[x] == i;
    assert (listed + [i])[x] == (listed + [i])[|listed|];
  }

  /** A source whose input is not open has had its buffer, and gets it a second time. */
  lemma ServedTwice(c: Config, s: Sched, a: Asking, ts: int, i: nat)
    requires SR.Good(c, s, a) && i < c.sources && AsksLater(c, a, ts, i) && !IsInvalidNext(c, s, ts, i)
    requires !InputOpen(c, s.flow, ts, i)
    ensures var (t, fut) := Request(c, s, ts, i);
      && fut.SlotBuffer? && Replied(c, s, a, ts, i).states[i] == Holding(fut.slot)
      && (i, fut.slot) in t.flow.promises
      && Commit(t.flow, i, fut.slot).faults == s.flow.faults + 1
  {
    var j := FindRunning(c, s.flow, ts, 0);
    SR.SameSearch(c, s.flow, CancelSource(c, s.flow, ts, i), ts, 0);
    var k := MatchRuns(c, s.flow, a, ts, j);
    assert InputOk(c, s.flow, a, i, j);
  }

  /**
    In every state that the scheduler and its sources can be in, a later request that is not
    out of date keeps every input settled at most once if and only if no queued event lists the
    source and the frame found running, if any, is open to it. If an event lists it, no way the
    source may go on repairs that.
  */
  lemma RequestExact(c: Config, s: Sched, a: Asking, ts: int, i: nat)
    requires SR.Good(c, s, a) && i < c.sources && AsksLater(c, a, ts, i) && !IsInvalidNext(c, s, ts, i)
    ensures Inputs(c, Request(c, s, ts, i).0.flow, Replied(c, s, a, ts, i))
            <==> !Listed(s.flow, i) && InputOpen(c, s.flow, ts, i)
    ensures Listed(s.flow, i) ==> forall b :: !Inputs(c, Request(c, s, ts, i).0.flow, b)
  {
    var t, b := Request(c, s, ts, i).0, Replied(c, s, a, ts, i);
    if Listed(s.flow, i) {
      var q :| 0 <= q < |s.flow.queue| && i in s.flow.queue[q].invalidSources;
      ListedTwice(c, s, a, ts, i, q);
      forall b
        ensures !Inputs(c, t.flow, b)
      {
        assert Inputs(c, t.flow, b) ==> QueuedOk(c, t.flow.queue[q], b);
      }
    } else if !InputOpen(c, s.flow, ts, i) {
      ServedTwice(c, s, a, ts, i);
      assert !SourceOk(c, t.flow, b, i);
    } else {
      SR.RequestGood(c, s, a, ts, i);
    }
  }
}
