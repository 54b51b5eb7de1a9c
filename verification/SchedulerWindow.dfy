/**
  The scheduler keeps no list of free slots: it always uses the slot after the latest one. This
  module shows what makes that right. As long as time steps end in ring order, the steps in flight
  are the window [ended, taken), the semaphore counts the rest of the ring, and the slot that is
  taken next is always vacant.
*/
module SchedulerWindow {
  import opened Events
  import opened Ring
  import opened SchedulerCore

  /** Step `k`'s slot runs step `k`'s event. */
  ghost predicate Hosts(c: Config, f: Flow, k: nat)
    requires Shape(c, f) && k < |f.taken|
  {
    SlotBound(k, c.slots);
    var s := Slot(k, c.slots);
    && f.running[s] && f.runningTs[s] == f.taken[k].timestamp
    && f.slots[s].changedPattern == PatternShown(f.taken[k])
  }

  /** Step `k`'s slot still shows step `k`'s event. */
  ghost predicate Shows(c: Config, f: Flow, k: nat)
    requires Shape(c, f) && k < |f.taken|
  {
    SlotBound(k, c.slots);
    var s := Slot(k, c.slots);
    f.slots[s].kind == f.taken[k].kind && f.slots[s].timestamp == f.taken[k].timestamp
  }

  /** The slot waits, reset, for step `k`. */
  ghost predicate Vacant(c: Config, f: Flow, k: nat)
    requires Shape(c, f)
  {
    SlotBound(k, c.slots);
    var s := Slot(k, c.slots);
    !f.running[s] && f.runningTs[s] == TIMESTAMP_ZERO && Reset(f, s)
  }

  ghost predicate Reset(f: Flow, s: nat) {
    && (forall i :: (i, s) !in f.promises)
    && (forall i :: (i, s) !in f.valid)
  }

  /** The window, but for the slot of the next step and the semaphore. */
  ghost predicate Cursor(c: Config, f: Flow) {
    && Shape(c, f)
    && f.ended <= |f.taken| <= f.ended + c.slots
    && f.latest == (if |f.taken| == 0 then -1 else Slot(|f.taken| - 1, c.slots))
    && (forall k: nat :: f.ended <= k < |f.taken| ==> Hosts(c, f, k))
    && (forall k: nat :: k < |f.taken| <= k + c.slots ==> Shows(c, f, k))
    && (forall k: nat :: |f.taken| < k < f.ended + c.slots ==> Vacant(c, f, k))
    && (forall s: nat :: |f.taken| <= s < c.slots ==> f.slots[s].kind == INVALID)
    && (forall p :: p in f.promises ==> p.1 < c.slots)
    && (forall p :: p in f.valid ==> p.1 < c.slots)
  }

  ghost predicate Window(c: Config, f: Flow) {
    && Cursor(c, f)
    && (|f.taken| < f.ended + c.slots ==> Vacant(c, f, |f.taken|))
    && f.free == c.slots - (|f.taken| - f.ended)
    && (f.queue != [] ==> f.free == 0)
  }

  /** The slot after the latest one is the slot of the next step. */
  lemma NextIsFree(c: Config, f: Flow)
    requires Cursor(c, f)
    ensures Next(f.latest, c.slots) == Slot(|f.taken|, c.slots) < c.slots
  {
    SlotBound(|f.taken|, c.slots);
    if |f.taken| > 0 { NextSlot(|f.taken| - 1, c.slots); }
  }

  lemma InitialWindow(c: Config)
    requires c.slots >= 1
    ensures Window(c, Initial(c))
  {
    var f := Initial(c);
    forall k: nat | k < c.slots
      ensures Vacant(c, f, k)
    {
    }
  }

  lemma LoadCursor(c: Config, f: Flow, ev: ScheduledEvent)
    requires Cursor(c, f) && |f.taken| < f.ended + c.slots
    ensures Cursor(c, Load(c, f, ev))
    ensures |f.taken| + 1 < f.ended + c.slots ==> Vacant(c, Load(c, f, ev), |f.taken| + 1)
  {
    var g := Load(c, f, ev);
    var t, n := |f.taken|, c.slots;
    LoadFrame(c, f, ev);
    NextIsFree(c, f);
    forall k: nat | f.ended <= k < t + 1
      ensures Hosts(c, g, k)
    {
      if k < t { assert Hosts(c, f, k); WindowInjectiveFact(f.ended, k, t, n); }
    }
    forall k: nat | k < t + 1 <= k + n
      ensures Shows(c, g, k)
    {
      if k < t { assert Shows(c, f, k); WindowInjectiveFact(k, k, t, n); }
    }
    forall k: nat | t + 1 <= k < f.ended + n
      ensures Vacant(c, g, k)
    {
      assert Vacant(c, f, k);
      WindowInjectiveFact(f.ended, k, t, n);
    }
  }

  lemma WindowInjectiveFact(e: nat, k: nat, t: nat, n: nat)
    requires n > 0 && e <= k < e + n && e <= t < e + n && k != t
    ensures Slot(k, n) != Slot(t, n) && Slot(k, n) < n
  {
    SlotBound(k, n);
    if Slot(k, n) == Slot(t, n) { WindowInjective(e, k, t, n); }
  }

  // ---- scheduling ----------------------------------------------------------------------------

  /** Queueing an event keeps the window; it runs at once exactly when a slot is free. */
  lemma ScheduleWindow(c: Config, f: Flow, ev: ScheduledEvent)
    requires Window(c, f)
    ensures var g := Schedule(c, f, ev);
      && Window(c, g)
      && g.taken + g.queue == f.taken + f.queue + [ev]
      && g.ended == f.ended
      && (f.free > 0 ==> g.taken == f.taken + [ev] && g.queue == [] && g == Load(c, f.(free := f.free - 1), ev))
      && (f.free == 0 ==> g == f.(queue := f.queue + [ev]))
  {
    if f.free > 0 {
      ScheduleLoads(c, f, ev);
      LoadFree(c, f, ev);
    } else {
      SameSlots(c, f, f.(queue := f.queue + [ev]));
      assert f.taken + (f.queue + [ev]) == f.taken + f.queue + [ev];
    }
  }

  /** With a free slot the queue is empty, so the event queued is the event taken. */
  lemma ScheduleLoads(c: Config, f: Flow, ev: ScheduledEvent)
    requires Window(c, f) && f.free > 0
    ensures Schedule(c, f, ev) == Load(c, f.(free := f.free - 1), ev)
  {
    var g := f.(queue := f.queue + [ev]);
    assert f.queue == [] && g.queue == [ev];
    assert g.(free := g.free - 1).(queue := g.queue[1..]) == f.(free := f.free - 1);
  }

  /** Taking a free slot keeps the window. */
  lemma LoadFree(c: Config, f: Flow, ev: ScheduledEvent)
    requires Window(c, f) && f.free > 0
    ensures var g := Load(c, f.(free := f.free - 1), ev);
      && Window(c, g) && g.taken == f.taken + [ev] && g.queue == f.queue == [] && g.ended == f.ended
  {
    var h := f.(free := f.free - 1);
    SameSlots(c, f, h);
    LoadCursor(c, h, ev);
    LoadFrame(c, h, ev);
  }

  /** Taking a slot past the queue happens only when the queue is empty, so it overtakes nothing. */
  lemma ImmediateWindow(c: Config, f: Flow, ts: int)
    requires Window(c, f)
    ensures var g := ScheduleImmediately(c, f, ts);
      && Window(c, g) && g.ended == f.ended && g.queue == f.queue
      && (f.free > 0 ==> f.queue == [] && g.taken == f.taken + [ScheduledEvent(ts, DATA, [], "")])
      && (f.free == 0 ==> g == f)
  {
    if f.free > 0 {
      LoadFree(c, f, ScheduledEvent(ts, DATA, [], ""));
    }
  }

  /** The window says nothing about the queue's contents or the input flags. */
  lemma SameSlots(c: Config, f: Flow, g: Flow)
    requires Cursor(c, f)
    requires g.running == f.running && g.runningTs == f.runningTs && g.slots == f.slots
    requires g.latest == f.latest && g.taken == f.taken && g.ended == f.ended
    requires forall p :: p in g.promises && p !in f.promises ==> SlotRuns(c, f, p.1)
    requires forall p :: p in g.valid && p !in f.valid ==> SlotRuns(c, f, p.1)
    ensures Cursor(c, g)
    ensures |f.taken| < f.ended + c.slots && Vacant(c, f, |f.taken|) ==> Vacant(c, g, |f.taken|)
  {
    forall k: nat | f.ended <= k < |f.taken|
      ensures Hosts(c, g, k)
    {
      assert Hosts(c, f, k);
    }
    forall k: nat | k < |f.taken| <= k + c.slots
      ensures Shows(c, g, k)
    {
      assert Shows(c, f, k);
    }
    forall k: nat | |f.taken| <= k < f.ended + c.slots && Vacant(c, f, k)
      ensures Vacant(c, g, k)
    {
      SlotBound(k, c.slots);
    }
  }

  predicate SlotRuns(c: Config, f: Flow, s: nat) {
    Shape(c, f) && s < c.slots && f.running[s]
  }

  // ---- ending --------------------------------------------------------------------------------

  /** When the oldest step ends, its slot is reset and becomes the last vacant one. */
  lemma VacateCursor(c: Config, f: Flow)
    requires Window(c, f) && f.ended < |f.taken|
    ensures var s := Slot(f.ended, c.slots);
      s < c.slots && Cursor(c, Vacate(c, f, s).(runningTs := f.runningTs[s := TIMESTAMP_ZERO]))
      && Vacant(c, Vacate(c, f, s).(runningTs := f.runningTs[s := TIMESTAMP_ZERO]), |f.taken|)
  {
    var e, n := f.ended, c.slots;
    SlotBound(e, n);
    var s := Slot(e, n);
    var g := Vacate(c, f, s).(runningTs := f.runningTs[s := TIMESTAMP_ZERO]);
    Wraps(e, n);
    forall k: nat | e + 1 <= k < |f.taken|
      ensures Hosts(c, g, k)
    {
      assert Hosts(c, f, k);
      WindowInjectiveFact(e, k, e, n);
    }
    forall k: nat | k < |f.taken| <= k + n
      ensures Shows(c, g, k)
    {
      assert Shows(c, f, k);
      SlotBound(k, n);
    }
    forall k: nat | |f.taken| <= k <= e + n
      ensures Vacant(c, g, k)
    {
      SlotBound(k, n);
      if k < e + n {
        assert Vacant(c, f, k);
        WindowInjectiveFact(e, k, e, n);
      }
    }
  }

  /**
    Ending the oldest step keeps the window. If an event is queued, it is the queue's head that
    takes the slot, and the slot it takes is the one just vacated.
  */
  lemma FreeWindow(c: Config, f: Flow)
    requires Window(c, f) && f.ended < |f.taken|
    ensures var s := Slot(f.ended, c.slots);
      s < c.slots
      && var g := FreeTimeStep(c, f, s);
      && Window(c, g)
      && g.ended == f.ended + 1
      && g.taken + g.queue == f.taken + f.queue
      && (f.queue == [] ==> g.taken == f.taken && g.slots[s].kind == f.taken[f.ended].kind)
      && (f.queue != [] ==> g.taken == f.taken + [f.queue[0]] && g.slots[s].kind == f.queue[0].kind
                            && Next(f.latest, c.slots) == s)
  {
    SlotBound(f.ended, c.slots);
    if f.queue == [] {
      FreeToPool(c, f);
    } else {
      FreeToQueue(c, f);
      assert f.queue == [f.queue[0]] + f.queue[1..];
    }
  }

  lemma FreeToPool(c: Config, f: Flow)
    requires Window(c, f) && f.ended < |f.taken| && f.queue == [] && Slot(f.ended, c.slots) < c.slots
    ensures var s := Slot(f.ended, c.slots);
      var g := FreeTimeStep(c, f, s);
      && Window(c, g) && g.ended == f.ended + 1 && g.taken == f.taken && g.queue == []
      && g.slots[s].kind == f.taken[f.ended].kind
  {
    var s := Slot(f.ended, c.slots);
    var z := Vacate(c, f, s).(runningTs := f.runningTs[s := TIMESTAMP_ZERO]);
    VacateCursor(c, f);
    assert Shows(c, f, f.ended);
    SameSlots(c, z, FreeTimeStep(c, f, s));
  }

  lemma FreeToQueue(c: Config, f: Flow)
    requires Window(c, f) && f.ended < |f.taken| && f.queue != [] && Slot(f.ended, c.slots) < c.slots
    ensures var s := Slot(f.ended, c.slots);
      var g := FreeTimeStep(c, f, s);
      && Window(c, g) && g.ended == f.ended + 1
      && g.taken == f.taken + [f.queue[0]] && g.queue == f.queue[1..]
      && g.slots[s].kind == f.queue[0].kind && Next(f.latest, c.slots) == s
  {
    var s := Slot(f.ended, c.slots);
    var g := Vacate(c, f, s).(queue := f.queue[1..]);
    var z := Vacate(c, f, s).(runningTs := f.runningTs[s := TIMESTAMP_ZERO]);
    var h := z.(queue := f.queue[1..]);
    VacateCursor(c, f);
    SameSlots(c, z, h);
    NextIsFree(c, h);
    Wraps(f.ended, c.slots);
    LoadForgetsTimestamp(c, g, h, f.queue[0]);
    LoadWindow(c, h, f.queue[0]);
  }

  /** Loading the last vacant slot of a full ring. */
  lemma LoadWindow(c: Config, f: Flow, ev: ScheduledEvent)
    requires Cursor(c, f) && |f.taken| + 1 == f.ended + c.slots && f.free == 0
    ensures var g := Load(c, f, ev);
      && Window(c, g) && g.ended == f.ended && g.taken == f.taken + [ev] && g.queue == f.queue
      && g.slots[Next(f.latest, c.slots)].kind == ev.kind
  {
    LoadCursor(c, f, ev);
    LoadFrame(c, f, ev);
  }

  /** The old timestamp of the slot being loaded does not matter. */
  lemma LoadForgetsTimestamp(c: Config, f: Flow, g: Flow, ev: ScheduledEvent)
    requires Shape(c, f)
    requires g == f.(runningTs := f.runningTs[Next(f.latest, c.slots) := TIMESTAMP_ZERO])
    ensures Load(c, f, ev) == Load(c, g, ev)
  {
    var slot := Next(f.latest, c.slots);
    assert f.runningTs[slot := ev.timestamp] == g.runningTs[slot := ev.timestamp];
    assert TakeTaskflow(c, f, slot, ev.timestamp) == TakeTaskflow(c, g, slot, ev.timestamp);
  }

  /**
    Ring order is needed: when a step other than the oldest ends while an event is queued, the slot
    the scheduler takes next is still running.
  */
  lemma OnlyOldestMayEnd(c: Config, f: Flow, s: nat)
    requires Window(c, f) && s < c.slots && f.running[s] && f.queue != []
    ensures !Vacate(c, f, s).running[Next(f.latest, c.slots)] <==> s == Slot(f.ended, c.slots)
  {
    NextIsFree(c, f);
    Wraps(f.ended, c.slots);
    assert Hosts(c, f, f.ended);
  }
}
