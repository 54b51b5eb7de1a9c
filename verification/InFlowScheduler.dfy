/**
  The in-flow scheduler as the object it is: a queue, a counting semaphore, a ring cursor, running
  flags and timestamps per slot, input flags per source and slot. Every method is proved against
  the transition it performs in `SchedulerCore` and `Requests`. The buffers of the slots are kept as
  values; `taken`, `ended` and `faults` are history.
*/
module InFlowSchedulers {
  import opened Events
  import opened Clock
  import opened SchedulerCore
  import opened SchedulerWindow
  import opened Requests
  import opened SourceInputs
  import SourceRequests
  import opened Semaphores
  import opened TimeDomainClocks
  import R = Ring

  class InFlowScheduler {
    const config: Config
    const semaphore: Semaphore
    const latestRunning: WaitForTimestamp
    const clock: TimeDomainClock
    const running: array<bool>
    const runningTs: array<int>
    const setInput: array2<bool>
    const lastNew: array<int>

    var queue: seq<ScheduledEvent>
    var latest: int
    var stopScheduled: bool
    var signals: set<EventType>

    // the slots' buffers
    var slots: seq<SlotEvent>
    var promises: set<(nat, nat)>
    var valid: set<(nat, nat)>

    ghost var faults: nat
    ghost var taken: seq<ScheduledEvent>
    ghost var ended: nat

    ghost function Repr(): set<object> {
      {this, semaphore, latestRunning, clock, running, runningTs, setInput, lastNew}
    }

    /** The objects fit together. */
    predicate Wired()
      reads this
    {
      && config.slots >= 1
      && running != lastNew as object && runningTs != lastNew && running != runningTs as object
      && running.Length == config.slots
      && runningTs.Length == config.slots
      && setInput.Length0 == config.sources && setInput.Length1 == config.slots
      && lastNew.Length == config.sources
      && semaphore.maxCount == config.slots
      && latestRunning.maxOffset == config.maxOffset && clock.maxOffset == config.maxOffset
      && |slots| == config.slots
      && -1 <= latest < config.slots
    }

    /** The pairs (source, slot) whose input is spoken for. */
    ghost function Flags(): set<(nat, nat)>
      reads this, setInput
    {
      set i: nat, j: nat | i < setInput.Length0 && j < setInput.Length1 && setInput[i, j] :: (i, j)
    }

    ghost function State(): Flow
      reads Repr()
    {
      Flow(queue, semaphore.count, latest, running[..], runningTs[..], Flags(), slots, promises, valid,
           faults, latestRunning.current, taken, ended)
    }

    ghost function Full(): Sched
      reads Repr()
    {
      Sched(State(), clock.State(), lastNew[..], stopScheduled, signals)
    }

    constructor (config: Config, delta: int)
      requires config.Valid()
      ensures this.config == config && Wired() && ListsSources() && fresh(Repr())
      ensures State() == Initial(config)
      ensures Full() == Start(config, delta)
    {
      this.config := config;
      semaphore := new Semaphore(config.slots, config.slots);
      latestRunning := new WaitForTimestamp(config.maxOffset);
      clock := new TimeDomainClock(delta, config.maxOffset);
      running := new bool[config.slots](_ => false);
      runningTs := new int[config.slots](_ => TIMESTAMP_ZERO);
      setInput := new bool[config.sources, config.slots]((_, _) => false);
      lastNew := new int[config.sources](_ => TIMESTAMP_ZERO);
      queue, latest, stopScheduled, signals := [], -1, false, {};
      slots := seq(config.slots, _ => SlotEvent(TIMESTAMP_ZERO, INVALID, ""));
      promises, valid := {}, {};
      faults, taken, ended := 0, [], 0;
      new;
      NothingSet();
      AllSame(running[..], config.slots, false);
      AllSame(runningTs[..], config.slots, TIMESTAMP_ZERO);
      AllSame(lastNew[..], config.sources, TIMESTAMP_ZERO);
    }

    lemma NothingSet()
      requires forall i, j :: 0 <= i < setInput.Length0 && 0 <= j < setInput.Length1 ==> !setInput[i, j]
      ensures Flags() == {}
    {
    }

    // ---- input flags -------------------------------------------------------------------------

    method SetFlag(source: nat, slot: nat)
      requires Wired() && source < config.sources && slot < config.slots
      modifies setInput
      ensures State() == Claim(old(State()), source, slot)
    {
      setInput[source, slot] := true;
      assert Flags() == old(Flags()) + {(source, slot)};
    }

    /** Fulfils the promise of a source's buffer; a second time throws. */
    method CommitSource(source: nat, slot: nat)
      requires Wired()
      modifies this`promises, this`faults
      ensures Wired() && State() == Commit(old(State()), source, slot)
    {
      if (source, slot) in promises {
        faults := faults + 1;
      } else {
        promises := promises + {(source, slot)};
      }
    }

    method ClaimAndCommitAll(sources: seq<nat>, slot: nat)
      requires Wired() && slot < config.slots && forall i :: i in sources ==> i < config.sources
      modifies setInput, this`promises, this`faults
      ensures Wired() && State() == ClaimAndCommit(old(State()), sources, slot)
    {
      for x := 0 to |sources|
        invariant Wired()
        invariant ClaimAndCommit(State(), sources[x..], slot) == ClaimAndCommit(old(State()), sources, slot)
      {
        assert sources[x] in sources && sources[x..][1..] == sources[x + 1..];
        SetFlag(sources[x], slot);
        CommitSource(sources[x], slot);
      }
    }

    // ---- taking and freeing slots ------------------------------------------------------------

    method TakeTaskflowSlot(slot: nat, timestamp: int)
      requires Wired() && slot == latest && slot < config.slots
      modifies running, runningTs, setInput
      ensures State() == TakeTaskflow(config, old(State()), slot, timestamp)
    {
      running[slot] := true;
      runningTs[slot] := timestamp;
      for i := 0 to config.sources
        invariant forall x, y :: 0 <= x < setInput.Length0 && 0 <= y < setInput.Length1 ==>
          setInput[x, y] == (old(setInput[x, y]) && !(y == latest && x < i))
        modifies setInput
      {
        setInput[i, latest] := false;
      }
      assert running[..] == old(running[..])[slot := true];
      assert runningTs[..] == old(runningTs[..])[slot := timestamp];
      assert Flags() == old(Flags()) - Sources(config, slot);
    }
  
    /** Resets the slot's buffers: every promise is new, no output is valid. */
    method ResetNewEvent(slot: nat)
      requires Wired() && slot < config.slots
      modifies this`promises, this`valid, this`slots
      ensures Wired() && State() == SchedulerCore.ResetNewEvent(config, old(State()), slot)
    {
      promises := promises - Column(promises, slot);
      valid := valid - Column(valid, slot);
      slots := slots[slot := slots[slot].(changedPattern := "")];
    }

    method SetTaskflowFree(slot: nat)
      requires Wired() && slot < config.slots
      modifies running, runningTs, semaphore
      ensures var f := old(State()); State() == f.(
        running := f.running[slot := false],
        runningTs := f.runningTs[slot := TIMESTAMP_ZERO],
        free := if f.free + 1 <= config.slots then f.free + 1 else config.slots)
    {
      running[slot] := false;
      runningTs[slot] := TIMESTAMP_ZERO;
      assert running[..] == old(running[..])[slot := false];
      assert runningTs[..] == old(runningTs[..])[slot := TIMESTAMP_ZERO];
      semaphore.Notify();
    }

    /** The slot after the latest one, wherever the ring stands. */
    method MoveCursor()
      requires Wired()
      modifies this`latest
      ensures Wired() && latest == R.Next(old(latest), config.slots) && latest >= 0
    {
      latest := latest + 1;
      latest := latest % config.slots;
    }

    /** The next slot takes the event, before any input of it is settled. */
    method OccupyNextSlot(ev: ScheduledEvent)
      requires Wired() && !running[R.Next(latest, config.slots)]
      modifies this`latest, this`taken, this`slots, running, runningTs, setInput
      ensures Wired() && latest == R.Next(old(latest), config.slots)
      ensures State() == Occupied(config, old(State()), ev)
    {
      MoveCursor();
      ghost var moved := State();
      assert moved == old(State()).(latest := latest);
      assert !running[latest];
      TakeTaskflowSlot(latest, ev.timestamp);
      var pattern := PatternShown(ev);
      slots := slots[latest := SlotEvent(ev.timestamp, ev.kind, pattern)];
      taken := taken + [ev];
      assert State() == TakeTaskflow(config, moved, latest, ev.timestamp).(slots := slots, taken := taken);
    }

    /** Loads an event into the slot after the latest one, which must not be running. */
    method LoadEvent(ev: ScheduledEvent)
      requires Wired() && !running[R.Next(latest, config.slots)]
      requires OnlySources(config, ev)
      modifies this`latest, this`taken, this`slots, this`promises, this`faults
      modifies running, runningTs, setInput, latestRunning
      ensures Wired() && latest == R.Next(old(latest), config.slots)
      ensures State() == Load(config, old(State()), ev)
    {
      OccupyNextSlot(ev);
      if ev.kind == DATA {
        latestRunning.NotifyAll(ev.timestamp);
        ClaimAndCommitAll(ev.invalidSources, latest);
      } else {
        ClaimAndCommitAll(AllSources(config), latest);
      }
    }

    // ---- the queue ---------------------------------------------------------------------------

    /** Every source that a queued frame lists exists. */
    predicate ListsSources()
      reads this
    {
      forall q :: 0 <= q < |queue| ==> OnlySources(config, queue[q])
    }

    /** The ring stands as `SchedulerWindow` describes it. */
    ghost predicate Valid()
      reads Repr()
    {
      Wired() && ListsSources() && Window(config, State())
    }

    /** Loads the queue's head. */
    method RunTaskFlowFromQueue()
      requires Wired() && ListsSources() && queue != [] && !running[R.Next(latest, config.slots)]
      modifies this`queue, this`latest, this`taken, this`slots, this`promises, this`faults
      modifies running, runningTs, setInput, latestRunning
      ensures Wired() && ListsSources()
      ensures State() == RunFromQueue(config, old(State()))
    {
      var next := queue[0];
      queue := queue[1..];
      ghost var popped := State();
      assert popped == old(State()).(queue := old(queue)[1..]);
      LoadEvent(next);
    }

    /** Queues an event, and takes the queue's head if a slot is free. */
    method QueueAndRun(ev: ScheduledEvent)
      requires Wired() && ListsSources() && OnlySources(config, ev)
      requires semaphore.count > 0 ==> !running[R.Next(latest, config.slots)]
      modifies this`queue, this`latest, this`taken, this`slots, this`promises, this`faults
      modifies running, runningTs, setInput, latestRunning, semaphore
      ensures Wired() && ListsSources()
      ensures State() == Schedule(config, old(State()), ev)
    {
      ghost var f := State();
      queue := queue + [ev];
      var free := semaphore.TryWait();
      assert State() == f.(queue := f.queue + [ev], free := semaphore.count);
      if free { RunTaskFlowFromQueue(); }
    }

    method Enqueue(ev: ScheduledEvent)
      requires Valid() && OnlySources(config, ev)
      modifies this`queue, this`latest, this`taken, this`slots, this`promises, this`faults
      modifies running, runningTs, setInput, latestRunning, semaphore
      ensures Valid()
      ensures State() == Schedule(config, old(State()), ev)
    {
      ghost var f := State();
      ScheduleWindow(config, f, ev);
      if f.free > 0 { NextSlotIsIdle(config, f); }
      QueueAndRun(ev);
    }

    method ScheduleEvent(kind: EventType, timestamp: int)
      requires Valid()
      modifies this`queue, this`latest, this`taken, this`slots, this`promises, this`faults
      modifies running, runningTs, setInput, latestRunning, semaphore
      ensures Valid()
      ensures State() == Schedule(config, old(State()), ScheduledEvent(timestamp, kind, [], ""))
    {
      Enqueue(ScheduledEvent(timestamp, kind, [], ""));
    }

    method SchedulePaddingEvent(timestamp: int, source: nat)
      requires Valid() && source < config.sources
      modifies this`queue, this`latest, this`taken, this`slots, this`promises, this`faults
      modifies running, runningTs, setInput, latestRunning, semaphore
      ensures Valid()
      ensures State() == Schedule(config, old(State()), PaddingEvent(timestamp, source))
    {
      Enqueue(ScheduledEvent(timestamp, DATA, [source], ""));
    }

    method ParameterChanged(pattern: string)
      requires Valid()
      modifies this`queue, this`latest, this`taken, this`slots, this`promises, this`faults
      modifies running, runningTs, setInput, latestRunning, semaphore
      ensures Valid()
      ensures Full() == ChangeParameter(config, old(Full()), pattern)
    {
      Enqueue(ScheduledEvent(TIMESTAMP_ZERO, PARAMETER_CHANGE, [], pattern));
    }

    /** Takes a slot now or not at all. */
    method ScheduleDataEventImmediately(timestamp: int) returns (slot: int)
      requires Valid()
      modifies this`queue, this`latest, this`taken, this`slots, this`promises, this`faults
      modifies running, runningTs, setInput, latestRunning, semaphore
      ensures Valid()
      ensures State() == ScheduleImmediately(config, old(State()), timestamp)
      ensures slot == if old(State()).free > 0 then latest else -1
      ensures 0 <= slot ==> slot < config.slots
    {
      ghost var f := State();
      ImmediateWindow(config, f, timestamp);
      if f.free > 0 { NextSlotIsIdle(config, f); }
      slot := TakeNow(timestamp);
    }

    method TakeNow(timestamp: int) returns (slot: int)
      requires Wired() && ListsSources()
      requires semaphore.count > 0 ==> !running[R.Next(latest, config.slots)]
      modifies this`queue, this`latest, this`taken, this`slots, this`promises, this`faults
      modifies running, runningTs, setInput, latestRunning, semaphore
      ensures Wired() && ListsSources()
      ensures State() == ScheduleImmediately(config, old(State()), timestamp)
      ensures slot == if old(State()).free > 0 then latest else -1
      ensures 0 <= slot ==> slot < config.slots
    {
      ghost var f := State();
      var free := semaphore.TryWait();
      assert State() == f.(free := semaphore.count);
      if free {
        LoadEvent(ScheduledEvent(timestamp, DATA, [], ""));
        return latest;
      }
      return -1;
    }

    method VacateSlot(slot: nat)
      requires Wired() && slot < config.slots
      modifies this`promises, this`valid, this`slots, this`ended, running
      ensures Wired() && State() == Vacate(config, old(State()), slot)
      ensures running[..] == old(running[..])[slot := false]
    {
      ResetNewEvent(slot);
      ghost var reset := State();
      running[slot] := false;
      ended := ended + 1;
      assert running[..] == old(running[..])[slot := false];
      assert State() == reset.(running := running[..], ended := ended);
    }

    /**
      Resets the slot of a step that has ended and hands it to the queue's head, or back to the
      pool. The step must be the oldest in flight: the slot that is taken next is not looked for.
    */
    method FreeTimeStep(slot: nat)
      requires Valid() && ended < |taken| && slot == R.Slot(ended, config.slots) && slot < config.slots
      modifies this`queue, this`latest, this`taken, this`slots, this`promises, this`faults, this`valid, this`ended
      modifies running, runningTs, setInput, latestRunning, semaphore
      ensures Valid()
      ensures State() == SchedulerCore.FreeTimeStep(config, old(State()), slot)
    {
      ghost var f := State();
      FreeWindow(config, f);
      VacateSlot(slot);
      ghost var vacated := State();
      if queue == [] {
        SetTaskflowFree(slot);
      } else {
        RunTaskFlowFromQueue();
        assert State() == RunFromQueue(config, vacated);
      }
      assert State() == SchedulerCore.FreeTimeStep(config, f, slot);
    }

    // ---- canceling older inputs --------------------------------------------------------------

    /** A canceled promise is fulfilled; canceling swallows the exception of a second time. */
    method CancelSlot(source: nat, slot: nat)
      requires Wired() && source < config.sources && slot < config.slots
      modifies this`promises, setInput
      ensures Wired()
      ensures State() == Cancel(Claim(old(State()), source, slot), source, slot)
    {
      SetFlag(source, slot);
      promises := promises + {(source, slot)};
    }

    /** Canceling other slots leaves this slot's flag alone. */
    lemma FlagIsOpen(f: Flow, source: nat, slot: nat)
      requires Wired() && source < config.sources && slot < config.slots
      requires forall i: nat :: (i, slot) in Flags() <==> (i, slot) in f.setInput
      ensures setInput[source, slot] <==> (source, slot) in f.setInput
    {
      assert setInput[source, slot] <==> (source, slot) in Flags();
    }

    /** Cancels the source's open inputs in the running slots that are older than `timestamp`. */
    method CancelRunning(timestamp: int, source: nat)
      requires Wired() && source < config.sources
      modifies this`promises, setInput
      ensures Wired()
      ensures var f := old(State()); var older := OpenOlder(config, f, timestamp, source);
        State() == f.(setInput := f.setInput + older, promises := f.promises + older)
    {
      ghost var f := State();
      for j := 0 to config.slots
        invariant Wired()
        invariant var older := OlderUpTo(config, f, timestamp, source, j);
          State() == f.(setInput := f.setInput + older, promises := f.promises + older)
        modifies this`promises, setInput
      {
        CancelIfOlder(timestamp, source, j, f);
      }
      assert OlderUpTo(config, f, timestamp, source, config.slots) == OpenOlder(config, f, timestamp, source);
    }

    /** The slot's input is canceled if it is open and its frame is older. */
    method CancelIfOlder(timestamp: int, source: nat, j: nat, ghost f: Flow)
      requires Wired() && source < config.sources && j < config.slots && Shape(config, f)
      requires var older := OlderUpTo(config, f, timestamp, source, j);
        State() == f.(setInput := f.setInput + older, promises := f.promises + older)
      modifies this`promises, setInput
      ensures Wired()
      ensures var older := OlderUpTo(config, f, timestamp, source, j + 1);
        State() == f.(setInput := f.setInput + older, promises := f.promises + older)
    {
      OlderStep(config, f, timestamp, source, j);
      FlagIsOpen(f, source, j);
      if !setInput[source, j] && running[j] && IsOlder(config, runningTs[j], timestamp) {
        CancelSlot(source, j);
      }
    }

    /** Lists the source in every queued frame that is older than `timestamp`. */
    method CancelQueued(timestamp: int, source: nat)
      requires Wired() && ListsSources() && source < config.sources
      modifies this`queue
      ensures Wired() && ListsSources()
      ensures queue == MarkAll(config, old(queue), timestamp, source)
    {
      for q := 0 to |queue|
        invariant Wired() && ListsSources() && |queue| == |old(queue)|
        invariant forall x :: 0 <= x < q ==> queue[x] == Mark(config, old(queue)[x], timestamp, source)
        invariant forall x :: q <= x < |queue| ==> queue[x] == old(queue)[x]
      {
        if queue[q].kind == DATA && IsOlder(config, queue[q].timestamp, timestamp) {
          queue := queue[q := queue[q].(invalidSources := queue[q].invalidSources + [source])];
        }
      }
    }

    method CancelSourceWaitForEvent(timestamp: int, source: nat)
      requires Valid() && source < config.sources
      modifies this`queue, this`promises, setInput
      ensures Valid()
      ensures State() == CancelSource(config, old(State()), timestamp, source)
    {
      ghost var f := State();
      CancelKeepsWindow(config, f, timestamp, source);
      CancelRunning(timestamp, source);
      ghost var g := State();
      CancelQueued(timestamp, source);
      assert State() == g.(queue := queue);
    }

    method CancelSourceCancelOldest(timestamp: int)
      requires Valid()
      modifies this`queue, this`promises, setInput
      ensures Valid()
      ensures State() == CancelSources(config, old(State()), timestamp, config.sources)
    {
      for i := 0 to config.sources
        invariant Valid()
        invariant State() == CancelSources(config, old(State()), timestamp, i)
      {
        CancelSourceWaitForEvent(timestamp, i);
      }
    }

    method CancelOlderEvents(timestamp: int, source: nat)
      requires Valid() && source < config.sources
      modifies this`queue, this`promises, setInput
      ensures Valid()
      ensures State() == Requests.CancelOlderEvents(config, old(State()), timestamp, source)
    {
      match config.missingMode {
        case WAIT_FOR_EVENT => CancelSourceWaitForEvent(timestamp, source);
        case CANCEL_OLDEST => CancelSourceCancelOldest(timestamp);
      }
    }

    // ---- looking a timestamp up --------------------------------------------------------------

    method IsTimestampRunning(timestamp: int) returns (slot: int)
      requires Wired()
      ensures slot == FindRunning(config, State(), timestamp, 0)
    {
      for j := 0 to config.slots
        invariant FindRunning(config, State(), timestamp, 0) == FindRunning(config, State(), timestamp, j)
      {
        if IsWithinRange(timestamp, runningTs[j], config.maxOffset) { return j; }
      }
      return -1;
    }

    method IsTimestampScheduled(timestamp: int) returns (scheduled: bool)
      requires Wired()
      ensures scheduled <==> IsScheduled(config, State(), timestamp)
    {
      for q := 0 to |queue|
        invariant forall x :: 0 <= x < q ==> !IsWithinRange(queue[x].timestamp, timestamp, config.maxOffset)
      {
        if IsWithinRange(queue[q].timestamp, timestamp, config.maxOffset) { return true; }
      }
      return false;
    }

    // ---- requests ----------------------------------------------------------------------------

    predicate IsInvalidNextRequestedTimestamp(timestamp: int, source: nat)
      reads this, clock, lastNew
      requires Wired() && source < config.sources
    {
      || timestamp + config.maxOffset < clock.initialMean - config.maxOffset
      || timestamp + config.maxOffset <= lastNew[source] - config.maxOffset
    }

    /** Speaks for the source's input in a slot that is known to run its frame. */
    method RequestSourceBufferRunning(source: nat, slot: nat) returns (future: Future)
      requires Valid() && source < config.sources && slot < config.slots
      modifies setInput
      ensures Valid()
      ensures State() == Claim(old(State()), source, slot) && future == SlotBuffer(slot)
    {
      ghost var f := State();
      SetFlag(source, slot);
      SameSlots(config, f, State());
      return SlotBuffer(slot);
    }

    /** What the deferred future of a queued frame does once its wait is over. */
    method ResolveScheduled(timestamp: int, source: nat) returns (future: Future)
      requires Valid() && source < config.sources && latestRunning.Reached(timestamp)
      modifies setInput
      ensures Valid() && Reached(config, old(State()), timestamp)
      ensures (State(), future) == Resolve(config, old(State()), timestamp, source)
    {
      ghost var f := State();
      var slot := IsTimestampRunning(timestamp);
      if slot < 0 { return NoBuffer; }
      assert setInput[source, slot] <==> (source, slot) in f.setInput;
      if setInput[source, slot] { return NoBuffer; }
      future := RequestSourceBufferRunning(source, slot);
    }

    /** One round of the padding loop. */
    method ScheduleNextPadding(source: nat)
      requires Valid() && source < config.sources
      modifies Repr()
      ensures Valid() && Full() == SchedulePadding(config, old(Full()), source)
    {
      var timestamp := clock.GetNextExpectedTimestamp();
      SchedulePaddingEvent(timestamp, source);
    }

    method ScheduleNextExpected()
      requires Valid()
      modifies Repr()
      ensures Valid() && Full() == ScheduleNext(config, old(Full()))
    {
      var timestamp := clock.GetNextExpectedTimestamp();
      ScheduleEvent(DATA, timestamp);
    }

    /** Without `PaddingEnds` the loop below runs forever. */
    method RequestSourceBufferNewTimestampWait(timestamp: int, source: nat) returns (future: Future)
      requires Valid() && source < config.sources && PaddingEnds(config, clock.State(), timestamp)
      modifies Repr()
      ensures Valid()
      ensures (Full(), future) == NewTimestampWait(config, old(Full()), timestamp, source)
    {
      ghost var s := Full();
      if clock.State().IsNext(timestamp, config.maxOffset) {
        ScheduleNextExpected();
      } else if clock.State().IsFurtherAhead(timestamp, config.maxOffset) {
        var again := true;
        while again
          invariant Valid()
          invariant Full() == if again then s else SchedulePadding(config, s, source)
          decreases again
        {
          ScheduleNextPadding(source);
          again := !clock.State().IsNextOrBigger(timestamp, config.maxOffset);
        }
        ScheduleNextExpected();
      } else {
        return NoBuffer;
      }
      return Deferred(timestamp);
    }

    method RequestSourceBufferNewTimestampImmediate(timestamp: int, source: nat) returns (future: Future)
      requires Valid() && source < config.sources
      modifies Repr()
      ensures Valid()
      ensures (Full(), future) == NewTimestampImmediate(config, old(Full()), timestamp, source)
    {
      var slot := ScheduleDataEventImmediately(timestamp);
      if slot >= 0 {
        future := RequestSourceBufferRunning(source, slot);
      } else {
        future := NoBuffer;
      }
    }

    method RequestSourceBufferNewTimestamp(timestamp: int, source: nat) returns (future: Future)
      requires Valid() && source < config.sources
      requires config.sourceMode == WAIT_FOR_BUFFER ==> PaddingEnds(config, clock.State(), timestamp)
      modifies Repr()
      ensures Valid()
      ensures (Full(), future) == SourceRequests.NewRequest(config, old(Full()), timestamp, source)
    {
      if stopScheduled { return NoBuffer; }
      match config.sourceMode {
        case WAIT_FOR_BUFFER => future := RequestSourceBufferNewTimestampWait(timestamp, source);
        case IMMEDIATE_RETURN => future := RequestSourceBufferNewTimestampImmediate(timestamp, source);
      }
    }

    method NoteRequest(timestamp: int, source: nat)
      requires Valid() && source < config.sources
      modifies lastNew
      ensures Valid() && Full() == old(Full()).(lastNew := old(Full()).lastNew[source := timestamp])
    {
      lastNew[source] := timestamp;
      assert lastNew[..] == old(lastNew[..])[source := timestamp];
      assert State() == old(State());
    }

    /** A request, as one atomic step. */
    method RequestSourceBuffer(timestamp: int, source: nat) returns (future: Future)
      requires Valid() && config.Valid() && source < config.sources && Returns(config, Full(), timestamp)
      modifies Repr()
      ensures Valid()
      ensures (Full(), future) == Request(config, old(Full()), timestamp, source)
    {
      ghost var s := Full();
      if IsInvalidNextRequestedTimestamp(timestamp, source) { return NoBuffer; }
      clock.NewTimestamp(timestamp);
      CancelOlderEvents(timestamp, source);
      assert Full() == Asked(config, s, timestamp, source);
      RequestServes(config, s, timestamp, source);
      future := ServeRequest(timestamp, source);
    }

    /** Finds the timestamp running or queued, or asks for a new time step. */
    method ServeRequest(timestamp: int, source: nat) returns (future: Future)
      requires Valid() && config.Valid() && source < config.sources
      requires config.sourceMode == WAIT_FOR_BUFFER ==> PaddingEnds(config, clock.State(), timestamp)
      modifies Repr()
      ensures Valid()
      ensures (Full(), future) == Serve(config, old(Full()), timestamp, source)
    {
      var slot := IsTimestampRunning(timestamp);
      if slot >= 0 {
        future := RequestSourceBufferRunning(source, slot);
        return;
      }
      if config.sourceMode == WAIT_FOR_BUFFER {
        var scheduled := IsTimestampScheduled(timestamp);
        if scheduled { return Deferred(timestamp); }
      }
      NoteRequest(timestamp, source);
      future := RequestSourceBufferNewTimestamp(timestamp, source);
    }

    // ---- control events and ends of time steps -----------------------------------------------

    /** What `start` and `stop` do for each control event; the wait for its signal is the caller's. */
    method ScheduleNonDataEvent(kind: EventType)
      requires Valid()
      modifies Repr()
      ensures Valid() && Full() == ScheduleControl(config, old(Full()), kind)
    {
      ScheduleEvent(kind, TIMESTAMP_ZERO);
      ghost var f := State();
      if kind == STOP { stopScheduled := true; }
      assert State() == f;
    }

    method Report(kind: EventType)
      requires Valid()
      modifies this`signals
      ensures Valid() && State() == old(State())
      ensures signals == if IsAwaited(kind) then old(signals) + {kind} else old(signals)
    {
      ghost var f := State();
      match kind {
        case CONFIGURE => signals := signals + {CONFIGURE};
        case START => signals := signals + {START};
        case STOP => signals := signals + {STOP};
        case TEARDOWN => signals := signals + {TEARDOWN};
        case _ =>
      }
      assert State() == f;
    }

    /** Ends the oldest step; the event kind is looked at after the slot was freed, and maybe taken again. */
    method TimeStepEnded(slot: nat)
      requires Valid() && ended < |taken| && slot == R.Slot(ended, config.slots) && slot < config.slots
      modifies Repr()
      ensures Valid() && Full() == Requests.TimeStepEnded(config, old(Full()), slot)
    {
      ghost var s := Full();
      FreeTimeStep(slot);
      ghost var f := State();
      assert Full() == s.(flow := f);
      Report(slots[slot].kind);
      assert Full() == s.(flow := f, signals := signals);
    }
  }

  /** A valid request, once it has set the clock and canceled older inputs. */
  ghost function Asked(c: Config, s: Sched, ts: int, source: nat): Sched
    requires Shape(c, s.flow)
  {
    s.(clock := s.clock.NewTimestamp(ts, c.maxOffset), flow := Requests.CancelOlderEvents(c, s.flow, ts, source))
  }

  ghost function Serve(c: Config, s: Sched, ts: int, source: nat): (Sched, Future)
    requires Sane(c, s) && source < c.sources
  {
    var j := FindRunning(c, s.flow, ts, 0);
    if j >= 0 then (s.(flow := Claim(s.flow, source, j)), SlotBuffer(j))
    else if c.sourceMode == WAIT_FOR_BUFFER && IsScheduled(c, s.flow, ts) then (s, Deferred(ts))
    else SourceRequests.NewRequest(c, s.(lastNew := s.lastNew[source := ts]), ts, source)
  }

  lemma RequestServes(c: Config, s: Sched, ts: int, source: nat)
    requires Sane(c, s) && source < c.sources && !IsInvalidNext(c, s, ts, source)
    ensures Request(c, s, ts, source) == Serve(c, Asked(c, s, ts, source), ts, source)
  {
  }

  lemma AllSame<T>(s: seq<T>, n: nat, v: T)
    requires |s| == n && forall i :: 0 <= i < n ==> s[i] == v
    ensures s == seq(n, _ => v)
  {
  }

  lemma OlderStep(c: Config, f: Flow, ts: int, source: nat, j: nat)
    requires Shape(c, f) && j < c.slots
    ensures OlderUpTo(c, f, ts, source, j + 1) == OlderUpTo(c, f, ts, source, j)
      + if (source, j) !in f.setInput && f.running[j] && IsOlder(c, f.runningTs[j], ts) then {(source, j)} else {}
  {
  }

  /** The source's open inputs in the older ones of the first `count` slots. */
  ghost function OlderUpTo(c: Config, f: Flow, ts: int, source: nat, count: nat): set<(nat, nat)>
    requires Shape(c, f) && count <= c.slots
  {
    set j: nat | j < count && (source, j) !in f.setInput && f.running[j] && IsOlder(c, f.runningTs[j], ts)
      :: (source, j)
  }

  /** An event lists only existing sources. */
  predicate OnlySources(c: Config, ev: ScheduledEvent) {
    ev.kind == DATA ==> forall i :: i in ev.invalidSources ==> i < c.sources
  }

  /** While a slot is free, the one taken next is not running. */
  lemma NextSlotIsIdle(c: Config, f: Flow)
    requires Window(c, f) && f.free > 0
    ensures !f.running[R.Next(f.latest, c.slots)]
  {
    NextIsFree(c, f);
    assert Vacant(c, f, |f.taken|);
  }

  /** A slot that has just taken an event. */
  ghost function Occupied(c: Config, f: Flow, ev: ScheduledEvent): Flow
    requires Shape(c, f)
  {
    var slot := R.Next(f.latest, c.slots);
    var pattern := PatternShown(ev);
    TakeTaskflow(c, f, slot, ev.timestamp).(
      latest := slot,
      taken := f.taken + [ev],
      slots := f.slots[slot := SlotEvent(ev.timestamp, ev.kind, pattern)])
  }
}
