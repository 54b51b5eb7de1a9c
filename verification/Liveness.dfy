/**
  No step hangs. As long as requests skip at most one frame, every input that the oldest step still
  waits for can be settled by its own source: the source delivers what it holds, gets the buffer it
  waits for, or moves on. So the oldest step can always be brought to its end, and what is queued
  can always be loaded.
*/
module Liveness {
  import opened Events
  import opened Clock
  import opened Network
  import opened SchedulerCore
  import opened SchedulerWindow
  import opened Requests
  import opened SourceInputs
  import opened DataflowSystem
  import opened Pipeline
  import opened PipelineSteps
  import opened PipelineTheorems
  import opened Lifecycle
  import opened Progress
  import opened MovedOn
  import opened Awaited
  import opened Reachability
  import R = Ring
  import Runs
  import SR = SourceRequests

  /** What holds in every run; no frame is held up or waited for in vain while sources wait for buffers. */
  ghost predicate Live(x: Setup, s: System) {
    && Full(x, s)
    && (x.config.sourceMode == WAIT_FOR_BUFFER ==>
          Prompt(x.config, s.sched, s.asking.last) && Expecting(x.config, s.sched.flow, s.asking))
    && (x.config.sourceMode == IMMEDIATE_RETURN ==> NobodyWaits(s.asking))
  }

  predicate NobodyWaits(a: Asking) {
    forall i :: 0 <= i < |a.states| ==> !a.states[i].Waiting?
  }

  /** Without waiting for buffers, no request is deferred. */
  lemma ActionKeepsNobodyWaits(x: Setup, s: System, a: Action)
    requires x.Valid() && Sane(x.config, s.sched) && AskingShape(x.config, s.asking) && Allowed(x, s, a)
    requires x.config.sourceMode == IMMEDIATE_RETURN && NobodyWaits(s.asking)
    ensures NobodyWaits(Apply(x, s, a).asking)
  {
    match a {
      case AskFor(i, ts) => NeverDeferred(x.config, s.sched, ts, i);
      case _ =>
    }
  }

  lemma NeverDeferred(c: Config, s: Sched, ts: int, i: nat)
    requires Sane(c, s) && i < c.sources && c.sourceMode == IMMEDIATE_RETURN
    ensures !Request(c, s, ts, i).1.Deferred?
  {
  }

  predicate IsPrompt(x: Setup, s: System, a: Action) {
    x.config.sourceMode == WAIT_FOR_BUFFER && a.AskFor? ==> SkipsAtMostOne(x.config, s.sched.clock, a.timestamp)
  }

  /** The steps whose requests skip at most one frame if sources wait for buffers. */
  ghost function LiveSteps(x: Setup): (System, Action, System) -> bool {
    (s, a, t) => Next(x, s, a, t) && IsPrompt(x, s, a)
  }

  lemma LiveStepsAreSteps(x: Setup)
    ensures Runs.IsWider(LiveSteps(x), Steps(x)) && Runs.IsWider(NodeSteps(x), LiveSteps(x))
  {
  }

  lemma InitialLive(x: Setup)
    requires x.Valid()
    ensures Live(x, InitialSystem(x))
  {
    InitialFull(x);
    InitialPrompt(x);
  }

  lemma ActionKeepsLive(x: Setup, s: System, a: Action)
    requires Live(x, s) && Allowed(x, s, a) && IsPrompt(x, s, a)
    ensures Live(x, Apply(x, s, a))
  {
    ActionKeepsFull(x, s, a);
    if x.config.sourceMode == WAIT_FOR_BUFFER {
      ActionKeepsPrompt(x, s, a);
      ActionKeepsExpecting(x, s, a);
    } else {
      ActionKeepsNobodyWaits(x, s, a);
    }
  }

  ghost function IsLive(x: Setup): System -> bool {
    (s: System) => Live(x, s)
  }

  lemma LiveIsKept(x: Setup, s: System, t: System)
    requires IsLive(x)(s) && Runs.Leads(LiveSteps(x), s, t)
    ensures IsLive(x)(t)
  {
    forall s, a, t | Live(x, s) && LiveSteps(x)(s, a, t)
      ensures Live(x, t)
    {
      ActionKeepsLive(x, s, a);
    }
    Runs.LeadsKeeps(LiveSteps(x), IsLive(x), s, t);
  }

  // ---- one source and one input --------------------------------------------------------------

  /** The slot of the oldest step. */
  function OldestSlot(x: Setup, s: System): nat
    requires x.net.n >= 1
  {
    R.Slot(s.sched.flow.ended, x.net.n)
  }

  /** The oldest step still waits for source `i`. */
  predicate Wants(x: Setup, s: System, i: nat)
    requires x.net.n >= 1
  {
    && s.sched.flow.ended < |s.sched.flow.taken| && i < x.config.sources
    && (i, OldestSlot(x, s)) !in s.sched.flow.promises
  }

  /** Only a frame waits, and its slot shows it. */
  lemma WantedIsFrame(x: Setup, s: System, i: nat)
    requires Full(x, s) && Wants(x, s, i)
    ensures var f, j := s.sched.flow, OldestSlot(x, s);
      && j < x.config.slots && f.taken[f.ended].kind == DATA && f.taken[f.ended].timestamp > 2 * x.config.maxOffset
      && f.running[j] && f.runningTs[j] == f.taken[f.ended].timestamp
      && (s.asking.states[i] != Holding(j) ==> (i, j) !in f.setInput)
  {
    var f, c := s.sched.flow, x.config;
    R.SlotBound(f.ended, c.slots);
    assert Hosts(c, f, f.ended) && Shows(c, f, f.ended);
    assert InputOk(c, f, s.asking, i, OldestSlot(x, s));
    assert EntryOk(c, f.taken[f.ended]);
  }

  lemma StartWasLoaded(x: Setup, s: System)
    requires Full(x, s) && s.sched.flow.ended < |s.sched.flow.taken| && s.sched.flow.taken[s.sched.flow.ended].kind == DATA
    ensures StartLoaded(s.sched.flow)
  {
    var f, h := s.sched.flow, History(s.sched.flow);
    assert h[f.ended] == f.taken[f.ended];
    assert Fits(h[f.ended].kind, f.ended, |h|, Tail(s.phase));
    assert Fits(h[1].kind, 1, |h|, Tail(s.phase));
    assert h[1] == f.taken[1];
  }

  /** A source that the oldest step wants, and that does not hold its buffer, has asked for nothing newer. */
  lemma NotPast(x: Setup, s: System, i: nat)
    requires Live(x, s) && Wants(x, s, i) && x.config.sourceMode == WAIT_FOR_BUFFER
    requires s.asking.states[i] != Holding(OldestSlot(x, s))
    ensures s.asking.last[i] <= s.sched.flow.taken[s.sched.flow.ended].timestamp + 2 * x.config.maxOffset
  {
    var f := s.sched.flow;
    WantedIsFrame(x, s, i);
    assert History(f)[f.ended] == f.taken[f.ended];
    assert !Spoken(x.config, f, i, f.ended);
    assert !LeftBehind(x.config, f, s.asking.last, i, f.ended);
  }

  /** If it waits, it waits for this very frame. */
  lemma WaitsForOldest(x: Setup, s: System, i: nat)
    requires Live(x, s) && Wants(x, s, i) && x.config.sourceMode == WAIT_FOR_BUFFER && s.asking.states[i].Waiting?
    ensures Reached(x.config, s.sched.flow, s.asking.states[i].timestamp)
    ensures Resolve(x.config, s.sched.flow, s.asking.states[i].timestamp, i).1 == SlotBuffer(OldestSlot(x, s))
  {
    var c, f, h, ts := x.config, s.sched.flow, History(s.sched.flow), s.asking.states[i].timestamp;
    assert SourceOk(c, f, s.asking, i);
    NotPast(x, s, i);
    WantedIsFrame(x, s, i);
    assert HasFrame(c, h, ts);
    var k: nat :| IsFrameOf(c, h, ts, k);
    OnlyOldestMatches(c, s.sched, s.asking, i, k);
    LatestIsNotBefore(c, s.sched);
    SR.DeferredFindsItsFrame(c, s.sched, s.asking, i, k);
  }

  lemma OnlyOldestMatches(c: Config, s: Sched, a: Asking, i: nat, k: nat)
    requires SR.Good(c, s, a) && c.sourceMode == WAIT_FOR_BUFFER && i < c.sources && a.states[i].Waiting?
    requires s.flow.ended < |s.flow.taken| && s.flow.taken[s.flow.ended].kind == DATA
    requires a.states[i].timestamp <= s.flow.taken[s.flow.ended].timestamp + 2 * c.maxOffset
    requires IsFrameOf(c, History(s.flow), a.states[i].timestamp, k)
    ensures k == s.flow.ended
  {
    var h := s.flow.taken + s.flow.queue;
    assert h[s.flow.ended] == s.flow.taken[s.flow.ended];
    assert k < s.flow.ended ==> h[k] == s.flow.taken[k] && EndedOk(c, s.flow.taken[k], a, i);
  }

  /** The timestamp reached is that of the oldest frame or a later one. */
  lemma LatestIsNotBefore(c: Config, s: Sched)
    requires Frames(c, s) && c.sourceMode == WAIT_FOR_BUFFER
    requires s.flow.ended < |s.flow.taken| && s.flow.taken[s.flow.ended].kind == DATA
    ensures s.flow.latestRunning >= s.flow.taken[s.flow.ended].timestamp
  {
    var f, h := s.flow, s.flow.taken + s.flow.queue;
    var k :| 0 <= k < |f.taken| && f.taken[k].kind == DATA && f.taken[k].timestamp == f.latestRunning
             && forall l :: k < l < |f.taken| ==> f.taken[l].kind != DATA;
    assert h[k] == f.taken[k] && h[f.ended] == f.taken[f.ended];
  }

  // ---- a request that moves on ---------------------------------------------------------------

  /** A timestamp past the oldest frame that a source may ask for. */
  function Later(x: Setup, s: System, i: nat): int
    requires i < |s.asking.last| && i < |s.sched.lastNew| && s.sched.flow.ended < |s.sched.flow.taken|
  {
    if x.config.sourceMode == WAIT_FOR_BUFFER then s.sched.clock.expected + s.sched.clock.delta
    else Max(Max(s.asking.last[i], s.sched.lastNew[i]),
             Max(s.sched.clock.initial, s.sched.flow.taken[s.sched.flow.ended].timestamp)) + 4 * x.config.maxOffset + 1
  }

  function Max(a: int, b: int): int { if a < b then b else a }

  /** The oldest frame lies at least one distance before the expected one. */
  lemma OldestBeforeExpected(c: Config, s: Sched)
    requires Frames(c, s) && c.sourceMode == WAIT_FOR_BUFFER
    requires s.flow.ended < |s.flow.taken| && s.flow.taken[s.flow.ended].kind == DATA
    ensures s.flow.taken[s.flow.ended].timestamp + s.clock.delta <= s.clock.expected
    ensures s.clock.initial != TIMESTAMP_ZERO && s.clock.expected >= s.clock.initial > 2 * c.maxOffset
  {
    var h := s.flow.taken + s.flow.queue;
    assert h[s.flow.ended] == s.flow.taken[s.flow.ended];
  }

  /** No queued event lists a source that the oldest step wants and whose buffer it does not hold. */
  lemma WantedIsNotListed(x: Setup, s: System, i: nat)
    requires Live(x, s) && Wants(x, s, i) && s.asking.states[i] != Holding(OldestSlot(x, s))
    ensures !Listed(s.sched.flow, i)
  {
    var c, f := x.config, s.sched.flow;
    WantedIsFrame(x, s, i);
    if c.sourceMode == WAIT_FOR_BUFFER {
      NotPast(x, s, i);
      forall q: nat | q < |f.queue|
        ensures i !in f.queue[q].invalidSources
      {
        assert QueuedOk(c, f.queue[q], s.asking);
        if f.queue[q].kind == DATA { SR.QueuedIsLater(c, s.sched, f.ended, q); }
      }
    } else {
      SR.NothingListed(c, s.sched, s.asking, i);
    }
  }

  /** The later timestamp is past everything that could stand in the way. */
  lemma LaterIsFar(x: Setup, s: System, i: nat)
    requires Live(x, s) && Wants(x, s, i) && s.asking.states[i] != Holding(OldestSlot(x, s))
    ensures var c, ts, at := x.config, Later(x, s, i), s.sched.flow.taken[s.sched.flow.ended].timestamp;
      && ts > s.asking.last[i] + 4 * c.maxOffset && ts > 2 * c.maxOffset && IsOlder(c, at, ts)
      && !IsInvalidNext(c, s.sched, ts, i)
  {
    WantedIsFrame(x, s, i);
    if x.config.sourceMode == WAIT_FOR_BUFFER {
      NotPast(x, s, i);
      OldestBeforeExpected(x.config, s.sched);
    }
  }

  lemma LaterReturns(x: Setup, s: System, i: nat)
    requires Live(x, s) && Wants(x, s, i)
    ensures Returns(x.config, s.sched, Later(x, s, i)) && IsPrompt(x, s, AskFor(i, Later(x, s, i)))
  {
    WantedIsFrame(x, s, i);
    if x.config.sourceMode == WAIT_FOR_BUFFER { OldestBeforeExpected(x.config, s.sched); }
  }

  /** A source that neither waits nor holds a buffer may ask for that timestamp. */
  lemma MayMoveOn(x: Setup, s: System, i: nat)
    requires Live(x, s) && Wants(x, s, i) && (s.asking.states[i].Idle? || s.asking.states[i].Refused?)
    ensures Allowed(x, s, AskFor(i, Later(x, s, i)))
  {
    var ts := Later(x, s, i);
    WantedIsFrame(x, s, i);
    StartWasLoaded(x, s);
    WantedIsNotListed(x, s, i);
    LaterIsFar(x, s, i);
    LaterReturns(x, s, i);
    DistantIsOpen(x.config, s.sched.flow, s.asking, ts, i);
  }

  /** A request that is not out of date fulfils the older open inputs of its source. */
  lemma RequestSettles(c: Config, s: Sched, ts: int, i: nat, j: nat)
    requires Sane(c, s) && c.missingMode == WAIT_FOR_EVENT && i < c.sources && j < c.slots
    requires !IsInvalidNext(c, s, ts, i)
    requires s.flow.running[j] && (i, j) !in s.flow.setInput && IsOlder(c, s.flow.runningTs[j], ts)
    ensures (i, j) in Request(c, s, ts, i).0.flow.promises
  {
    var s1 := SR.Asked(c, s, ts, i);
    assert (i, j) in OpenOlder(c, s.flow, ts, i);
    NewRequestExtends(c, s1.(lastNew := s.lastNew[i := ts]), ts, i);
  }

  lemma MovingOnSettles(x: Setup, s: System, i: nat)
    requires Live(x, s) && Wants(x, s, i) && (s.asking.states[i].Idle? || s.asking.states[i].Refused?)
    ensures !Wants(x, Asked(x, s, i, Later(x, s, i)), i)
  {
    WantedIsFrame(x, s, i);
    LaterIsFar(x, s, i);
    RequestSettles(x.config, s.sched, Later(x, s, i), i, OldestSlot(x, s));
    RequestExtends(x.config, s.sched, Later(x, s, i), i);
  }

  // ---- settling the oldest step --------------------------------------------------------------

  /** Sources have moved: no step has ended, nothing was taken back, and after STOP nothing was scheduled. */
  ghost predicate SourcesMoved(s: System, t: System) {
    && t.phase == s.phase && t.direct == s.direct && t.sched.signals == s.sched.signals
    && t.sched.flow.ended == s.sched.flow.ended && s.sched.flow.taken <= t.sched.flow.taken
    && s.sched.flow.promises <= t.sched.flow.promises && t.sched.stopScheduled == s.sched.stopScheduled
    && KeepsStamps(History(s.sched.flow), History(t.sched.flow))
    && (s.sched.stopScheduled ==> |History(t.sched.flow)| == |History(s.sched.flow)|)
    && (s.sched.flow.queue != [] ==> t.sched.flow.taken == s.sched.flow.taken)
  }

  predicate IsSourceAction(a: Action) { a.AskFor? || a.Awake? || a.Deliver? }

  lemma SourceActionMoves(x: Setup, s: System, a: Action)
    requires Inv(x, s) && Allowed(x, s, a) && IsSourceAction(a)
    ensures SourcesMoved(s, Apply(x, s, a))
  {
    match a {
      case AskFor(i, ts) =>
        RequestHistory(x.config, s.sched, ts, i);
        RequestExtends(x.config, s.sched, ts, i);
      case Awake(_) => QuietActions(x, s, a);
      case Deliver(_) => QuietActions(x, s, a);
    }
  }

  /** How far a wanted source is from settling its input. */
  function Distance(x: Setup, s: System, i: nat): nat
    requires x.net.n >= 1 && i < |s.asking.states|
  {
    if !Wants(x, s, i) then 0
    else if s.asking.states[i].Waiting? then 2
    else if s.asking.states[i].Holding? && s.asking.states[i].slot != OldestSlot(x, s) then 2
    else 1
  }

  /** A holder delivers. */
  lemma HolderMoves(x: Setup, s: System, i: nat)
    requires Live(x, s) && Wants(x, s, i) && s.asking.states[i].Holding?
    ensures Allowed(x, s, Deliver(i)) && Distance(x, Delivered(x, s, i), i) < Distance(x, s, i)
  {
  }

  /** A source that waits gets the oldest step's buffer. */
  lemma WaiterMoves(x: Setup, s: System, i: nat)
    requires Live(x, s) && Wants(x, s, i) && s.asking.states[i].Waiting?
    ensures Allowed(x, s, Awake(i)) && Distance(x, Awoken(x, s, i), i) < Distance(x, s, i)
  {
    WaitsForOldest(x, s, i);
  }

  /** Any other source asks for something later. */
  lemma AskerMoves(x: Setup, s: System, i: nat)
    requires Live(x, s) && Wants(x, s, i) && (s.asking.states[i].Idle? || s.asking.states[i].Refused?)
    ensures Allowed(x, s, AskFor(i, Later(x, s, i))) && IsPrompt(x, s, AskFor(i, Later(x, s, i)))
    ensures Distance(x, Asked(x, s, i, Later(x, s, i)), i) < Distance(x, s, i)
  {
    MayMoveOn(x, s, i);
    LaterReturns(x, s, i);
    MovingOnSettles(x, s, i);
  }

  /** The action that brings a wanted source closer. */
  function MoveOf(x: Setup, s: System, i: nat): Action
    requires i < |s.asking.states| && i < |s.asking.last| && i < |s.sched.lastNew|
    requires s.sched.flow.ended < |s.sched.flow.taken|
  {
    match s.asking.states[i]
    case Holding(_) => Deliver(i)
    case Waiting(_) => Awake(i)
    case _ => AskFor(i, Later(x, s, i))
  }

  lemma SourceMoves(x: Setup, s: System, i: nat)
    requires Live(x, s) && Wants(x, s, i)
    ensures Allowed(x, s, MoveOf(x, s, i)) && IsPrompt(x, s, MoveOf(x, s, i))
  {
    match s.asking.states[i] {
      case Holding(_) => HolderMoves(x, s, i);
      case Waiting(_) => WaiterMoves(x, s, i);
      case _ => AskerMoves(x, s, i);
    }
  }

  lemma MoveApplies(x: Setup, s: System, i: nat)
    requires x.Valid() && Sane(x.config, s.sched) && AskingShape(x.config, s.asking) && i < x.config.sources
    requires s.sched.flow.ended < |s.sched.flow.taken| && Allowed(x, s, MoveOf(x, s, i))
    ensures Apply(x, s, MoveOf(x, s, i)) ==
      match s.asking.states[i]
      case Holding(_) => Delivered(x, s, i)
      case Waiting(_) => Awoken(x, s, i)
      case _ => Asked(x, s, i, Later(x, s, i))
    ensures |Apply(x, s, MoveOf(x, s, i)).asking.states| == x.config.sources
  {
  }

  lemma MovesCloser(x: Setup, s: System, i: nat)
    requires Live(x, s) && Wants(x, s, i) && Allowed(x, s, MoveOf(x, s, i))
    ensures i < |Apply(x, s, MoveOf(x, s, i)).asking.states|
    ensures Distance(x, Apply(x, s, MoveOf(x, s, i)), i) < Distance(x, s, i)
  {
    MoveApplies(x, s, i);
    match s.asking.states[i] {
      case Holding(_) => HolderMoves(x, s, i);
      case Waiting(_) => WaiterMoves(x, s, i);
      case _ => AskerMoves(x, s, i);
    }
  }

  /** Sources alone can lead on from `s` to `t`. */
  ghost predicate SourcesLead(x: Setup, s: System, t: System) {
    Runs.Leads(LiveSteps(x), s, t) && SourcesMoved(s, t)
  }

  lemma SourcesStay(x: Setup, s: System)
    ensures SourcesLead(x, s, s)
  {
    Runs.StaysThere(LiveSteps(x), s);
  }

  lemma SourcesLeadOn(x: Setup, s: System, t: System, u: System)
    requires SourcesLead(x, s, t) && SourcesLead(x, t, u)
    ensures SourcesLead(x, s, u)
  {
    Runs.LeadsOn(LiveSteps(x), s, t, u);
  }

  /** One action of a wanted source. */
  lemma OneMove(x: Setup, s: System, i: nat) returns (t: System)
    requires Live(x, s) && Wants(x, s, i)
    ensures SourcesLead(x, s, t) && i < |t.asking.states| && Distance(x, t, i) < Distance(x, s, i)
  {
    var a := MoveOf(x, s, i);
    SourceMoves(x, s, i);
    MovesCloser(x, s, i);
    t := Apply(x, s, a);
    SourceActionMoves(x, s, a);
    Runs.OneStep(LiveSteps(x), s, a, t);
  }

  lemma LiveShape(x: Setup, s: System)
    requires Live(x, s)
    ensures x.net.n >= 1 && |s.asking.states| == x.config.sources
  {
  }

  /** Any one input that the oldest step wants can be settled by its own source. */
  lemma {:induction false} InputCanSettle(x: Setup, s: System, i: nat) returns (t: System)
    requires x.net.n >= 1 && i < |s.asking.states| && IsLive(x)(s)
    ensures SourcesLead(x, s, t) && !Wants(x, t, i)
    decreases Distance(x, s, i)
  {
    if Wants(x, s, i) {
      var u := OneMove(x, s, i);
      LiveIsKept(x, s, u);
      t := InputCanSettle(x, u, i);
      SourcesLeadOn(x, s, u, t);
    } else {
      t := s;
      SourcesStay(x, s);
    }
  }

  /** The oldest step wants none of the first `n` sources. */
  ghost predicate WantsNone(x: Setup, s: System, n: nat)
    requires x.net.n >= 1
  {
    forall i: nat :: i < n ==> !Wants(x, s, i)
  }

  /** So can all of them, one after the other. */
  lemma {:induction false} InputsCanSettle(x: Setup, s: System, n: nat) returns (t: System)
    requires x.net.n >= 1 && n <= x.config.sources && IsLive(x)(s) && s.sched.flow.ended < |s.sched.flow.taken|
    ensures SourcesLead(x, s, t) && WantsNone(x, t, n)
  {
    if n == 0 {
      t := s;
      SourcesStay(x, s);
    } else {
      var u := InputsCanSettle(x, s, n - 1);
      t := OneMoreSettles(x, s, u, n - 1);
    }
  }

  lemma OneMoreSettles(x: Setup, s: System, u: System, n: nat) returns (t: System)
    requires x.net.n >= 1 && n < x.config.sources && IsLive(x)(s) && s.sched.flow.ended < |s.sched.flow.taken|
    requires SourcesLead(x, s, u) && WantsNone(x, u, n)
    ensures SourcesLead(x, s, t) && WantsNone(x, t, n + 1)
  {
    LiveIsKept(x, s, u);
    LiveShape(x, u);
    t := InputCanSettle(x, u, n);
    SourcesLeadOn(x, s, u, t);
    StillUnwanted(x, u, t, n);
  }

  /** Settled inputs stay settled while sources move. */
  lemma StillUnwanted(x: Setup, s: System, t: System, n: nat)
    requires x.net.n >= 1 && SourcesMoved(s, t) && WantsNone(x, s, n) && s.sched.flow.ended < |s.sched.flow.taken|
    ensures WantsNone(x, t, n)
  {
    forall i: nat | i < n
      ensures !Wants(x, t, i)
    {
      assert !Wants(x, s, i);
      assert (i, OldestSlot(x, s)) in s.sched.flow.promises ==> (i, OldestSlot(x, s)) in t.sched.flow.promises;
    }
  }

  /** The oldest step has ended, and nothing but frames was scheduled meanwhile; after STOP not even those. */
  ghost predicate OldestEnded(s: System, t: System) {
    var f, g := s.sched.flow, t.sched.flow;
    && t.phase == s.phase && t.direct == s.direct && t.sched.stopScheduled == s.sched.stopScheduled
    && g.ended == f.ended + 1
    && KeepsStamps(History(f), History(g))
    && (s.sched.stopScheduled ==> |History(g)| == |History(f)|)
    && (f.queue != [] ==> |g.taken| == |f.taken| + 1)
  }

  lemma EndsAfterSources(x: Setup, s: System, u: System, t: System)
    requires Full(x, u) && SourcesMoved(s, u) && u.sched.flow.ended < |u.sched.flow.taken| && OnlyEnded(x, u, t)
    ensures OldestEnded(s, t)
  {
    KindReadAtEnd(x, u, OldestSlot(x, u));
  }

  /**
    No step hangs: as long as the oldest step is no stop event and follows none, some continuation,
    in which requests skip at most one frame, brings it to its end.
  */
  lemma OldestCanEnd(x: Setup, s: System) returns (t: System)
    requires Live(x, s) && s.sched.flow.ended < |s.sched.flow.taken| && !StopBy(s.sched.flow, s.sched.flow.ended)
    ensures Runs.Leads(LiveSteps(x), s, t) && Live(x, t) && OldestEnded(s, t)
  {
    var u := InputsCanSettle(x, s, x.config.sources);
    SettledMayEnd(x, s, u);
    LiveIsKept(x, s, u);
    t := StepEnds(x, u);
    LiveStepsAreSteps(x);
    Runs.LeadsWidens(NodeSteps(x), LiveSteps(x), u, t);
    Runs.LeadsOn(LiveSteps(x), s, u, t);
    LiveIsKept(x, s, t);
    EndsAfterSources(x, s, u, t);
  }

  lemma SettledMayEnd(x: Setup, s: System, t: System)
    requires x.net.n >= 1 && SourcesMoved(s, t) && s.sched.flow.ended < |s.sched.flow.taken|
    requires !StopBy(s.sched.flow, s.sched.flow.ended)
    requires WantsNone(x, t, x.config.sources)
    ensures MayEnd(x, t)
  {
    var f, g := s.sched.flow, t.sched.flow;
    assert forall m :: 0 <= m <= g.ended ==> g.taken[m] == f.taken[m];
    forall i: nat | i < x.config.sources
      ensures (i, R.Slot(g.ended, x.net.n)) in g.promises
    {
      assert !Wants(x, t, i);
    }
  }
}
