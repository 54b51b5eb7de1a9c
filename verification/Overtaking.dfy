/**
  When the final stop events overtake TEARDOWN. The main thread schedules them as soon as TEARDOWN is
  reported, which is when it is loaded if it had to wait. So from a state in which TEARDOWN has been
  scheduled and has not ended, some continuation schedules a stop event before its end exactly when
  TEARDOWN had to wait and can still be loaded; and it can, as long as requests skip at most one
  frame.
*/
module Overtaking {
  import opened Events
  import opened Network
  import opened SchedulerCore
  import opened SchedulerWindow
  import opened Requests
  import opened SourceInputs
  import opened DataflowSystem
  import opened Pipeline
  import opened PipelineSteps
  import opened PipelineTheorems
  import opened Lifecycle
  import opened Progress
  import opened Shutdown
  import opened Awaited
  import opened Liveness
  import opened Reachability
  import R = Ring
  import Runs

  /** A stop event has been scheduled, and TEARDOWN, the k-th event, has not ended. */
  predicate Overtaken(s: System, k: nat) {
    s.phase.ShuttingDown? && s.phase.sent >= 1 && s.sched.flow.ended <= k
  }

  ghost predicate MayOvertake(x: Setup, s: System, k: nat) {
    exists t :: Runs.Leads(Steps(x), s, t) && Overtaken(t, k)
  }

  ghost predicate MayLoad(x: Setup, s: System, k: nat) {
    exists t :: Runs.Leads(Steps(x), s, t) && k < |t.sched.flow.taken|
  }

  /** TEARDOWN is the k-th event, the main thread waits for its report, and it has not ended. */
  predicate Tearing(s: System, k: nat) {
    s.phase.TearingDown? && IsPlaceOf(s, TEARDOWN, k) && s.sched.flow.ended <= k
  }

  lemma FullIsKept(x: Setup, s: System, t: System)
    requires Full(x, s) && Runs.Leads(Steps(x), s, t)
    ensures Full(x, t)
  {
    forall s, a, t | Full(x, s) && Steps(x)(s, a, t)
      ensures Full(x, t)
    {
      ActionKeepsFull(x, s, a);
    }
    Runs.LeadsKeeps(Steps(x), IsFull(x), s, t);
  }

  // ---- what is scheduled stays scheduled -----------------------------------------------------

  lemma ScheduledStays(x: Setup, s: System, ev: ScheduledEvent, t: System, kind: EventType, k: nat)
    requires Window(x.config, s.sched.flow) && IsPlaceOf(s, kind, k)
    requires t.sched.flow == Schedule(x.config, s.sched.flow, ev)
    ensures IsPlaceOf(t, kind, k)
  {
    ScheduleWindow(x.config, s.sched.flow, ev);
  }

  lemma MainKeepsPlace(x: Setup, s: System, kind: EventType, k: nat)
    requires Window(x.config, s.sched.flow) && IsPlaceOf(s, kind, k)
    ensures IsPlaceOf(MainStep(x, s), kind, k) && s.direct <= MainStep(x, s).direct
  {
    if Submits(s.phase) { ScheduledStays(x, s, ControlEvent(NextEvent(s.phase)), MainStep(x, s), kind, k); }
  }

  lemma PlaceStays(x: Setup, s: System, a: Action, kind: EventType, k: nat)
    requires Inv(x, s) && Allowed(x, s, a) && IsPlaceOf(s, kind, k)
    ensures IsPlaceOf(Apply(x, s, a), kind, k) && s.direct <= Apply(x, s, a).direct
  {
    if IsQuiet(a) {
      QuietActions(x, s, a);
    } else {
      match a {
        case AskFor(i, ts) => RequestHistory(x.config, s.sched, ts, i);
        case MainThread => MainKeepsPlace(x, s, kind, k);
        case SetParameter(p) =>
          ScheduledStays(x, s, ScheduledEvent(TIMESTAMP_ZERO, PARAMETER_CHANGE, [], p), Apply(x, s, a), kind, k);
        case CompleteNode(v) =>
          EndsOldest(x, s, v.slot);
          KindReadAtEnd(x, s, v.slot);
      }
    }
  }

  // ---- TEARDOWN that ran at once -------------------------------------------------------------

  ghost predicate RanAtOnce(x: Setup, s: System, k: nat) {
    Full(x, s) && IsPlaceOf(s, TEARDOWN, k) && TEARDOWN in s.direct
  }

  ghost function RanAtOnceFrom(x: Setup, k: nat): System -> bool {
    (s: System) => RanAtOnce(x, s, k)
  }

  /** It is never overtaken. */
  lemma DirectIsNotOvertaken(x: Setup, s: System, t: System, k: nat)
    requires RanAtOnce(x, s, k) && Runs.Leads(Steps(x), s, t)
    ensures !Overtaken(t, k)
  {
    forall s, a, t | RanAtOnce(x, s, k) && Steps(x)(s, a, t)
      ensures RanAtOnce(x, t, k)
    {
      ActionKeepsFull(x, s, a);
      PlaceStays(x, s, a, TEARDOWN, k);
    }
    Runs.LeadsKeeps(Steps(x), RanAtOnceFrom(x, k), s, t);
    TeardownReport(x, t, k);
  }

  // ---- TEARDOWN that had to wait -------------------------------------------------------------

  /** TEARDOWN waits in the queue. */
  ghost predicate Queued(x: Setup, s: System, k: nat) {
    Full(x, s) && Tearing(s, k) && TEARDOWN !in s.direct && k >= |s.sched.flow.taken|
  }

  /** It has been loaded, and the main thread has not noticed yet. */
  ghost predicate JustLoaded(x: Setup, s: System, k: nat) {
    Full(x, s) && Tearing(s, k) && TEARDOWN !in s.direct && k < |s.sched.flow.taken|
  }

  /** While it waits nothing else goes on in the main thread; only the end of a step can load it. */
  lemma QueuedOrLoaded(x: Setup, s: System, a: Action)
    requires Full(x, s) && Allowed(x, s, a) && s.phase.TearingDown? && !MainMayGo(x, s)
    ensures var t := Apply(x, s, a);
      && t.phase == s.phase && t.direct == s.direct
      && if t.sched.flow.ended == s.sched.flow.ended
         then s.sched.flow.queue != [] ==> t.sched.flow.taken == s.sched.flow.taken
         else t.sched.flow.ended == s.sched.flow.ended + 1 <= |s.sched.flow.taken|
              && |t.sched.flow.taken| <= |s.sched.flow.taken| + 1
  {
    if IsQuiet(a) {
      QuietActions(x, s, a);
    } else {
      match a {
        case AskFor(i, ts) =>
          RequestHistory(x.config, s.sched, ts, i);
          RequestExtends(x.config, s.sched, ts, i);
        case CompleteNode(v) =>
          EndsOldest(x, s, v.slot);
          KindReadAtEnd(x, s, v.slot);
        case _ =>
      }
    }
  }

  lemma QueuedStep(x: Setup, s: System, a: Action, k: nat)
    requires Queued(x, s, k) && Allowed(x, s, a)
    ensures Queued(x, Apply(x, s, a), k) || JustLoaded(x, Apply(x, s, a), k)
  {
    assert ReportOk(s, TEARDOWN, k);
    ActionKeepsFull(x, s, a);
    PlaceStays(x, s, a, TEARDOWN, k);
    QueuedOrLoaded(x, s, a);
  }

  ghost predicate LoadedOnTheWay(x: Setup, s: System, k: nat) {
    exists t :: Runs.Leads(Steps(x), s, t) && JustLoaded(x, t, k)
  }

  ghost predicate OnTheWay(x: Setup, first: System, k: nat, s: System) {
    Runs.Leads(Steps(x), first, s) && (Queued(x, s, k) || LoadedOnTheWay(x, first, k))
  }

  ghost function OnTheWayFrom(x: Setup, first: System, k: nat): System -> bool {
    (s: System) => OnTheWay(x, first, k, s)
  }

  lemma OnTheWayStep(x: Setup, first: System, k: nat, s: System, a: Action, t: System)
    requires OnTheWay(x, first, k, s) && Steps(x)(s, a, t)
    ensures OnTheWay(x, first, k, t)
  {
    Runs.OneStep(Steps(x), s, a, t);
    Runs.LeadsOn(Steps(x), first, s, t);
    if Queued(x, s, k) { QueuedStep(x, s, a, k); }
  }

  /** If it is ever loaded, there is a state in which it has just been loaded. */
  lemma LoadingIsSeen(x: Setup, s: System, t: System, k: nat)
    requires Queued(x, s, k) && Runs.Leads(Steps(x), s, t) && k < |t.sched.flow.taken|
    ensures LoadedOnTheWay(x, s, k)
  {
    Runs.StaysThere(Steps(x), s);
    forall u, a, v | OnTheWay(x, s, k, u) && Steps(x)(u, a, v)
      ensures OnTheWay(x, s, k, v)
    {
      OnTheWayStep(x, s, k, u, a, v);
    }
    Runs.LeadsKeeps(Steps(x), OnTheWayFrom(x, s, k), s, t);
  }

  lemma MainGoes(x: Setup, s: System)
    requires Full(x, s) && MainMayGo(x, s)
    ensures Full(x, MainStep(x, s)) && Runs.Leads(Steps(x), s, MainStep(x, s))
  {
    ActionKeepsFull(x, s, MainThread);
    assert Next(x, s, MainThread, MainStep(x, s));
    Runs.OneStep(Steps(x), s, MainThread, MainStep(x, s));
  }

  /** Once it is loaded, the main thread notices. */
  lemma LoadingIsNoticed(x: Setup, s: System, k: nat)
    requires JustLoaded(x, s, k)
    ensures var u := MainStep(x, s);
      && Full(x, u) && Runs.Leads(Steps(x), s, u)
      && u.phase == ShuttingDown(0) && u.sched.flow.ended <= k && MainMayGo(x, u)
  {
    assert ReportOk(s, TEARDOWN, k);
    MainGoes(x, s);
  }

  lemma StopOvertakes(x: Setup, s: System, k: nat)
    requires Window(x.config, s.sched.flow) && s.phase == ShuttingDown(0) && s.sched.flow.ended <= k
    ensures Overtaken(MainStep(x, s), k)
  {
    ScheduleWindow(x.config, s.sched.flow, ControlEvent(DATAFLOW_STOP));
  }

  /** It may then schedule the first stop event at once. */
  lemma LoadedIsOvertaken(x: Setup, s: System, k: nat) returns (t: System)
    requires JustLoaded(x, s, k)
    ensures Runs.Leads(Steps(x), s, t) && Overtaken(t, k)
  {
    var u := MainStep(x, s);
    LoadingIsNoticed(x, s, k);
    MainGoes(x, u);
    StopOvertakes(x, u, k);
    t := MainStep(x, u);
    Runs.LeadsOn(Steps(x), s, u, t);
  }

  lemma WaitingIsOvertaken(x: Setup, s: System, k: nat)
    requires Full(x, s) && Tearing(s, k) && TEARDOWN !in s.direct && MayLoad(x, s, k)
    ensures MayOvertake(x, s, k)
  {
    var u := s;
    Runs.StaysThere(Steps(x), s);
    if k >= |s.sched.flow.taken| {
      var v :| Runs.Leads(Steps(x), s, v) && k < |v.sched.flow.taken|;
      LoadingIsSeen(x, s, v, k);
      u :| Runs.Leads(Steps(x), s, u) && JustLoaded(x, u, k);
    }
    var t := LoadedIsOvertaken(x, u, k);
    Runs.LeadsOn(Steps(x), s, u, t);
  }

  lemma OvertakenWasLoaded(x: Setup, s: System, t: System, k: nat)
    requires Full(x, s) && Tearing(s, k) && Runs.Leads(Steps(x), s, t) && Overtaken(t, k)
    ensures TEARDOWN !in s.direct && k < |t.sched.flow.taken|
  {
    if TEARDOWN in s.direct { DirectIsNotOvertaken(x, s, t, k); }
    PlaceIsKept(x, s, t, k);
    FullIsKept(x, s, t);
    ReportedIsLoaded(x, t, k);
  }

  lemma ReportedIsLoaded(x: Setup, s: System, k: nat)
    requires Full(x, s) && IsPlaceOf(s, TEARDOWN, k) && s.phase.ShuttingDown?
    ensures k < |s.sched.flow.taken|
  {
    assert ReportOk(s, TEARDOWN, k);
  }

  ghost function HasPlace(x: Setup, k: nat): System -> bool {
    (s: System) => Full(x, s) && IsPlaceOf(s, TEARDOWN, k)
  }

  lemma PlaceIsKept(x: Setup, s: System, t: System, k: nat)
    requires Full(x, s) && IsPlaceOf(s, TEARDOWN, k) && Runs.Leads(Steps(x), s, t)
    ensures IsPlaceOf(t, TEARDOWN, k)
  {
    forall s, a, t | HasPlace(x, k)(s) && Steps(x)(s, a, t)
      ensures HasPlace(x, k)(t)
    {
      ActionKeepsFull(x, s, a);
      PlaceStays(x, s, a, TEARDOWN, k);
    }
    Runs.LeadsKeeps(Steps(x), HasPlace(x, k), s, t);
  }

  // ---- a queued TEARDOWN can be loaded -------------------------------------------------------

  /** No step in flight is a stop event while the main thread waits for TEARDOWN. */
  lemma NoStopYet(x: Setup, s: System, k: nat)
    requires Full(x, s) && Tearing(s, k) && k >= |s.sched.flow.taken|
    ensures s.sched.flow.ended < |s.sched.flow.taken| && !StopBy(s.sched.flow, s.sched.flow.ended)
    ensures s.sched.flow.queue != [] && s.sched.stopScheduled
  {
    var f, h := s.sched.flow, History(s.sched.flow);
    forall m | 0 <= m < |f.taken|
      ensures !IsStop(f.taken[m])
    {
      assert h[m] == f.taken[m] && Fits(h[m].kind, m, |h|, Tail(s.phase));
    }
  }

  lemma {:induction false} LiveMayLoad(x: Setup, s: System, k: nat)
    requires Live(x, s) && Tearing(s, k)
    ensures MayLoad(x, s, k)
    decreases k - |s.sched.flow.taken|
  {
    Runs.StaysThere(Steps(x), s);
    if k >= |s.sched.flow.taken| {
      NoStopYet(x, s, k);
      var t := OldestCanEnd(x, s);
      assert Tearing(t, k);
      LiveMayLoad(x, t, k);
      LoadsLater(x, s, t, k);
    }
  }

  lemma LoadsLater(x: Setup, s: System, t: System, k: nat)
    requires Runs.Leads(LiveSteps(x), s, t) && MayLoad(x, t, k)
    ensures MayLoad(x, s, k)
  {
    LiveStepsAreSteps(x);
    Runs.LeadsWidens(LiveSteps(x), Steps(x), s, t);
    var u :| Runs.Leads(Steps(x), t, u) && k < |u.sched.flow.taken|;
    Runs.LeadsOn(Steps(x), s, t, u);
  }

  /**
    For any number of slots: once TEARDOWN is scheduled and as long as it has not ended, some
    continuation schedules a stop event before its end if and only if it had to wait for a slot and
    can be loaded. In runs whose requests skip at most one frame the second always holds.
  */
  lemma OvertakenExactly(x: Setup, s: System, k: nat)
    requires Full(x, s) && Tearing(s, k)
    ensures MayOvertake(x, s, k) <==> TEARDOWN !in s.direct && MayLoad(x, s, k)
    ensures Live(x, s) ==> (MayOvertake(x, s, k) <==> TEARDOWN !in s.direct)
  {
    if MayOvertake(x, s, k) {
      var t :| Runs.Leads(Steps(x), s, t) && Overtaken(t, k);
      OvertakenWasLoaded(x, s, t, k);
    }
    if TEARDOWN !in s.direct && MayLoad(x, s, k) { WaitingIsOvertaken(x, s, k); }
    if Live(x, s) { LiveMayLoad(x, s, k); }
  }
}
