/**
  The frames a dataflow schedules when its sources wait for buffers: they form the grid that the
  first request and the frame distance span, and each is scheduled exactly once.
*/
module FrameGrid {
  import opened Events
  import opened Clock
  import opened SchedulerCore
  import opened SchedulerWindow
  import opened Requests
  import opened SourceInputs
  import opened DataflowSystem
  import opened Pipeline
  import opened PipelineSteps
  import opened PipelineTheorems
  import opened Lifecycle
  import SR = SourceRequests
  import Runs

  /** The timestamps of the frames among the events. */
  function Stamps(h: seq<ScheduledEvent>): seq<int> {
    if h == [] then []
    else
      var last, before := h[|h| - 1], Stamps(h[..|h| - 1]);
      if last.kind == DATA then before + [last.timestamp] else before
  }

  function FrameTime(first: int, delta: int, k: nat): int {
    if k == 0 then first else FrameTime(first, delta, k - 1) + delta
  }

  function Grid(first: int, delta: int, count: nat): seq<int> {
    if count == 0 then [] else Grid(first, delta, count - 1) + [FrameTime(first, delta, count - 1)]
  }

  lemma {:induction false} FrameTimeIsLinear(first: int, delta: int, k: nat)
    ensures FrameTime(first, delta, k) == first + k * delta
  {
    if k > 0 {
      FrameTimeIsLinear(first, delta, k - 1);
      assert k * delta == (k - 1) * delta + delta;
    }
  }

  lemma {:induction false} GridLength(first: int, delta: int, count: nat)
    ensures |Grid(first, delta, count)| == count
  {
    if count > 0 { GridLength(first, delta, count - 1); }
  }

  lemma {:induction false} GridAt(first: int, delta: int, count: nat, k: nat)
    requires k < count == |Grid(first, delta, count)|
    ensures Grid(first, delta, count)[k] == FrameTime(first, delta, k)
  {
    GridLength(first, delta, count - 1);
    if k < count - 1 { GridAt(first, delta, count - 1, k); }
  }

  /** The frames scheduled so far are the first points of the grid, and the clock expects the next. */
  predicate OnGrid(c: Config, s: Sched) {
    c.sourceMode == WAIT_FOR_BUFFER ==>
      var stamps := Stamps(History(s.flow));
      if s.clock.initial == TIMESTAMP_ZERO then stamps == []
      else
        && stamps == Grid(s.clock.initial, s.clock.delta, s.clock.step)
        && s.clock.expected == FrameTime(s.clock.initial, s.clock.delta, s.clock.step)
  }

  lemma StampsAppend(h: seq<ScheduledEvent>, ev: ScheduledEvent)
    ensures Stamps(h + [ev]) == Stamps(h) + if ev.kind == DATA then [ev.timestamp] else []
  {
    assert (h + [ev])[..|h|] == h;
  }

  lemma {:induction false} StampsSame(h: seq<ScheduledEvent>, h': seq<ScheduledEvent>)
    requires SR.SameStamps(h, h')
    ensures Stamps(h) == Stamps(h')
  {
    if h != [] { StampsSame(h[..|h| - 1], h'[..|h'| - 1]); }
  }

  lemma ScheduleStamps(c: Config, f: Flow, ev: ScheduledEvent)
    requires Window(c, f)
    ensures Window(c, Schedule(c, f, ev))
    ensures Stamps(History(Schedule(c, f, ev)))
         == Stamps(History(f)) + if ev.kind == DATA then [ev.timestamp] else []
  {
    ScheduleWindow(c, f, ev);
    StampsAppend(History(f), ev);
  }

  /** Scheduling the expected frame and advancing the clock takes one more point of the grid. */
  lemma FrameOnGrid(c: Config, s: Sched, ev: ScheduledEvent)
    requires Window(c, s.flow) && OnGrid(c, s)
    requires c.sourceMode == WAIT_FOR_BUFFER && s.clock.initial != TIMESTAMP_ZERO
    requires ev.kind == DATA && ev.timestamp == s.clock.expected
    ensures var t := s.(flow := Schedule(c, s.flow, ev), clock := s.clock.Advance());
      Window(c, t.flow) && OnGrid(c, t)
  {
    ScheduleStamps(c, s.flow, ev);
  }

  lemma NewRequestOnGrid(c: Config, s: Sched, ts: int, i: nat)
    requires Window(c, s.flow) && OnGrid(c, s)
    requires c.sourceMode == WAIT_FOR_BUFFER && s.clock.initial != TIMESTAMP_ZERO
    ensures OnGrid(c, SR.NewRequest(c, s, ts, i).0)
  {
    if s.clock.IsNext(ts, c.maxOffset) {
      FrameOnGrid(c, s, DataEvent(s.clock.expected));
    } else if s.clock.IsFurtherAhead(ts, c.maxOffset) {
      var p := SchedulePadding(c, s, i);
      FrameOnGrid(c, s, PaddingEvent(s.clock.expected, i));
      FrameOnGrid(c, p, DataEvent(p.clock.expected));
      assert SR.NewRequest(c, s, ts, i).0 == s || SR.NewRequest(c, s, ts, i).0 == ScheduleNext(c, p);
    }
  }

  lemma RequestOnGrid(c: Config, s: Sched, ts: int, i: nat)
    requires Sane(c, s) && Window(c, s.flow) && c.missingMode == WAIT_FOR_EVENT && i < c.sources
    requires ts > 2 * c.maxOffset && OnGrid(c, s)
    ensures OnGrid(c, Request(c, s, ts, i).0)
  {
    if c.sourceMode == WAIT_FOR_BUFFER && !IsInvalidNext(c, s, ts, i) {
      var s1 := SR.Asked(c, s, ts, i);
      CancelKeepsWindow(c, s.flow, ts, i);
      AskedOnGrid(c, s, ts, i);
      var j := FindRunning(c, s1.flow, ts, 0);
      if j < 0 && !IsScheduled(c, s1.flow, ts) {
        NewRequestOnGrid(c, s1.(lastNew := s.lastNew[i := ts]), ts, i);
      }
    }
  }

  /** Setting the clock and marking the queue schedules nothing. */
  lemma AskedOnGrid(c: Config, s: Sched, ts: int, i: nat)
    requires Shape(c, s.flow) && OnGrid(c, s) && ts > 2 * c.maxOffset >= 0
    ensures OnGrid(c, SR.Asked(c, s, ts, i)) && SR.Asked(c, s, ts, i).clock.initial != TIMESTAMP_ZERO
  {
    StampsSame(History(s.flow), History(SR.Asked(c, s, ts, i).flow));
  }

  /** An action that schedules no frame leaves the grid alone. */
  lemma ControlOnGrid(c: Config, s: Sched, ev: ScheduledEvent)
    requires Window(c, s.flow) && OnGrid(c, s) && ev.kind != DATA
    ensures OnGrid(c, s.(flow := Schedule(c, s.flow, ev)))
  {
    ScheduleStamps(c, s.flow, ev);
  }

  lemma MainOnGrid(x: Setup, s: System)
    requires Window(x.config, s.sched.flow) && OnGrid(x.config, s.sched)
    ensures OnGrid(x.config, MainStep(x, s).sched)
  {
    if Submits(s.phase) { ControlOnGrid(x.config, s.sched, ControlEvent(NextEvent(s.phase))); }
  }

  /** Ending a step schedules nothing. */
  lemma EndHistory(x: Setup, s: System, j: nat)
    requires Inv(x, s) && j < x.net.n && s.counts.Running(Network.Step(j, Network.TimeStepEnd))
    ensures History(TimeStepEnded(x.config, s.sched, j).flow) == History(s.sched.flow)
  {
    EndsOldest(x, s, j);
    FreeWindow(x.config, s.sched.flow);
  }

  lemma QuietClock(x: Setup, s: System, a: Action)
    requires Inv(x, s) && Allowed(x, s, a) && IsQuiet(a)
    ensures Apply(x, s, a).sched.clock == s.sched.clock && Apply(x, s, a).sched.lastNew == s.sched.lastNew
    ensures Apply(x, s, a).asking.last == s.asking.last
    ensures s.sched.flow.setInput <= Apply(x, s, a).sched.flow.setInput
  {
  }

  lemma ActionKeepsGrid(x: Setup, s: System, a: Action)
    requires Inv(x, s) && Allowed(x, s, a) && OnGrid(x.config, s.sched)
    ensures OnGrid(x.config, Apply(x, s, a).sched)
  {
    if IsQuiet(a) {
      QuietActions(x, s, a);
      QuietClock(x, s, a);
    } else {
      match a {
        case AskFor(i, ts) => RequestOnGrid(x.config, s.sched, ts, i);
        case MainThread => MainOnGrid(x, s);
        case SetParameter(p) =>
          ControlOnGrid(x.config, s.sched, ScheduledEvent(TIMESTAMP_ZERO, PARAMETER_CHANGE, [], p));
        case CompleteNode(v) => EndHistory(x, s, v.slot);
      }
    }
  }

  /**
    In every run whose sources wait for buffers, the k-th frame scheduled carries the first
    request's timestamp plus k frame distances; so frames come in order and none comes twice.
  */
  lemma FramesFormGrid(x: Setup, states: seq<System>, actions: seq<Action>, i: nat, k: nat)
    requires IsRun(x, states, actions) && i < |states| && x.config.sourceMode == WAIT_FOR_BUFFER
    requires k < |Stamps(History(states[i].sched.flow))|
    ensures var s := states[i].sched;
      && s.clock.initial != TIMESTAMP_ZERO
      && |Stamps(History(s.flow))| == s.clock.step
      && Stamps(History(s.flow))[k] == s.clock.initial + k * x.delta
      && s.clock.expected == s.clock.initial + s.clock.step * x.delta
  {
    var s := states[i].sched;
    RunKeepsGrid(x, states, actions, i);
    RunKeepsDelta(x, states, actions, i);
    GridLength(s.clock.initial, s.clock.delta, s.clock.step);
    GridAt(s.clock.initial, s.clock.delta, s.clock.step, k);
    FrameTimeIsLinear(s.clock.initial, s.clock.delta, k);
    FrameTimeIsLinear(s.clock.initial, s.clock.delta, s.clock.step);
  }

  lemma RunKeepsGrid(x: Setup, states: seq<System>, actions: seq<Action>, i: nat)
    requires IsRun(x, states, actions) && i < |states|
    ensures OnGrid(x.config, states[i].sched)
  {
    var inv := (s: System) => Inv(x, s) && OnGrid(x.config, s.sched);
    forall s, a, t | inv(s) && Steps(x)(s, a, t)
      ensures inv(t)
    {
      ActionKeepsInv(x, s, a);
      ActionKeepsGrid(x, s, a);
    }
    InitialInv(x);
    Runs.Keeps(Steps(x), inv, states, actions, i);
  }

  lemma RequestKeepsDelta(c: Config, s: Sched, ts: int, i: nat)
    requires Sane(c, s) && i < c.sources
    ensures Request(c, s, ts, i).0.clock.delta == s.clock.delta
  {
  }

  lemma ActionKeepsDelta(x: Setup, s: System, a: Action)
    requires x.Valid() && Sane(x.config, s.sched) && AskingShape(x.config, s.asking) && Allowed(x, s, a)
    ensures Apply(x, s, a).sched.clock.delta == s.sched.clock.delta
  {
    if a.AskFor? { RequestKeepsDelta(x.config, s.sched, a.timestamp, a.source); }
  }

  /** The distance of frames is the one the dataflow was set up with. */
  lemma RunKeepsDelta(x: Setup, states: seq<System>, actions: seq<Action>, i: nat)
    requires IsRun(x, states, actions) && i < |states|
    ensures states[i].sched.clock.delta == x.delta
  {
    var inv := (s: System) => Inv(x, s) && s.sched.clock.delta == x.delta;
    forall s, a, t | inv(s) && Steps(x)(s, a, t)
      ensures inv(t)
    {
      ActionKeepsInv(x, s, a);
      ActionKeepsDelta(x, s, a);
    }
    InitialInv(x);
    Runs.Keeps(Steps(x), inv, states, actions, i);
  }
}
