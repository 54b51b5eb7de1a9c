/**
  No deferred future comes to nothing. In runs whose requests skip at most one frame, the frame that
  a source waits for has been scheduled; so when the wait is over the source gets the buffer of
  exactly that frame's slot.
*/
module Awaited {
  import opened Events
  import opened Clock
  import opened SchedulerCore
  import opened SchedulerWindow
  import opened Requests
  import opened SourceInputs
  import opened DataflowSystem
  import opened Pipeline
  import opened PipelineSteps
  import opened PipelineTheorems
  import opened Lifecycle
  import opened MovedOn
  import FrameGrid
  import SR = SourceRequests
  import R = Ring
  import N = Network
  import Runs

  predicate IsFrameOf(c: Config, h: seq<ScheduledEvent>, ts: int, k: nat) {
    k < |h| && h[k].kind == DATA && IsWithinRange(ts, h[k].timestamp, c.maxOffset)
  }

  /** A frame that matches the timestamp has been scheduled. */
  ghost predicate HasFrame(c: Config, h: seq<ScheduledEvent>, ts: int) {
    exists k: nat :: IsFrameOf(c, h, ts, k)
  }

  /** Every source that waits, waits for a frame that has been scheduled. */
  ghost predicate Expecting(c: Config, f: Flow, a: Asking)
    requires |a.states| == c.sources
  {
    forall i: nat :: i < c.sources && a.states[i].Waiting? ==> HasFrame(c, History(f), a.states[i].timestamp)
  }

  predicate KeepsStamps(h: seq<ScheduledEvent>, h': seq<ScheduledEvent>) {
    |h| <= |h'| && forall k :: 0 <= k < |h| ==> h'[k].kind == h[k].kind && h'[k].timestamp == h[k].timestamp
  }

  lemma FrameStays(c: Config, h: seq<ScheduledEvent>, h': seq<ScheduledEvent>, ts: int)
    requires KeepsStamps(h, h') && HasFrame(c, h, ts)
    ensures HasFrame(c, h', ts)
  {
    var k: nat :| IsFrameOf(c, h, ts, k);
    assert IsFrameOf(c, h', ts, k);
  }

  lemma StillExpecting(c: Config, f: Flow, a: Asking, g: Flow, b: Asking)
    requires |a.states| == c.sources == |b.states| && Expecting(c, f, a) && KeepsStamps(History(f), History(g))
    requires forall i :: 0 <= i < c.sources && b.states[i].Waiting? ==>
               b.states[i] == a.states[i] || HasFrame(c, History(g), b.states[i].timestamp)
    ensures Expecting(c, g, b)
  {
    forall i: nat | i < c.sources && b.states[i].Waiting?
      ensures HasFrame(c, History(g), b.states[i].timestamp)
    {
      if b.states[i] == a.states[i] { FrameStays(c, History(f), History(g), a.states[i].timestamp); }
    }
  }

  // ---- requests ------------------------------------------------------------------------------

  lemma ScheduledHasFrame(c: Config, f: Flow, ev: ScheduledEvent, ts: int)
    requires Window(c, f) && ev.kind == DATA && IsWithinRange(ts, ev.timestamp, c.maxOffset)
    ensures HasFrame(c, History(Schedule(c, f, ev)), ts)
  {
    ScheduleWindow(c, f, ev);
    assert IsFrameOf(c, History(Schedule(c, f, ev)), ts, |History(f)|);
  }

  /** The wait path defers only to a frame it schedules, if it skips no more than one. */
  lemma WaitHasFrame(c: Config, s: Sched, ts: int, i: nat)
    requires Window(c, s.flow) && NewTimestampWait(c, s, ts, i).1.Deferred?
    requires PaddingEnds(c, s.clock, ts) && ts <= s.clock.expected + s.clock.delta + 2 * c.maxOffset
    requires s.clock.delta > 4 * c.maxOffset && c.maxOffset >= 0
    ensures HasFrame(c, History(NewTimestampWait(c, s, ts, i).0.flow), ts)
  {
    if s.clock.IsNext(ts, c.maxOffset) {
      ScheduledHasFrame(c, s.flow, DataEvent(s.clock.expected), ts);
    } else {
      var p := SchedulePadding(c, s, i);
      ScheduleWindow(c, s.flow, PaddingEvent(s.clock.expected, i));
      ScheduledHasFrame(c, p.flow, DataEvent(p.clock.expected), ts);
    }
  }

  lemma QueuedHasFrame(c: Config, f: Flow, a: Asking, ts: int)
    requires Inputs(c, f, a) && ts > 2 * c.maxOffset && IsScheduled(c, f, ts)
    ensures HasFrame(c, History(f), ts)
  {
    var q :| 0 <= q < |f.queue| && IsWithinRange(f.queue[q].timestamp, ts, c.maxOffset);
    assert QueuedOk(c, f.queue[q], a);
    assert IsFrameOf(c, History(f), ts, |f.taken| + q);
  }

  lemma DeferredHasFrame(c: Config, s: Sched, a: Asking, ts: int, i: nat)
    requires SR.Good(c, s, a) && i < c.sources && MayAsk(c, s, a, ts, i) && c.sourceMode == WAIT_FOR_BUFFER
    requires Returns(c, s, ts) && SkipsAtMostOne(c, s.clock, ts) && Request(c, s, ts, i).1.Deferred?
    ensures HasFrame(c, History(Request(c, s, ts, i).0.flow), ts)
  {
    var s1 := SR.Asked(c, s, ts, i);
    SR.AskedGood(c, s, a, ts, i);
    if IsScheduled(c, s1.flow, ts) {
      QueuedHasFrame(c, s1.flow, Refuse(a, i, ts), ts);
    } else {
      WaitHasFrame(c, s1.(lastNew := s.lastNew[i := ts]), ts, i);
    }
  }

  lemma RequestExpects(x: Setup, s: System, i: nat, ts: int)
    requires Inv(x, s) && Allowed(x, s, AskFor(i, ts)) && x.config.sourceMode == WAIT_FOR_BUFFER
    requires SkipsAtMostOne(x.config, s.sched.clock, ts) && Expecting(x.config, s.sched.flow, s.asking)
    ensures Expecting(x.config, Asked(x, s, i, ts).sched.flow, Asked(x, s, i, ts).asking)
  {
    var t := Asked(x, s, i, ts);
    RequestHistory(x.config, s.sched, ts, i);
    AnswerHasFrame(x.config, s.sched, s.asking, ts, i);
    StillExpecting(x.config, s.sched.flow, s.asking, t.sched.flow, t.asking);
  }

  /** If the answer makes the source wait, its frame has been scheduled. */
  lemma AnswerHasFrame(c: Config, s: Sched, a: Asking, ts: int, i: nat)
    requires SR.Good(c, s, a) && i < c.sources && MayAsk(c, s, a, ts, i) && c.sourceMode == WAIT_FOR_BUFFER
    requires Returns(c, s, ts) && SkipsAtMostOne(c, s.clock, ts)
    ensures var b := Replied(c, s, a, ts, i);
      b.states[i].Waiting? ==> HasFrame(c, History(Request(c, s, ts, i).0.flow), b.states[i].timestamp)
  {
    if Replied(c, s, a, ts, i).states[i].Waiting? {
      OwnTimestamp(c, s, ts, i);
      DeferredHasFrame(c, s, a, ts, i);
    }
  }

  /** A deferred future waits for the timestamp that was asked for. */
  lemma OwnTimestamp(c: Config, s: Sched, ts: int, i: nat)
    requires Sane(c, s) && i < c.sources && Request(c, s, ts, i).1.Deferred?
    ensures Request(c, s, ts, i).1 == Deferred(ts)
  {
  }

  // ---- every run -----------------------------------------------------------------------------

  lemma ScheduledKeepsStamps(c: Config, f: Flow, ev: ScheduledEvent)
    requires Window(c, f)
    ensures KeepsStamps(History(f), History(Schedule(c, f, ev)))
  {
    ScheduleWindow(c, f, ev);
  }

  lemma MainKeepsStamps(x: Setup, s: System)
    requires Window(x.config, s.sched.flow)
    ensures KeepsStamps(History(s.sched.flow), History(MainStep(x, s).sched.flow))
    ensures MainStep(x, s).asking == s.asking
  {
    if Submits(s.phase) { ScheduledKeepsStamps(x.config, s.sched.flow, ControlEvent(NextEvent(s.phase))); }
  }

  lemma QuietWaits(x: Setup, s: System, a: Action)
    requires Inv(x, s) && Allowed(x, s, a) && IsQuiet(a)
    ensures var b := Apply(x, s, a).asking;
      && |b.states| == x.config.sources
      && forall i :: 0 <= i < x.config.sources && b.states[i].Waiting? ==> b.states[i] == s.asking.states[i]
  {
  }

  lemma ActionKeepsExpecting(x: Setup, s: System, a: Action)
    requires Inv(x, s) && Allowed(x, s, a) && x.config.sourceMode == WAIT_FOR_BUFFER
    requires Expecting(x.config, s.sched.flow, s.asking)
    requires a.AskFor? ==> SkipsAtMostOne(x.config, s.sched.clock, a.timestamp)
    ensures var t := Apply(x, s, a);
      |t.asking.states| == x.config.sources && Expecting(x.config, t.sched.flow, t.asking)
  {
    if a.AskFor? {
      RequestExpects(x, s, a.source, a.timestamp);
    } else {
      var t := Apply(x, s, a);
      if IsQuiet(a) {
        QuietActions(x, s, a);
        QuietWaits(x, s, a);
      } else {
        match a {
          case MainThread => MainKeepsStamps(x, s);
          case SetParameter(p) =>
            ScheduledKeepsStamps(x.config, s.sched.flow, ScheduledEvent(TIMESTAMP_ZERO, PARAMETER_CHANGE, [], p));
          case CompleteNode(v) => FrameGrid.EndHistory(x, s, v.slot);
        }
      }
      StillExpecting(x.config, s.sched.flow, s.asking, t.sched.flow, t.asking);
    }
  }

  lemma RunKeepsExpecting(x: Setup, states: seq<System>, actions: seq<Action>, n: nat)
    requires x.Valid() && x.config.sourceMode == WAIT_FOR_BUFFER
    requires Runs.IsStretch(PromptSteps(x), states, actions) && states[0] == InitialSystem(x) && n < |states|
    ensures Inv(x, states[n]) && Expecting(x.config, states[n].sched.flow, states[n].asking)
  {
    var inv := (s: System) => Inv(x, s) && Expecting(x.config, s.sched.flow, s.asking);
    forall s, a, t | inv(s) && PromptSteps(x)(s, a, t)
      ensures inv(t)
    {
      ActionKeepsInv(x, s, a);
      ActionKeepsExpecting(x, s, a);
    }
    InitialInv(x);
    Runs.Keeps(PromptSteps(x), inv, states, actions, n);
  }

  /**
    In every run whose requests skip at most one frame, a source that has waited long enough gets
    a buffer: that of the slot in which its own frame runs, whose step has not ended and whose
    input is open.
  */
  lemma NoFutureComesToNothing(x: Setup, states: seq<System>, actions: seq<Action>, n: nat, i: nat) returns (k: nat)
    requires x.Valid() && x.config.sourceMode == WAIT_FOR_BUFFER
    requires Runs.IsStretch(PromptSteps(x), states, actions) && states[0] == InitialSystem(x) && n < |states|
    requires i < x.config.sources == |states[n].asking.states| && states[n].asking.states[i].Waiting?
    requires Reached(x.config, states[n].sched.flow, states[n].asking.states[i].timestamp)
    ensures Shape(x.config, states[n].sched.flow)
    ensures var f, ts := states[n].sched.flow, states[n].asking.states[i].timestamp;
      && f.ended <= k < |f.taken| && IsFrameOf(x.config, f.taken, ts, k)
      && Resolve(x.config, f, ts, i).1 == SlotBuffer(R.Slot(k, x.net.n))
      && (i, R.Slot(k, x.net.n)) !in f.setInput
  {
    var s := states[n];
    RunKeepsExpecting(x, states, actions, n);
    k :| IsFrameOf(x.config, History(s.sched.flow), s.asking.states[i].timestamp, k);
    SR.DeferredFindsItsFrame(x.config, s.sched, s.asking, i, k);
  }
}
