/**
  Parameter changes reach the component they name. The module's main results are that the parameter
  changes among the events are, in order, exactly those that were set, and that the step of each
  reconfigures the component it names and no other.
*/
module ParameterChanges {
  import opened Events
  import opened Network
  import opened SchedulerCore
  import opened SchedulerWindow
  import opened Requests
  import opened DataflowSystem
  import opened Pipeline
  import opened PipelineSteps
  import opened PipelineTheorems
  import opened Lifecycle
  import opened Progress
  import opened TaskCalls
  import opened SourceInputs
  import Answers
  import FrameGrid
  import Runs
  import SR = SourceRequests
  import Shutdown

  /** The components that the parameter changes among the events name. */
  function Changes(h: seq<ScheduledEvent>): seq<string> {
    if h == [] then []
    else
      var last, before := h[|h| - 1], Changes(h[..|h| - 1]);
      if last.kind == PARAMETER_CHANGE then before + [last.changedPattern] else before
  }

  /** The components whose parameters were set. */
  function ParametersSet(actions: seq<Action>): seq<string> {
    if actions == [] then []
    else
      var last, before := actions[|actions| - 1], ParametersSet(actions[..|actions| - 1]);
      if last.SetParameter? then before + [last.pattern] else before
  }

  // ---- what an action does to the history ----------------------------------------------------

  /** Events keep their place, their kind, their timestamp and the component they name. */
  predicate KeepsEvents(h: seq<ScheduledEvent>, h': seq<ScheduledEvent>) {
    && |h| <= |h'|
    && forall k :: 0 <= k < |h| ==> h'[k].(invalidSources := h[k].invalidSources) == h[k]
  }

  predicate AddsNoChange(h: seq<ScheduledEvent>, h': seq<ScheduledEvent>) {
    KeepsEvents(h, h') && forall k :: |h| <= k < |h'| ==> h'[k].kind != PARAMETER_CHANGE
  }

  lemma {:induction false} SameChanges(h: seq<ScheduledEvent>, h': seq<ScheduledEvent>)
    requires AddsNoChange(h, h')
    ensures Changes(h') == Changes(h)
    decreases |h'|
  {
    if |h'| > |h| {
      SameChanges(h, h'[..|h'| - 1]);
    } else if h != [] {
      SameChanges(h[..|h| - 1], h'[..|h'| - 1]);
    }
  }

  lemma ScheduledAddsNoChange(c: Config, f: Flow, ev: ScheduledEvent)
    requires Window(c, f) && ev.kind != PARAMETER_CHANGE
    ensures AddsNoChange(History(f), History(Schedule(c, f, ev)))
  {
    ScheduleWindow(c, f, ev);
  }

  lemma MainAddsNoChange(x: Setup, s: System)
    requires Window(x.config, s.sched.flow)
    ensures AddsNoChange(History(s.sched.flow), History(MainStep(x, s).sched.flow))
  {
    if Submits(s.phase) { ScheduledAddsNoChange(x.config, s.sched.flow, ControlEvent(NextEvent(s.phase))); }
  }

  lemma KeptKeepsEvents(c: Config, s: Sched, ts: int, i: nat)
    requires i < |s.lastNew|
    ensures KeepsEvents(History(s.flow), Answers.Kept(c, s, ts, i))
  {
  }

  lemma FramesAreNoChange(c: Config, s: Sched, ts: int, i: nat)
    requires i < |s.lastNew|
    ensures forall k :: 0 <= k < |Answers.Added(c, s, ts, i)| ==> Answers.Added(c, s, ts, i)[k].kind == DATA
  {
  }

  lemma AppendAddsNoChange(h: seq<ScheduledEvent>, kept: seq<ScheduledEvent>, added: seq<ScheduledEvent>)
    requires KeepsEvents(h, kept) && |kept| == |h|
    requires forall k :: 0 <= k < |added| ==> added[k].kind == DATA
    ensures AddsNoChange(h, kept + added)
  {
  }

  lemma RequestAddsNoChange(x: Setup, s: System, i: nat, ts: int)
    requires SR.Good(x.config, s.sched, s.asking) && i < x.config.sources && MayAsk(x.config, s.sched, s.asking, ts, i)
    ensures AddsNoChange(History(s.sched.flow), History(Asked(x, s, i, ts).sched.flow))
  {
    var c := x.config;
    Answers.RequestAdds(c, s.sched, s.asking, ts, i);
    KeptKeepsEvents(c, s.sched, ts, i);
    FramesAreNoChange(c, s.sched, ts, i);
    AppendAddsNoChange(History(s.sched.flow), Answers.Kept(c, s.sched, ts, i), Answers.Added(c, s.sched, ts, i));
  }

  /** Setting a parameter adds one event, which names the component; no other action adds one. */
  lemma ActionAdds(x: Setup, s: System, a: Action)
    requires Inv(x, s) && Allowed(x, s, a)
    ensures var h, h' := History(s.sched.flow), History(Apply(x, s, a).sched.flow);
      if a.SetParameter? then h' == h + [ScheduledEvent(TIMESTAMP_ZERO, PARAMETER_CHANGE, [], a.pattern)]
      else AddsNoChange(h, h')
  {
    if IsQuiet(a) {
      QuietActions(x, s, a);
    } else {
      match a {
        case AskFor(i, ts) => RequestAddsNoChange(x, s, i, ts);
        case MainThread => MainAddsNoChange(x, s);
        case SetParameter(p) =>
          ScheduleWindow(x.config, s.sched.flow, ScheduledEvent(TIMESTAMP_ZERO, PARAMETER_CHANGE, [], p));
        case CompleteNode(v) => FrameGrid.EndHistory(x, s, v.slot);
      }
    }
  }

  // ---- every run -----------------------------------------------------------------------------

  lemma StepKeepsEvents(x: Setup, states: seq<System>, actions: seq<Action>, m: nat)
    requires IsRun(x, states, actions) && m < |actions|
    ensures var h, h' := History(states[m].sched.flow), History(states[m + 1].sched.flow);
      && KeepsEvents(h, h')
      && (actions[m].SetParameter? ==>
            h' == h + [ScheduledEvent(TIMESTAMP_ZERO, PARAMETER_CHANGE, [], actions[m].pattern)])
      && (!actions[m].SetParameter? ==> AddsNoChange(h, h'))
  {
    RunKeepsInv(x, states, actions, m);
    assert Runs.StepAt(Steps(x), states, actions, m);
    ActionAdds(x, states[m], actions[m]);
  }

  /** In every run the parameter changes among the events are exactly those set, in their order. */
  lemma {:induction false} ChangesAreSet(x: Setup, states: seq<System>, actions: seq<Action>, m: nat)
    requires IsRun(x, states, actions) && m < |states|
    ensures Changes(History(states[m].sched.flow)) == ParametersSet(actions[..m])
  {
    if m > 0 {
      ChangesAreSet(x, states, actions, m - 1);
      StepKeepsEvents(x, states, actions, m - 1);
      var h, h' := History(states[m - 1].sched.flow), History(states[m].sched.flow);
      assert actions[..m][..m - 1] == actions[..m - 1];
      if actions[m - 1].SetParameter? {
        assert h'[..|h|] == h;
      } else {
        SameChanges(h, h');
      }
    }
  }

  lemma {:induction false} EventsStay(x: Setup, states: seq<System>, actions: seq<Action>, l: nat, m: nat)
    requires IsRun(x, states, actions) && l <= m < |states|
    ensures KeepsEvents(History(states[l].sched.flow), History(states[m].sched.flow))
    decreases m - l
  {
    if l < m {
      EventsStay(x, states, actions, l, m - 1);
      StepKeepsEvents(x, states, actions, m - 1);
    }
  }

  /** The event at this place changes a parameter of the component. */
  predicate IsChangeOf(h: seq<ScheduledEvent>, k: nat, p: string) {
    k < |h| && h[k].kind == PARAMETER_CHANGE && h[k].changedPattern == p
  }

  lemma ChangeIsKept(x: Setup, states: seq<System>, actions: seq<Action>, l: nat, m: nat)
    requires IsRun(x, states, actions) && l < m < |states| && actions[l].SetParameter?
    ensures IsChangeOf(History(states[m].sched.flow), |History(states[l].sched.flow)|, actions[l].pattern)
  {
    StepKeepsEvents(x, states, actions, l);
    EventsStay(x, states, actions, l + 1, m);
  }

  /**
    Once a parameter is set, the event next in the history changes it for good; whenever a task works
    on that event's step, it reconfigures its component if that is the one named, and else calls nothing.
  */
  lemma ChangeReachesItsComponent(
    x: Setup, states: seq<System>, actions: seq<Action>, l: nat, m: nat, j: nat, t: Task)
    requires IsRun(x, states, actions) && l < m < |states| && actions[l].SetParameter?
    requires j < x.net.n && t in x.net.tasks && t !in x.net.sources && states[m].counts.Running(Step(j, t))
    requires StepOfTask(x, states[m], j, t) == |History(states[l].sched.flow)|
    ensures |states[m].sched.flow.slots| == x.net.n
    ensures var call := ComponentCall(states[m].sched.flow.slots[j], t.id,
                                      AllInputsValid(x, states[m].sched.flow, j, t));
      call == if t.id == actions[l].pattern then Configure else NoCall
  {
    var s, k := states[m], |History(states[l].sched.flow)|;
    Shutdown.RunKeepsFull(x, states, actions, m);
    ChangeIsKept(x, states, actions, l, m);
    ComponentGetsItsCall(x, s, j, t);
    assert History(s.sched.flow)[k] == s.sched.flow.taken[k];
  }

  /** The same for the task of a source, once its wait is over. */
  lemma ChangeReachesItsSource(
    x: Setup, states: seq<System>, actions: seq<Action>, l: nat, m: nat, j: nat, i: nat)
    requires IsRun(x, states, actions) && l < m < |states| && actions[l].SetParameter?
    requires j < x.net.n && i < |x.net.sources| && states[m].counts.Running(Step(j, x.net.sources[i]))
    requires (i, j) in states[m].sched.flow.promises
    requires StepOfTask(x, states[m], j, x.net.sources[i]) == |History(states[l].sched.flow)|
    ensures |states[m].sched.flow.slots| == x.net.n && x.net.sources[i].Named?
    ensures var id := x.net.sources[i].id;
      SourceCall(states[m].sched.flow.slots[j], id) == if id == actions[l].pattern then Configure else NoCall
  {
    var s, k := states[m], |History(states[l].sched.flow)|;
    Shutdown.RunKeepsFull(x, states, actions, m);
    ChangeIsKept(x, states, actions, l, m);
    SourceGetsItsCall(x, s, j, i);
    assert History(s.sched.flow)[k] == s.sched.flow.taken[k];
  }
}
