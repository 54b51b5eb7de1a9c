/**
  What a task calls on its component for the event of its slot, and that in every run this is the
  right call for the right event.
*/
module TaskCalls {
  import opened Events
  import opened Network
  import opened SchedulerCore
  import opened SchedulerWindow
  import opened DataflowSystem
  import opened Pipeline
  import opened PipelineTheorems
  import opened Lifecycle
  import opened Progress
  import opened TimeStepBuffers
  import R = Ring

  datatype Call = Configure | Start | ProcessTimePoint | ProcessTimePointWithInvalid | Stop | Teardown | NoCall

  /** A component looks at its inputs only for data; a parameter change concerns one component. */
  function ComponentCall(event: SlotEvent, instance: string, allInputValid: bool): Call {
    match event.kind
    case CONFIGURE => Configure
    case START => Start
    case DATA => if allInputValid then ProcessTimePoint else ProcessTimePointWithInvalid
    case PARAMETER_CHANGE => if event.changedPattern == instance then Configure else NoCall
    case STOP => Stop
    case TEARDOWN => Teardown
    case _ => NoCall
  }

  /** A source component's frame has been computed by its own thread; other events are its task's calls. */
  function SourceCall(event: SlotEvent, instance: string): Call {
    if event.kind == DATA then NoCall else ComponentCall(event, instance, false)
  }

  predicate Reconfigures(ev: ScheduledEvent, instance: string) {
    ev.kind == CONFIGURE || (ev.kind == PARAMETER_CHANGE && ev.changedPattern == instance)
  }

  /** The task's current step. */
  function StepOfTask(x: Setup, s: System, j: nat, t: Task): nat {
    R.StepOf(j, s.counts.Finished(Step(j, t)), x.net.n)
  }

  /** No event that was taken has the invalid kind, so the tasks' assertion against it holds. */
  lemma TakenIsValid(s: System, k: nat)
    requires Script(s) && k < |s.sched.flow.taken|
    ensures s.sched.flow.taken[k].kind != INVALID
  {
    var h := History(s.sched.flow);
    assert h[k] == s.sched.flow.taken[k];
    assert Fits(h[k].kind, k, |h|, Tail(s.phase));
  }

  /**
    The call of step `k`: with all inputs valid exactly when the step is a frame and each input was
    marked during it, and for each control event the call that event asks for; a parameter change
    reconfigures exactly the component it names.
  */
  ghost predicate IsRightCall(x: Setup, s: System, t: Task, k: nat, call: Call)
    requires t.Named? && k < |s.sched.flow.taken|
  {
    var ev := s.sched.flow.taken[k];
    && (call == ProcessTimePoint <==> ev.kind == DATA && x.Inputs(t) <= s.Marks(k))
    && (call == ProcessTimePointWithInvalid <==> ev.kind == DATA && !(x.Inputs(t) <= s.Marks(k)))
    && (call == Start <==> ev.kind == START)
    && (call == Stop <==> ev.kind == STOP)
    && (call == Teardown <==> ev.kind == TEARDOWN)
    && (call == Configure <==> Reconfigures(ev, t.id))
  }

  /** In every reachable state, a component that runs is called for the event of its own step. */
  lemma ComponentGetsItsCall(x: Setup, s: System, j: nat, t: Task)
    requires Full(x, s) && j < x.net.n && t in x.net.tasks && t !in x.net.sources
    requires s.counts.Running(Step(j, t))
    ensures var f, k := s.sched.flow, StepOfTask(x, s, j, t);
      && f.ended <= k < |f.taken| && f.slots[j].kind == f.taken[k].kind != INVALID
      && IsRightCall(x, s, t, k, ComponentCall(f.slots[j], t.id, AllInputsValid(x, f, j, t)))
  {
    NoStaleData(x, s, j, t);
    TakenIsValid(s, StepOfTask(x, s, j, t));
  }

  /** The call of a source's task at step `k`. */
  ghost predicate IsRightSourceCall(s: System, t: Task, k: nat, call: Call)
    requires t.Named? && k < |s.sched.flow.taken|
  {
    var ev := s.sched.flow.taken[k];
    && (call == NoCall <==> ev.kind == DATA || IsStop(ev)
                            || (ev.kind == PARAMETER_CHANGE && ev.changedPattern != t.id) || ev.kind == DATAFLOW_NO_OP)
    && (call == Start <==> ev.kind == START)
    && (call == Stop <==> ev.kind == STOP)
    && (call == Teardown <==> ev.kind == TEARDOWN)
    && (call == Configure <==> Reconfigures(ev, t.id))
  }

  /** A source's task, once its wait is over, makes the call for the event of its own step. */
  lemma SourceGetsItsCall(x: Setup, s: System, j: nat, i: nat)
    requires Full(x, s) && j < x.net.n && i < |x.net.sources| && s.counts.Running(Step(j, x.net.sources[i]))
    requires (i, j) in s.sched.flow.promises
    ensures var f, t := s.sched.flow, x.net.sources[i];
      var k := StepOfTask(x, s, j, t);
      && t.Named? && f.ended <= k < |f.taken| && f.slots[j].kind == f.taken[k].kind != INVALID
      && IsRightSourceCall(s, t, k, SourceCall(f.slots[j], t.id))
  {
    var t := x.net.sources[i];
    assert t in x.net.tasks;
    RunsItsEvent(x, s, j, t);
    TakenIsValid(s, StepOfTask(x, s, j, t));
  }

  /**
    What a component's task does: it asks the buffer of its slot for the event and, for a frame,
    whether all inputs are valid. While the task runs, that makes the call its own step asks for.
  */
  method ProcessComponent(
    buffer: TimeStepBuffer, instance: string, inputs: seq<nat>, ghost x: Setup, ghost s: System)
    returns (call: Call)
    requires Full(x, s) && buffer.Represents(x.config, s.sched.flow)
    requires Named(instance) in x.net.tasks && Named(instance) !in x.net.sources
    requires s.counts.Running(Step(buffer.slot, Named(instance)))
    requires forall c :: c in inputs <==> c in x.Inputs(Named(instance))
    requires forall k :: 0 <= k < |inputs| ==> inputs[k] < buffer.valid.Length
    ensures StepOfTask(x, s, buffer.slot, Named(instance)) < |s.sched.flow.taken|
    ensures IsRightCall(x, s, Named(instance), StepOfTask(x, s, buffer.slot, Named(instance)), call)
  {
    ComponentGetsItsCall(x, s, buffer.slot, Named(instance));
    call := NoCall;
    match buffer.kind {
      case CONFIGURE => call := Configure;
      case START => call := Start;
      case DATA =>
        var valid := buffer.IsAllInputValid(x.config, s.sched.flow, inputs);
        ListedInputs(x, s.sched.flow, buffer.slot, Named(instance), inputs);
        if valid { call := ProcessTimePoint; } else { call := ProcessTimePointWithInvalid; }
      case PARAMETER_CHANGE =>
        if buffer.changedPattern == instance { call := Configure; }
      case STOP => call := Stop;
      case TEARDOWN => call := Teardown;
      case DATAFLOW_NO_OP =>
      case DATAFLOW_STOP =>
      case INVALID => assert false;
    }
    assert call == ComponentCall(s.sched.flow.slots[buffer.slot], instance,
                                 AllInputsValid(x, s.sched.flow, buffer.slot, Named(instance)));
  }

  /** The list of a component's input cells stands for the set. */
  lemma ListedInputs(x: Setup, f: Flow, j: nat, t: Task, inputs: seq<nat>)
    requires forall c :: c in inputs <==> c in x.Inputs(t)
    ensures AllInputsValid(x, f, j, t) <==> forall k :: 0 <= k < |inputs| ==> (inputs[k], j) in f.valid
  {
    forall k | 0 <= k < |inputs|
      ensures inputs[k] in x.Inputs(t)
    {
      assert inputs[k] in inputs;
    }
  }
}
