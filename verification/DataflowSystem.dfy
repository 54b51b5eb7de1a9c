/**
  The whole running dataflow of one time domain as one state machine: the scheduler, the sources,
  the task network and the thread that starts and stops it. Each action is one atomic step; any
  interleaving of allowed actions is a run.
*/
module DataflowSystem {
  import opened Events
  import opened Network
  import opened Marking
  import opened SchedulerCore
  import opened Requests
  import opened SourceInputs
  import R = Ring

  /** How far `start()` and `stop()` have come; `sent` counts the final stop events. */
  datatype Phase =
    | NotStarted | Configuring | Starting | Started | Stopping | TearingDown | ShuttingDown(sent: nat)

  /**
    `cells` names the task that writes each output cell, `inputs` the cells each task reads.
  */
  datatype Setup = Setup(net: Network, config: Config, delta: int, cells: seq<Task>, inputs: map<Task, set<nat>>)
  {
    ghost predicate Valid() {
      && net.WellFormed()
      && config.Valid()
      && config.slots == net.n
      && config.sources == |net.sources|
      && config.missingMode == WAIT_FOR_EVENT
      && delta > 4 * config.maxOffset
      && (forall c :: 0 <= c < |cells| ==> cells[c] in net.tasks)
      && (forall t, c: nat {:trigger c in Inputs(t)} :: c in Inputs(t) ==> c < |cells| && (cells[c], t) in net.edges)
    }

    function Inputs(t: Task): set<nat> { if t in inputs then inputs[t] else {} }
  }

  /**
    `log` lists, for each task, the slot events its executions saw; `marks` the cells marked valid
    during each step; `direct` the control events that took a slot when they were scheduled.
  */
  datatype System = System(
    sched: Sched,
    asking: Asking,
    counts: Counts,
    phase: Phase,
    log: map<Task, seq<SlotEvent>>,
    marks: map<nat, set<nat>>,
    direct: set<EventType>)
  {
    function Log(t: Task): seq<SlotEvent> { if t in log then log[t] else [] }

    function Marks(k: nat): set<nat> { if k in marks then marks[k] else {} }
  }

  function InitialSystem(x: Setup): System
    requires x.config.Valid()
  {
    System(Start(x.config, x.delta), InitialAsking(x.config), INITIAL, NotStarted, map[], map[], {})
  }

  datatype Action =
    | BeginNode(node: Node)
    | CompleteNode(node: Node)
    | AskFor(source: nat, timestamp: int)
    | Awake(source: nat)
    | Deliver(source: nat)
    | WriteCell(slot: nat, cell: nat, isValid: bool)
    | MainThread
    | SetParameter(pattern: string)

  predicate IsStarted(p: Phase) {
    p.Started? || p.Stopping? || p.TearingDown? || p.ShuttingDown?
  }

  /** The components' start methods run, and their threads may ask, as soon as START has a slot. */
  predicate StartLoaded(f: Flow) {
    exists k :: 0 <= k < |f.taken| && f.taken[k].kind == START
  }

  /** The control event the main thread schedules next, once the previous one is reported done. */
  predicate MainMayGo(x: Setup, s: System) {
    match s.phase
    case Configuring => CONFIGURE in s.sched.signals
    case Starting => START in s.sched.signals
    case Stopping => STOP in s.sched.signals
    case TearingDown => TEARDOWN in s.sched.signals
    case ShuttingDown(k) => k < x.config.slots
    case _ => true
  }

  /** The task currently writes its output cells for this slot. */
  predicate Writes(x: Setup, s: System, slot: nat, t: Task)
    requires |s.asking.states| == |x.net.sources|
  {
    if t in x.net.sources
    then exists i :: 0 <= i < |x.net.sources| && x.net.sources[i] == t && s.asking.states[i] == Holding(slot)
    else s.counts.Running(Step(slot, t)) && slot < |s.sched.flow.slots| && s.sched.flow.slots[slot].kind == DATA
  }

  /** A source's task waits for its slot's promise. */
  predicate WaitIsOver(x: Setup, s: System, v: Node) {
    v.Step? ==>
      forall i: nat :: i < |x.net.sources| && x.net.sources[i] == v.task ==> (i, v.slot) in s.sched.flow.promises
  }

  ghost predicate Allowed(x: Setup, s: System, a: Action)
    requires x.Valid() && Sane(x.config, s.sched) && AskingShape(x.config, s.asking)
  {
    match a
    case BeginNode(v) => Enabled(x.net, s.counts, v)
    case CompleteNode(v) => IsNode(x.net, v) && s.counts.Running(v) && WaitIsOver(x, s, v)
    case AskFor(i, ts) =>
      && StartLoaded(s.sched.flow) && i < x.config.sources
      && MayAsk(x.config, s.sched, s.asking, ts, i) && Returns(x.config, s.sched, ts)
    case Awake(i) =>
      i < x.config.sources && s.asking.states[i].Waiting?
      && Reached(x.config, s.sched.flow, s.asking.states[i].timestamp)
    case Deliver(i) => i < x.config.sources && s.asking.states[i].Holding?
    case WriteCell(j, c, _) => j < x.net.n && c < |x.cells| && Writes(x, s, j, x.cells[c])
    case MainThread => MainMayGo(x, s)
    case SetParameter(_) => s.phase == Started
  }

  /** The step a slot is on. */
  function CurrentStep(x: Setup, s: System, slot: nat): nat {
    R.StepOf(slot, s.counts.Finished(Step(slot, TimeStepEnd)), x.net.n)
  }

  /** In the other phases the main thread only waits for a report. */
  predicate Submits(p: Phase) { !p.Starting? && !p.TearingDown? }

  function NextEvent(p: Phase): EventType
    requires Submits(p)
  {
    match p
    case NotStarted => CONFIGURE
    case Configuring => START
    case Started => STOP
    case Stopping => TEARDOWN
    case ShuttingDown(_) => DATAFLOW_STOP
  }

  function NextPhase(p: Phase): Phase {
    match p
    case NotStarted => Configuring
    case Configuring => Starting
    case Starting => Started
    case Started => Stopping
    case Stopping => TearingDown
    case TearingDown => ShuttingDown(0)
    case ShuttingDown(k) => ShuttingDown(k + 1)
  }

  function Submit(x: Setup, s: System, kind: EventType, next: Phase): System
    requires Shape(x.config, s.sched.flow)
  {
    s.(sched := ScheduleControl(x.config, s.sched, kind),
       direct := if s.sched.flow.free > 0 then s.direct + {kind} else s.direct,
       phase := next)
  }

  function MainStep(x: Setup, s: System): System
    requires Shape(x.config, s.sched.flow)
  {
    if Submits(s.phase) then Submit(x, s, NextEvent(s.phase), NextPhase(s.phase))
    else s.(phase := NextPhase(s.phase))
  }

  /** TimeStepEnd reports to the scheduler; a seam entry looks at its slot's event. */
  function Complete(x: Setup, s: System, v: Node): System
    requires Shape(x.config, s.sched.flow) && x.config.slots == x.net.n && IsNode(x.net, v)
  {
    match v
    case Step(j, t) =>
      s.(counts := Finish(s.counts, v, false),
         log := s.log[t := s.Log(t) + [s.sched.flow.slots[j]]],
         sched := if t == TimeStepEnd then TimeStepEnded(x.config, s.sched, j) else s.sched)
    case SeamEntry(r) =>
      s.(counts := Finish(s.counts, v, s.sched.flow.slots[x.net.SeamSlot(r)].kind != DATAFLOW_STOP))
    case _ => s.(counts := Finish(s.counts, v, false))
  }

  function Write(x: Setup, s: System, j: nat, c: nat, isValid: bool): System {
    var k, f := CurrentStep(x, s, j), s.sched.flow;
    s.(sched := s.sched.(flow := f.(valid := if isValid then f.valid + {(c, j)} else f.valid - {(c, j)})),
       marks := s.marks[k := if isValid then s.Marks(k) + {c} else s.Marks(k) - {c}])
  }

  function Asked(x: Setup, s: System, i: nat, ts: int): System
    requires Sane(x.config, s.sched) && AskingShape(x.config, s.asking) && i < x.config.sources
  {
    s.(sched := Request(x.config, s.sched, ts, i).0, asking := Replied(x.config, s.sched, s.asking, ts, i))
  }

  function Awoken(x: Setup, s: System, i: nat): System
    requires Shape(x.config, s.sched.flow) && i < |s.asking.states| && s.asking.states[i].Waiting?
  {
    var (f, fut) := Resolve(x.config, s.sched.flow, s.asking.states[i].timestamp, i);
    s.(sched := s.sched.(flow := f),
       asking := WithState(s.asking, i, if fut.SlotBuffer? then Holding(fut.slot) else Idle))
  }

  function Delivered(x: Setup, s: System, i: nat): System
    requires i < |s.asking.states| && s.asking.states[i].Holding?
  {
    s.(sched := s.sched.(flow := Commit(s.sched.flow, i, s.asking.states[i].slot)),
       asking := WithState(s.asking, i, Idle))
  }

  ghost function Apply(x: Setup, s: System, a: Action): System
    requires x.Valid() && Sane(x.config, s.sched) && AskingShape(x.config, s.asking) && Allowed(x, s, a)
  {
    match a
    case BeginNode(v) => s.(counts := Begin(s.counts, v))
    case CompleteNode(v) => Complete(x, s, v)
    case AskFor(i, ts) => Asked(x, s, i, ts)
    case Awake(i) => Awoken(x, s, i)
    case Deliver(i) => Delivered(x, s, i)
    case WriteCell(j, c, isValid) => Write(x, s, j, c, isValid)
    case MainThread => MainStep(x, s)
    case SetParameter(p) => s.(sched := ChangeParameter(x.config, s.sched, p))
  }
}
