# traact dataflow: models and proofs

traact runs a stream of events (configure, start, frames of data, parameter changes, stop, teardown)
through a dataflow graph of components. The graph is copied for every slot of a ring, so that several
events are in flight at once. The project models how this is scheduled, how the task network is built
and runs, how components are connected and their buffers wired, and proves that the pipelined
execution means the same as running one event after the other.

Check everything with `dafny verify dfyconfig.toml`.

## How it is organised

- **Graphs**: `Digraph` and `Cycles` (walks, ranks, when new edges close a cycle), `Ring` (step, slot
  and round numbers), `Runs` (runs of any transition relation).
- **Scheduler**: `Events`, `Clock`, `SchedulerCore`, `Requests` give the scheduler as a state and its
  transitions; `Semaphores`, `TimeDomainClocks` and `InFlowSchedulers` are the objects with their
  loops and fields, proved against those transitions; `SchedulerWindow` proves what the ring cursor
  and the semaphore rely on.
- **Sources**: `SourceInputs`, `SourceRequests` (every input settled exactly once), `Answers` (what a
  request is answered and what it schedules), `FrameGrid`, `MovedOn`, `Awaited` (which frames exist,
  that none is held up, and that none is waited for in vain), `Refusals` and `AskingAgain` (exactly which requests do harm, and a run in which one does).
- **Task network**: `Network`, `TaskFlowBuilders` (the builder object), `Marking` (the firing rule),
  `JoinCounters` (the counting runtime refines it).
- **The running dataflow**: `DataflowSystem` is one state machine of scheduler, sources, network and
  main thread; `Pipeline`, `PipelineSteps`, `PipelineTheorems` prove the refinement; `Lifecycle`,
  `Progress`, `Shutdown` the order of events, deadlock freedom and termination; `Reachability`
  and `Liveness` that no step hangs; `Overtaking` and `EarlyReports` which reports come early or not
  at all; `TaskCalls`, `ParameterChanges`, `Outputs` and `TimeStepBuffers` what components are called
  with.
- **Construction**: `Patterns`, `GraphInstances` (connect), `TaskGraphs`, `ComponentGraphBuilder`,
  `CudaPass`, `PortIndices`, `BufferWiring`, and `Assembly`, which runs them all and shows that what
  they leave meets what the running dataflow assumes.
- **Player**: the merge of several recordings.

## What is assumed of the surroundings

- Each call of the scheduler is one atomic step, and any interleaving of these steps with starts and
  finishes of tasks is a run. Requests, ends of time steps and awaited control events hold
  `request_mutex_` (src/traact/dataflow/taskflow/TaskFlowInFlowScheduler.cpp:98, 179, 381-387) and
  take `flow_mutex_` for the queue; DATAFLOW_STOP events and parameter changes hold only
  `flow_mutex_`. A deferred future looks its slot up and claims it in one step; nothing but its own
  source could close the input in between.
- A task of the flow graph may start when each ordinary predecessor has finished once since the
  task's own last start; an integer-returning task jumps to the successor it names
  (`JoinCounters` shows that counting predecessors does the same). This is the runtime library's
  rule; the library is not part of this model.
- Sources ask for strictly later frames, and use or give up one buffer before they ask again. They may
  go on asking after they were handed no buffer. The theorems about runs cover every such request
  that meets `SourceInputs.MayAsk`: it is out of date, or no queued event lists its source and the
  frame it finds running still waits for it. `Refusals.RequestExact` shows that no other request
  keeps the inputs right, and `SourceInputs.DistantMayAsk` that sources whose requests are more than
  two match windows apart meet it unless they were refused and are still listed;
  `SourceRequests.RefusedMayAsk` says how long that lasts at most.
- Sources ask from the moment START has a slot, so also while the components' start methods run.
- A request returns: the padding loop ends (`Clock.PaddingLoopEnds` says exactly when).
- One time domain; at least one slot and one source; every start point of the task graph is a source
  task; the frame distance exceeds four offsets and timestamps exceed two.
- Timestamps are integers and the clock keeps a constant frame distance: the scheduler always builds
  it with weight 1.0 for the past (src/traact/dataflow/taskflow/TaskFlowInFlowScheduler.cpp:27).

## Where the code and its intent differ

- `timeStepEnded` reads the slot's event kind after `freeTimeStep`
  (src/traact/dataflow/taskflow/TaskFlowInFlowScheduler.cpp:105-107). If an event was queued, the kind
  is that of the event just loaded, so STOP or TEARDOWN can be reported finished while it runs, and
  `stop()` may schedule the final stop events early. `Lifecycle.ActionKeepsReports` and
  `Overtaking.OvertakenExactly` say exactly when; `EarlyReports.TeardownReportedWhileRunning` gives a
  run for every number of slots.
- For the same reason START is not reported if a frame is queued when its step ends, and `start()`
  then waits forever (`EarlyReports.StartReport`, `StartNeverReturns`). Frames can be queued by then
  because threads that start methods begin, as the file player's does
  (include/traact/component/generic/FilePlayer.h:55-59), ask at once
  (`EarlyReports.StartMissesItsReport`).
- The padding loop (lines 530-539) leaves as soon as the requested time is not below the expected one.
  It makes one round or never ends (`Clock.PaddingLoopEnds`), and lands on the requested frame only
  when one frame was skipped (`Clock.PaddingLandsOnRequest`, `MovedOn.SkippingHolds`).
- Marking queued entries (lines 351-360) does not look whether the source is listed already, and a
  request served by a running slot neither looks whether the source has had that frame nor is
  recorded (lines 213-220, 240). So "no promise is set twice" holds of a request if and only if
  `Refusals.RequestExact`'s condition does; `AskingAgain.AskingAgainFaults` is a run in which a source
  refused after STOP asks again and a promise is set twice.
- A source that is served at once and asks before the first frame gets no buffer, even while a frame
  near its timestamp runs (lines 189-197; `Answers.EarlyIsRefused`). Sources that wait never meet this
  case (`Answers.WaitingAnswer`).
- The entries of seams between slots look at the event of slot 0 only
  (src/traact/dataflow/taskflow/builder/TaskFlowConnections.cpp:120); the model does the same.

## Model

| member | source | states |
|---|---|---|
| PipelineTheorems.RunRefinesSequential | src/traact/dataflow/taskflow/builder/TaskFlowConnections.cpp:114-162 | in every run, for any number of slots and any interleaving, the k-th execution of a task that runs in ring order sees exactly the k-th event taken (kind, timestamp, changed pattern), and no task of the order gets ahead of a predecessor |
| PipelineTheorems.OrderedTaskRunsAlone | src/traact/dataflow/taskflow/builder/TaskFlowConnections.cpp:124-141 | while an ordered task runs, it runs in the slot of its next execution and in no other slot, on that execution's event |
| Pipeline.RunsItsEvent | src/traact/dataflow/taskflow/TaskFlowInFlowScheduler.cpp:244-262 | a task in progress works on the event of its slot's current step, which has been taken and has not ended: never the previous or next occupant of the slot |
| Pipeline.RunsNext | src/traact/dataflow/taskflow/builder/TaskFlowConnections.cpp:114-141 | an ordered task in progress is the next one in ring order |
| Pipeline.SourceBefore | src/traact/dataflow/taskflow/builder/TaskFlowTimeStep.cpp:22-27 | every task that is no source has a source before it in its slot |
| Pipeline.PromiseInFlight | src/traact/dataflow/taskflow/TaskFlowInFlowScheduler.cpp:687-703 | a fulfilled source promise belongs to a step in flight whose event the slot shows |
| Pipeline.EndIsSettled | src/traact/dataflow/taskflow/TaskFlowInFlowScheduler.cpp:93-105 | when TimeStepEnd runs, every source input of its step has been settled |
| PipelineSteps.ActionKeepsInv | src/traact/dataflow/taskflow/TaskFlowInFlowScheduler.cpp:60-262 | every action of every component, in any order, keeps the joint invariant of scheduler, sources, task network and cell flags |
| PipelineSteps.EndsOldest | src/traact/dataflow/taskflow/TaskFlowInFlowScheduler.cpp:244-262 | TimeStepEnd runs only for the oldest step in flight: steps end in ring order |
| PipelineSteps.EndKeepsInv | src/traact/dataflow/taskflow/TaskFlowInFlowScheduler.cpp:93-105 | the end of a step keeps the invariant although its slot is reused at once |
| PipelineSteps.TaskKeepsInv | src/traact/dataflow/taskflow/builder/tasks/TaskFlowComponentTask.cpp:14-79 | the end of an ordinary task keeps the invariant |
| PipelineSteps.WriteKeepsInv | include/traact/buffer/ComponentBuffer.h:98-103 | handing out or invalidating an output cell keeps the invariant: it marks the cell for the current step only |
| PipelineSteps.AskKeepsInv | src/traact/dataflow/taskflow/TaskFlowInFlowScheduler.cpp:175-242 | every request that is out of date, or whose source no queued event lists and whose running frame, if any, is open to it, keeps the invariant |
| PipelineTheorems.RunKeepsInv | src/traact/dataflow/taskflow/TaskFlowInFlowScheduler.cpp:60-705 | the joint invariant holds in every state of every run |
| PipelineTheorems.RingWindowAlways | src/traact/dataflow/taskflow/TaskFlowInFlowScheduler.cpp:608-672 | at all times at most one step per slot is in flight, the semaphore counts the free slots, events wait only when none is free, a slot runs exactly while it hosts a step in flight, and the slot taken next is not running |
| PipelineTheorems.StepEndsSettled | src/traact/dataflow/taskflow/TaskFlowInFlowScheduler.cpp:328-362 | when a step ends, each of its inputs was spoken for and fulfilled, no source holds one of its buffers, and no promise was ever fulfilled twice |
| PipelineTheorems.SettledStaysSettled | src/traact/buffer/SourceComponentBuffer.cpp:19-31 | a fulfilled promise stays fulfilled until its own step ends |
| PipelineTheorems.NoStaleData | src/traact/buffer/TimeStepBuffer.cpp:111-119 | a component running for step k finds all inputs valid exactly when each was marked during step k, and nobody writes them any more |
| Outputs.MarksAreLastWrites | include/traact/buffer/ComponentBuffer.h:98-103 | in every run a cell counts as marked for a step exactly if the last write to it during that very step marked it valid |
| Outputs.InputsAreLastWrites | src/traact/buffer/TimeStepBuffer.cpp:111-119 | a running component finds its inputs valid exactly if, for each cell it reads, the last write during its own step marked it valid |
| PipelineTheorems.ProducerIsDone | src/traact/dataflow/graph/builder/ComponentGraphBuilder.cpp:98-103 | a producer has stopped writing its cells before a consumer of the same step runs |
| Network.BracketsEnclose | src/traact/dataflow/taskflow/builder/TaskFlowTimeStep.cpp:18-40 | TimeStepStart leads to every task of its slot and every task leads to TimeStepEnd, though only start and end points are tied to them |
| Network.SlotEdgesAcyclic | src/traact/dataflow/taskflow/builder/TaskFlowTimeStep.cpp:18-40 | the brackets close no cycle |
| Marking.SlotWindow | src/traact/dataflow/taskflow/builder/TaskFlowConnections.cpp:59-77 | all tasks of a slot are in the same round: a slot never hosts two rounds |
| Marking.OrderWindow | src/traact/dataflow/taskflow/builder/TaskFlowConnections.cpp:114-141 | copies of an ordered task in different slots are at most one round apart, earlier slots leading |
| Marking.NeverOverlaps | src/traact/dataflow/taskflow/builder/TaskFlowConnections.cpp:59-141 | no node, seams included, starts again before it has finished |
| Marking.MarkingIsSafe | src/traact/dataflow/taskflow/builder/TaskFlowConnections.cpp:59-141 | no edge ever holds two tokens, and none holds one while its target runs |
| Marking.RingNeverLaps | src/traact/dataflow/taskflow/builder/TaskFlowConnections.cpp:124-141 | a ring's seam lets its first task go on only after its last has finished |
| Marking.BeginConsistent | src/traact/dataflow/taskflow/builder/TaskFlowConnections.cpp:23-42 | a start allowed by the firing rule keeps the counts consistent edge by edge |
| Marking.FinishConsistent | src/traact/dataflow/taskflow/builder/TaskFlowConnections.cpp:167-178 | a finish, with either choice of a seam, keeps the counts consistent |
| Marking.OldestStepProgresses | src/traact/dataflow/taskflow/builder/TaskFlowConnections.cpp:59-77 | the oldest unfinished step, or a seam that owes it a round, always has a node that runs or may start |
| JoinCounters.PredecessorsAreEdges | src/traact/dataflow/taskflow/builder/TaskFlowConnections.cpp:23-42 | the predecessors a node counts are its ordinary edges |
| JoinCounters.InitialMatches | src/traact/dataflow/taskflow/builder/TaskFlowConnections.cpp:45-55 | at the start every node counts all its predecessors and exactly the seams' entries are ready |
| JoinCounters.BeginMatches | src/traact/dataflow/taskflow/builder/TaskFlowConnections.cpp:59-141 | starting a ready node of the counting runtime is starting an enabled node of the marking |
| JoinCounters.FinishMatches | src/traact/dataflow/taskflow/builder/TaskFlowConnections.cpp:59-141 | after a finish the counters again count the missing tokens and the ready nodes are the enabled ones |
| JoinCounters.CountersStayPositive | src/traact/dataflow/taskflow/builder/TaskFlowConnections.cpp:59-141 | a counter that is decremented counts at least the finishing node: no counter drops below zero and no ready node is made ready again |
| JoinCounters.SuccessorIsIdle | src/traact/dataflow/taskflow/builder/TaskFlowConnections.cpp:59-141 | while a node runs none of its successors does, so resetting a counter at the end loses no decrement |
| TaskFlowBuilders.TaskFlowBuilder.BuildGraph | src/traact/dataflow/taskflow/builder/TaskFlowConnections.cpp:15-21 | the build fails exactly when an edge leads to an unknown task; otherwise the ordinary links are the network's edges, each once, with one seam per ring |
| TaskFlowBuilders.TaskFlowBuilder.CreateStartStopTasks | src/traact/dataflow/taskflow/builder/TaskFlowTimeStep.cpp:18-40 | adds one link from TimeStepStart to each start point and from each end point to TimeStepEnd, and nothing else |
| TaskFlowBuilders.TaskFlowBuilder.ConnectTimeStepComponents | src/traact/dataflow/taskflow/builder/TaskFlowConnections.cpp:23-42 | adds one link per edge of the task graph, or reports an unknown successor |
| TaskFlowBuilders.TaskFlowBuilder.ConnectEndsToStarts | src/traact/dataflow/taskflow/builder/TaskFlowConnections.cpp:143-146 | ties every slot into its own ring |
| TaskFlowBuilders.TaskFlowBuilder.AddSeam | src/traact/dataflow/taskflow/builder/TaskFlowConnections.cpp:59-77 | a seam's entry chooses between its start (0) and its end (1), and the start entry gets its next number |
| TaskFlowBuilders.TaskFlowBuilder.InterConnectTimeSteps | src/traact/dataflow/taskflow/builder/TaskFlowConnections.cpp:114-141 | links the copies of a task slot by slot and back to the first through a seam |
| TaskFlowBuilders.TaskFlowBuilder.ConnectOrderedTasks | src/traact/dataflow/taskflow/builder/TaskFlowConnections.cpp:148-162 | does so for the two brackets and for every serial task, each once |
| TaskFlowBuilders.StartEntryJumps | src/traact/dataflow/taskflow/builder/TaskFlowConnections.cpp:50-55 | the start entry's numbers name exactly the seams' entries, each once, and never the global end |
| TaskFlowBuilders.LinksAreEdges | src/traact/dataflow/taskflow/builder/TaskFlowConnections.cpp:23-162 | the links of the building phases are disjoint and make up the network's edges |
| Progress.NeverAtRest | src/traact/dataflow/taskflow/builder/TaskFlowConnections.cpp:59-149 | as long as no stop event has reached the oldest step, the network has a node that runs or may start |
| Progress.DeadlockFree | src/traact/dataflow/taskflow/builder/tasks/TaskFlowSourceTask.cpp:17-21 | deadlock freedom: some node may start or complete, or a source task of the oldest step waits for its source |
| Progress.RefusalSeesStop | src/traact/dataflow/taskflow/builder/TaskFlowConnections.cpp:167-178 | a seam refuses to go on only if a stop event lies at or before the round it refuses |
| Progress.SeamDecides | src/traact/dataflow/taskflow/builder/TaskFlowConnections.cpp:114-141 | a seam looks at the slot its ring would run next and refuses exactly if that slot shows a stop event |
| Progress.ActionKeepsFull | src/traact/dataflow/taskflow/TaskFlowInFlowScheduler.cpp:60-173 | every action also keeps the event script, the reports and what seams have seen |
| Lifecycle.ActionKeepsScript | src/traact/dataflow/taskflow/TaskFlowInFlowScheduler.cpp:379-388 | every action keeps the event history inside CONFIGURE, START, (DATA or PARAMETER_CHANGE)*, STOP, TEARDOWN, DATAFLOW_STOP* |
| Lifecycle.ActionKeepsReports | src/traact/dataflow/taskflow/TaskFlowInFlowScheduler.cpp:107-125 | a control event is reported when it has ended if it ran at once, and already when it is loaded if it had to wait; only START, during which frames may be queued, can go unreported |
| Lifecycle.KindReadAtEnd | src/traact/dataflow/taskflow/TaskFlowInFlowScheduler.cpp:105-107 | the event kind read at the end of a step is its own if nothing is queued, else that of the queue's head |
| Lifecycle.RequestHistory | src/traact/dataflow/taskflow/TaskFlowInFlowScheduler.cpp:467-474 | a request adds only frames to the history, and none once STOP is scheduled |
| Shutdown.RunFollowsScript | src/traact/dataflow/taskflow/TaskFlowInFlowScheduler.cpp:60-154 | in every run the history is a prefix of CONFIGURE, START, (DATA or PARAMETER_CHANGE)*, STOP, TEARDOWN, DATAFLOW_STOP^N: the stop events are the last ones, at most one for every slot |
| Shutdown.TeardownReport | src/traact/dataflow/taskflow/TaskFlowInFlowScheduler.cpp:149-154 | TEARDOWN has ended before the first DATAFLOW_STOP if it did not have to wait for a slot; if it waited, the main thread may go on exactly from when it is loaded |
| Overtaking.OvertakenExactly | src/traact/dataflow/taskflow/TaskFlowInFlowScheduler.cpp:149-154 | for any number of slots: once TEARDOWN is scheduled and until it has ended, some continuation schedules a DATAFLOW_STOP before its end if and only if TEARDOWN had to wait for a slot and can be loaded; where requests skip at most one frame, if and only if it had to wait |
| Overtaking.DirectIsNotOvertaken | src/traact/dataflow/taskflow/TaskFlowInFlowScheduler.cpp:149-154 | a TEARDOWN that took a slot at once has ended before the first DATAFLOW_STOP in every continuation |
| EarlyReports.TeardownReportedWhileRunning | src/traact/dataflow/taskflow/TaskFlowInFlowScheduler.cpp:105-114 | every dataflow, with any number of slots, has a run in which a DATAFLOW_STOP is scheduled while TEARDOWN still runs |
| EarlyReports.StartReport | src/traact/dataflow/taskflow/TaskFlowInFlowScheduler.cpp:105-110 | when START's step ends, START is reported if and only if nothing is queued |
| EarlyReports.StartNeverReturns | src/traact/dataflow/taskflow/TaskFlowInFlowScheduler.cpp:83-84 | once START has missed its report, no continuation of the run ever gets past it |
| EarlyReports.StartMissesItsReport | src/traact/dataflow/taskflow/TaskFlowInFlowScheduler.cpp:105-110 | every dataflow with one slot whose sources wait for buffers has a run in which that happens: a thread begun by a start method asks for a frame before START has ended |
| Reachability.RunsToItsEnd | src/traact/dataflow/taskflow/builder/TaskFlowConnections.cpp:59-149 | from every state whose oldest step has its inputs and is not stopped, starts and finishes of tasks alone lead to that step's TimeStepEnd |
| Reachability.NodeMovesAreBounded | src/traact/dataflow/taskflow/builder/TaskFlowConnections.cpp:59-149 | every stretch of starts and finishes of tasks is bounded by the network and the events scheduled |
| Reachability.RestEndsOldest | src/traact/dataflow/taskflow/builder/TaskFlowConnections.cpp:59-149 | whatever way the tasks go, when none can move any more an oldest step that had its inputs has ended |
| Liveness.InputCanSettle | src/traact/dataflow/taskflow/TaskFlowInFlowScheduler.cpp:416-465 | every input that the oldest step waits for can be settled by its own source: it delivers, gets the buffer it waits for, or asks for something later |
| Liveness.OldestCanEnd | src/traact/dataflow/taskflow/TaskFlowInFlowScheduler.cpp:93-105 | no step hangs: in every state of every run whose requests skip at most one frame, some continuation ends the oldest step, as long as no stop event has come |
| Liveness.ActionKeepsLive | src/traact/dataflow/taskflow/TaskFlowInFlowScheduler.cpp:175-242 | what that takes holds in every such run: no frame is held up, none is waited for in vain, and nobody waits when sources do not wait for buffers |
| Reachability.StepEnds | src/traact/dataflow/taskflow/TaskFlowInFlowScheduler.cpp:93-105 | so the step can be ended, with exactly the scheduler's transition and nothing else changed |
| Shutdown.OnceMore | src/traact/dataflow/taskflow/builder/TaskFlowConnections.cpp:167-178 | once every slot holds a stop event, each task starts at most once more |
| Shutdown.ShutdownIsFinite | src/traact/dataflow/taskflow/TaskFlowInFlowScheduler.cpp:151-154 | after that, every continuation of every run has at most a bounded number of starts and finishes |
| Shutdown.NoSourceStarves | src/traact/dataflow/taskflow/TaskFlowInFlowScheduler.cpp:696-701 | after that, a source task can wait only for the data of a frame in flight |
| Shutdown.RestMeansDone | src/traact/dataflow/taskflow/builder/TaskFlowConnections.cpp:170-173 | when the network is at rest, every event before the stop events has ended |
| Shutdown.StartsBounded | src/traact/dataflow/taskflow/builder/TaskFlowConnections.cpp:59-141 | no node starts much more often than events were taken |
| SchedulerWindow.ScheduleWindow | src/traact/dataflow/taskflow/TaskFlowInFlowScheduler.cpp:608-620 | scheduling keeps the window and the order of events, and runs the event at once exactly when a slot is free |
| SchedulerWindow.ImmediateWindow | src/traact/dataflow/taskflow/TaskFlowInFlowScheduler.cpp:633-660 | taking a slot past the queue happens only when the queue is empty: nothing is overtaken |
| SchedulerWindow.FreeWindow | src/traact/dataflow/taskflow/TaskFlowInFlowScheduler.cpp:244-262 | ending the oldest step keeps the window; a queued head takes exactly the slot just vacated |
| SchedulerWindow.OnlyOldestMayEnd | src/traact/dataflow/taskflow/TaskFlowInFlowScheduler.cpp:244-262 | if events are queued, the slot taken next is free if and only if it was the oldest step that ended |
| SchedulerWindow.NextIsFree | src/traact/dataflow/taskflow/TaskFlowInFlowScheduler.cpp:667-668 | the slot after the latest one is the slot of the next step |
| SchedulerCore.LoadFrame | src/traact/dataflow/taskflow/TaskFlowInFlowScheduler.cpp:662-705 | what loading an event changes: its slot's flags, timestamp, event, input flags and promises, and nothing of other slots |
| SchedulerCore.ClaimAndCommitClean | src/traact/dataflow/taskflow/TaskFlowInFlowScheduler.cpp:689-701 | distinct sources with open promises are committed without an exception |
| SourceInputs.LoadInputs | src/traact/dataflow/taskflow/TaskFlowInFlowScheduler.cpp:687-703 | loading an event settles exactly the inputs it must, each for the first time |
| SourceInputs.CancelInputs | src/traact/dataflow/taskflow/TaskFlowInFlowScheduler.cpp:328-362 | a later request of a source that no queued event lists settles its older inputs, running or queued, and none that is already settled |
| SourceInputs.DistantMayAsk | src/traact/dataflow/taskflow/TaskFlowInFlowScheduler.cpp:591-600 | a source that was not refused and asks for more than two match windows later always may: nothing lists it, and what it finds is open |
| SourceInputs.StartWaiting | src/traact/dataflow/taskflow/TaskFlowInFlowScheduler.cpp:432-436 | a source may wait for a frame that no ended step had and whose running slot, if any, is open |
| SourceInputs.CancelIsFirst | src/traact/dataflow/taskflow/TaskFlowInFlowScheduler.cpp:333-346 | a cancel never meets a promise that is already fulfilled |
| SourceInputs.ClaimInputs | src/traact/dataflow/taskflow/TaskFlowInFlowScheduler.cpp:416-430 | a source that no queued event lists may claim an open input whose timestamp matches; the slot runs |
| SourceInputs.CommitInputs | src/traact/buffer/SourceComponentBuffer.cpp:19-23 | a source's commit fulfils an open promise |
| SourceInputs.FreeInputs | src/traact/dataflow/taskflow/TaskFlowInFlowScheduler.cpp:244-262 | ending a settled step keeps the inputs of all others |
| SourceInputs.MatchRuns | src/traact/dataflow/taskflow/TaskFlowInFlowScheduler.cpp:264-280 | a slot whose timestamp matches runs the frame of a step in flight |
| SourceRequests.RequestGood | src/traact/dataflow/taskflow/TaskFlowInFlowScheduler.cpp:175-242 | every request that may be made keeps window, inputs and frame order, whatever it returns |
| SourceRequests.WaitGood | src/traact/dataflow/taskflow/TaskFlowInFlowScheduler.cpp:213-236 | a source that is told to wait waits for a frame that is still to come: no ended step had it, so its input is open when it runs |
| SourceRequests.RefusedMayAsk | include/traact/util/Semaphore.h:185-193 | a refused source may ask for more than two match windows later once its last timestamp is reached |
| SourceRequests.ResolveGood | src/traact/dataflow/taskflow/TaskFlowInFlowScheduler.cpp:432-465 | so does a deferred future, evaluated when its timestamp is reached |
| SourceRequests.DeferredFindsItsFrame | src/traact/dataflow/taskflow/TaskFlowInFlowScheduler.cpp:436-463 | a deferred request resolves to its own frame: the frame runs in a slot whose step has not ended, that slot is the one found, and its input is open |
| SourceRequests.FramesMatchOnce | include/traact/datatypes.h:53-60 | at most one running or queued frame matches a timestamp |
| SourceRequests.ReachedListsNothing | include/traact/util/Semaphore.h:185-193 | once the timestamp of a source's latest request is reached, no queued event lists the source any more |
| SourceRequests.EndGood | src/traact/dataflow/taskflow/TaskFlowInFlowScheduler.cpp:93-128 | the end of the oldest step keeps window, inputs and frame order |
| Refusals.LoadFaults | src/traact/dataflow/taskflow/TaskFlowInFlowScheduler.cpp:687-695 | loading an event throws if and only if it lists a source twice |
| Refusals.EndFaults | src/traact/dataflow/taskflow/TaskFlowInFlowScheduler.cpp:244-262 | the end of a step throws if and only if it loads a queued event that lists a source twice |
| Refusals.RequestExact | src/traact/dataflow/taskflow/TaskFlowInFlowScheduler.cpp:175-242 | in every state the scheduler and its sources can be in, a later request that is not out of date keeps every input settled at most once if and only if no queued event lists its source and the frame it finds running, if any, is open to it |
| Refusals.ListedTwice | src/traact/dataflow/taskflow/TaskFlowInFlowScheduler.cpp:350-360 | a listed source that asks again is listed twice by the same event |
| Refusals.ServedTwice | src/traact/dataflow/taskflow/TaskFlowInFlowScheduler.cpp:213-220 | a source whose input is not open is handed the buffer again, and its commit throws |
| AskingAgain.AskingAgainFaults | src/traact/dataflow/taskflow/TaskFlowInFlowScheduler.cpp:350-360 | every dataflow with one slot and two sources that wait for buffers has a run, allowed but for its last request, in which a refused source asks again and the end of the running step sets a promise twice |
| Awaited.NoFutureComesToNothing | src/traact/dataflow/taskflow/TaskFlowInFlowScheduler.cpp:432-465 | in every run whose requests skip at most one frame, a deferred future evaluated when its timestamp is reached returns the buffer of the slot in which its own frame runs, never null |
| Awaited.DeferredHasFrame | src/traact/dataflow/taskflow/TaskFlowInFlowScheduler.cpp:515-560 | a request that defers has seen or scheduled a frame that matches it, if it skips at most one |
| Clock.MeasurementsSince | src/traact/dataflow/taskflow/TimeDomainClock.cpp:25-50 | between two frames the clock remembers exactly the requests that match the expected frame and not the first one |
| Clock.PaddingLoopEnds | src/traact/dataflow/taskflow/TaskFlowInFlowScheduler.cpp:528-539 | the padding loop ends if and only if it ends after its first round; a timestamp between two match windows keeps it going forever |
| Clock.PaddingLandsOnRequest | src/traact/dataflow/taskflow/TaskFlowInFlowScheduler.cpp:545-550 | the frame scheduled after the padding matches the request exactly when one frame was skipped |
| TimeDomainClocks.TimeDomainClock.NewTimestamp | src/traact/dataflow/taskflow/TimeDomainClock.cpp:23-46 | the first timestamp sets the clock, others change neither the frame grid nor the distance |
| TimeDomainClocks.TimeDomainClock.AdvanceTimeStep | src/traact/dataflow/taskflow/TimeDomainClock.cpp:47-69 | with weight 1 for the past, averaging leaves the frame distance as it is |
| TimeDomainClocks.TimeDomainClock.GetNextExpectedTimestamp | src/traact/dataflow/taskflow/TimeDomainClock.cpp:16-22 | hands out the expected timestamp and moves the clock by one distance |
| FrameGrid.FramesFormGrid | src/traact/dataflow/taskflow/TaskFlowInFlowScheduler.cpp:515-560 | in every run whose sources wait for buffers, the k-th frame scheduled has the first timestamp plus k times the configured distance; none is scheduled twice |
| FrameGrid.RequestOnGrid | src/traact/dataflow/taskflow/TaskFlowInFlowScheduler.cpp:175-242 | a request schedules only the next points of the grid |
| Answers.RequestAnswers | src/traact/dataflow/taskflow/TaskFlowInFlowScheduler.cpp:175-242 | a request is answered with the buffer of the frame in flight, a deferred future or no buffer, each in exactly the listed cases, in both source modes; stated on the events taken and queued |
| Answers.RequestAdds | src/traact/dataflow/taskflow/TaskFlowInFlowScheduler.cpp:515-590 | the history grows by exactly the frames owed: none, the expected one, or that one without the source and the next; older queued frames list the source once more and nothing else changes |
| Answers.WaitingAnswer | src/traact/dataflow/taskflow/TaskFlowInFlowScheduler.cpp:175-242 | in every run whose sources wait: the buffer exactly if a frame near the timestamp is in flight, and then that frame's slot; else deferred exactly if such a frame is queued or, before STOP, owed; else no buffer |
| Answers.ImmediateAnswer | src/traact/dataflow/taskflow/TaskFlowInFlowScheduler.cpp:562-590 | in every run whose sources are served at once: no buffer before the first frame, else the lowest matching slot in flight, else the next slot exactly if one is free before STOP |
| Answers.EarlyIsRefused | src/traact/dataflow/taskflow/TaskFlowInFlowScheduler.cpp:189-197 | a source served at once that asks before the first frame is refused although a frame near its timestamp runs |
| Answers.RequestNotes | src/traact/dataflow/taskflow/TaskFlowInFlowScheduler.cpp:240-241 | a request is noted as its source's latest new time step exactly if it is not out of date and no frame near it runs or is queued |
| Answers.GivenUpGetsNothing | src/traact/dataflow/taskflow/TaskFlowInFlowScheduler.cpp:432-464 | a waiting source whose input was closed when the oldest was given up is handed no buffer, and nothing changes |
| Requests.CancelSourcesSettle | src/traact/dataflow/taskflow/TaskFlowInFlowScheduler.cpp:364-379 | giving up the oldest settles, for every source, exactly its open inputs of older running slots |
| Requests.CancelSourcesList | src/traact/dataflow/taskflow/TaskFlowInFlowScheduler.cpp:364-379 | and lists every source once more in each older queued frame, changing no other event |
| MovedOn.NoFrameIsHeldUp | src/traact/dataflow/taskflow/TaskFlowInFlowScheduler.cpp:328-362 | in every run whose requests skip at most one frame, a frame that a source has left behind has that source's input spoken for, or lists the source while queued |
| MovedOn.SkippingHolds | src/traact/dataflow/taskflow/TaskFlowInFlowScheduler.cpp:525-550 | a request ahead of the expected frame leaves nothing held up if and only if it skips a single frame |
| MovedOn.ScheduleHolds | src/traact/dataflow/taskflow/TaskFlowInFlowScheduler.cpp:608-632 | scheduling a frame holds something up exactly when a source has passed it without being listed |
| MovedOn.CancelHolds | src/traact/dataflow/taskflow/TaskFlowInFlowScheduler.cpp:328-362 | a request settles everything its source leaves behind |
| MovedOn.RequestHolds | src/traact/dataflow/taskflow/TaskFlowInFlowScheduler.cpp:175-242 | a whole request that skips at most one frame leaves nothing held up |
| InFlowSchedulers.InFlowScheduler.constructor | src/traact/dataflow/taskflow/TaskFlowInFlowScheduler.cpp:7-45 | a new scheduler is in the initial state |
| InFlowSchedulers.InFlowScheduler.RequestSourceBuffer | src/traact/dataflow/taskflow/TaskFlowInFlowScheduler.cpp:175-242 | performs the request transition and returns its future |
| InFlowSchedulers.InFlowScheduler.RequestSourceBufferNewTimestampWait | src/traact/dataflow/taskflow/TaskFlowInFlowScheduler.cpp:515-560 | the wait path, with its padding loop |
| InFlowSchedulers.InFlowScheduler.RequestSourceBufferNewTimestampImmediate | src/traact/dataflow/taskflow/TaskFlowInFlowScheduler.cpp:581-589 | the immediate path |
| InFlowSchedulers.InFlowScheduler.RequestSourceBufferRunning | src/traact/dataflow/taskflow/TaskFlowInFlowScheduler.cpp:416-430 | speaks for the input of a running slot |
| InFlowSchedulers.InFlowScheduler.ResolveScheduled | src/traact/dataflow/taskflow/TaskFlowInFlowScheduler.cpp:432-465 | what a deferred future does when its wait is over |
| InFlowSchedulers.InFlowScheduler.CancelSourceWaitForEvent | src/traact/dataflow/taskflow/TaskFlowInFlowScheduler.cpp:328-362 | cancels the source's older inputs slot by slot and marks the queue entry by entry |
| InFlowSchedulers.InFlowScheduler.CancelSourceCancelOldest | src/traact/dataflow/taskflow/TaskFlowInFlowScheduler.cpp:373-377 | does so for all sources |
| InFlowSchedulers.InFlowScheduler.CancelOlderEvents | src/traact/dataflow/taskflow/TaskFlowInFlowScheduler.cpp:301-319 | dispatches on the mode |
| InFlowSchedulers.InFlowScheduler.IsTimestampRunning | src/traact/dataflow/taskflow/TaskFlowInFlowScheduler.cpp:264-280 | finds the first slot whose timestamp matches |
| InFlowSchedulers.InFlowScheduler.IsTimestampScheduled | src/traact/dataflow/taskflow/TaskFlowInFlowScheduler.cpp:399-414 | tells whether a queued event matches |
| InFlowSchedulers.InFlowScheduler.RunTaskFlowFromQueue | src/traact/dataflow/taskflow/TaskFlowInFlowScheduler.cpp:662-705 | loads the queue's head into the slot after the latest one, which is shown not to be running |
| InFlowSchedulers.InFlowScheduler.LoadEvent | src/traact/dataflow/taskflow/TaskFlowInFlowScheduler.cpp:667-703 | cursor, flags, event, and the commits of invalid or of all sources |
| InFlowSchedulers.InFlowScheduler.TakeTaskflowSlot | src/traact/dataflow/taskflow/TaskFlowInFlowScheduler.cpp:291-299 | marks the slot as running and clears its input flags |
| InFlowSchedulers.InFlowScheduler.ScheduleEvent | src/traact/dataflow/taskflow/TaskFlowInFlowScheduler.cpp:608-620 | queues an event and runs the head if a slot is free |
| InFlowSchedulers.InFlowScheduler.SchedulePaddingEvent | src/traact/dataflow/taskflow/TaskFlowInFlowScheduler.cpp:621-632 | queues a frame without one source |
| InFlowSchedulers.InFlowScheduler.ScheduleDataEventImmediately | src/traact/dataflow/taskflow/TaskFlowInFlowScheduler.cpp:633-660 | takes a slot now or not at all |
| InFlowSchedulers.InFlowScheduler.ParameterChanged | src/traact/dataflow/taskflow/TaskFlowInFlowScheduler.cpp:709-725 | queues a parameter change |
| InFlowSchedulers.InFlowScheduler.FreeTimeStep | src/traact/dataflow/taskflow/TaskFlowInFlowScheduler.cpp:244-262 | resets the oldest step's slot and hands it on; the assertion that the next slot is free never fires |
| InFlowSchedulers.InFlowScheduler.SetTaskflowFree | src/traact/dataflow/taskflow/TaskFlowInFlowScheduler.cpp:282-289 | returns a slot to the pool |
| InFlowSchedulers.InFlowScheduler.TimeStepEnded | src/traact/dataflow/taskflow/TaskFlowInFlowScheduler.cpp:93-128 | ends a step and reports the event kind it then finds |
| InFlowSchedulers.InFlowScheduler.ScheduleNonDataEvent | src/traact/dataflow/taskflow/TaskFlowInFlowScheduler.cpp:379-388 | schedules a control event, and refuses new frames from STOP on |
| Semaphores.Semaphore.Notify | include/traact/util/Semaphore.h:18-24 | counts up to the maximum and no further |
| Semaphores.Semaphore.TryWait | include/traact/util/Semaphore.h:38-48 | takes a unit exactly if there is one |
| Semaphores.WaitForTimestamp.NotifyAll | include/traact/util/Semaphore.h:179-183 | the timestamp reached is the latest announced |
| TimeStepBuffers.TimeStepBuffer.ResetNewEvent | src/traact/buffer/TimeStepBuffer.cpp:111-119 | new promises and no valid output, as the scheduler's state says of the slot |
| TimeStepBuffers.TimeStepBuffer.SetEvent | src/traact/buffer/TimeStepBuffer.cpp:89-93 | the slot shows the event |
| TimeStepBuffers.TimeStepBuffer.Commit | src/traact/buffer/SourceComponentBuffer.cpp:19-23 | fulfils a promise, and throws exactly if it was fulfilled before |
| TimeStepBuffers.TimeStepBuffer.Cancel | src/traact/buffer/SourceComponentBuffer.cpp:33-50 | fulfils a promise that is open and swallows the exception otherwise |
| TimeStepBuffers.TimeStepBuffer.GetOutput | include/traact/buffer/ComponentBuffer.h:98-103 | marks the cell valid |
| TimeStepBuffers.TimeStepBuffer.IsAllInputValid | src/traact/buffer/ComponentBuffer.cpp:71-78 | is true exactly if every input cell is valid |
| TaskCalls.ComponentGetsItsCall | src/traact/dataflow/taskflow/builder/tasks/TaskFlowComponentTask.cpp:45-60 | in every reachable state a running component gets the call for its own step's event: processTimePoint exactly for a frame whose inputs were all marked during it, and a parameter change reconfigures exactly the component it names |
| TaskCalls.ProcessComponent | src/traact/dataflow/taskflow/builder/tasks/TaskFlowComponentTask.cpp:34-75 | run on the buffer of its slot, the task makes exactly that call |
| TaskCalls.SourceGetsItsCall | src/traact/dataflow/taskflow/builder/tasks/TaskFlowSourceTask.cpp:33-66 | once its wait is over, a source's task makes the call for the event of its own step; a frame needs none |
| ParameterChanges.ActionAdds | src/traact/dataflow/taskflow/TaskFlowInFlowScheduler.cpp:707-724 | setting a parameter queues exactly one event, which names the component; no other action adds one, and events keep their kind, timestamp and name |
| ParameterChanges.ChangesAreSet | src/traact/dataflow/taskflow/TaskFlowInFlowScheduler.cpp:707-724 | in every run the components named by the parameter changes are, in order, exactly those whose parameters were set |
| ParameterChanges.ChangeReachesItsComponent | src/traact/dataflow/taskflow/builder/tasks/TaskFlowComponentTask.cpp:55-60 | whenever a component's task works on the step of a parameter change that was set, it reconfigures its component if that is the one named, and else calls nothing |
| ParameterChanges.ChangeReachesItsSource | src/traact/dataflow/taskflow/builder/tasks/TaskFlowSourceTask.cpp:47-52 | the same for the task of a source |
| GraphInstances.GraphInstance.Connect | src/traact/pattern/instance/GraphInstance.cpp:77-93 | connects exactly if the components differ, both ports exist, lie in one global time domain and carry the same payload, and the graph with the connection, an old one of the input replaced, has no loop; otherwise reports the first check that fails |
| GraphInstances.PortChecksExactly | src/traact/pattern/instance/GraphInstance.cpp:128-198 | the port checks pass, each stated on the declared ports, exactly if no error is found; else the first that fails is found |
| GraphInstances.PortsAreFound | src/traact/pattern/instance/PatternInstance.cpp:27-60 | a port is found exactly if the group copy exists and declares the name, and then it is the first of that name |
| GraphInstances.WouldConnectToSelf | src/traact/pattern/instance/GraphInstance.cpp:8-31 | the recursive search terminates on every reachable graph and finds the goal exactly if it is reachable |
| GraphInstances.ReconnectExact | src/traact/pattern/instance/GraphInstance.cpp:200-202 | reconnecting an input closes a loop exactly when its component already leads to the source |
| GraphInstances.GraphInstance.AddPattern | src/traact/pattern/instance/GraphInstance.cpp:38-52 | adds a component under a new name; the graph stays acyclic |
| GraphInstances.GraphInstance.InstantiatePortGroup | src/traact/pattern/instance/PatternInstance.cpp:150-166 | the first group of the name gets exactly one more copy and nothing else changes; connections and acyclicity stay |
| GraphInstances.GraphInstance.CheckRunnable | src/traact/pattern/instance/GraphInstance.cpp:243-265 | lists exactly the inputs that are not connected |
| GraphInstances.InputConnected | src/traact/pattern/instance/GraphInstance.cpp:94-125 | since names are distinct in a group, an input counts as connected exactly when it is |
| Patterns.AddPortKeepsGroup | src/traact/pattern/Pattern.cpp:77-99 | a new port has the name, payload and time domain asked for, the others stay; numbers stay dense and names distinct |
| ComponentGraphBuilder.CreateDependencies | src/traact/dataflow/graph/builder/ComponentGraphBuilder.cpp:88-127 | one edge per connection and one from the first asynchronous source to each synchronous one; it fails exactly if that source is missing |
| ComponentGraphBuilder.FindSyncSourceStartPoint | src/traact/dataflow/graph/builder/ComponentGraphBuilder.cpp:128-145 | finds the first asynchronous source: none before it is one, and none is found exactly if there is none |
| ComponentGraphBuilder.TaskGraphAcyclic | src/traact/dataflow/graph/builder/ComponentGraphBuilder.cpp:105-110 | the task graph is acyclic exactly when the components are and no synchronous source leads to the source that starts it |
| ComponentGraphBuilder.SourceWithoutInputs | src/traact/dataflow/graph/builder/ComponentGraphBuilder.cpp:131-139 | which holds when that source has no inputs |
| TaskGraphs.TraactTask.Precede | src/traact/dataflow/graph/task/TraactTask.cpp:20-23 | an edge is entered at both ends |
| TaskGraphs.TraactTask.Succeed | src/traact/dataflow/graph/task/TraactTask.cpp:15-18 | an edge is entered at both ends |
| TaskGraphs.TraactTask.SucceedInterTimeStep | src/traact/dataflow/graph/task/TraactTask.cpp:32-35 | an edge between time steps is entered at both ends |
| TaskGraphs.TraactGraph.EndsOfGraph | src/traact/dataflow/graph/task/TraactTask.cpp:25-31 | a task's own sets say whether anything in the graph precedes or follows it |
| CudaPass.CudaGraphBuilder.BuildGraph | src/traact/dataflow/graph/cuda/CudaGraphBuilder.cpp:9-13 | the graph is rewritten as specified, the recorded internal edges are exactly the original ones inside the groups, and the result is acyclic if and only if the original and the contracted graph are |
| CudaPass.RewrittenAcyclicExactly | src/traact/dataflow/graph/cuda/CudaGraphBuilder.cpp:36-68 | rewriting keeps a graph acyclic if and only if contracting each group does |
| CudaPass.GroupRunsBetween | src/traact/dataflow/graph/cuda/CudaGraphBuilder.cpp:53-66 | a group's task comes after each member and before each member's successors outside the group |
| CudaPass.NewEdgeKinds | src/traact/dataflow/graph/cuda/CudaGraphBuilder.cpp:53-66 | the pass adds no other edges |
| CudaPass.CudaGraphBuilder.UpdateComponentSuccessors | src/traact/dataflow/graph/cuda/CudaGraphBuilder.cpp:43-68 | moves one member's outside successors behind the group's task and records the inside ones |
| CudaPass.CudaGraphBuilder.CreateTasks | src/traact/dataflow/graph/cuda/CudaGraphBuilder.cpp:32-34 | one task for every group |
| PortIndices.IndicesIncrease | src/traact/pattern/instance/PortInstance.cpp:30-33 | ports listed later have larger numbers, and all are below the component's port count |
| PortIndices.IndicesInjective | src/traact/pattern/instance/PortInstance.cpp:30-33 | no two ports share a number |
| PortIndices.IndexIsPort | src/traact/pattern/instance/PortInstance.cpp:77-93 | every number below the count is some port's |
| PortIndices.AddressIsIndex | include/traact/buffer/ComponentBuffer.h:53-58 | group offset + ports per copy * copy + index in the group is the port's number |
| PortIndices.PortGroupStartIndex | src/traact/pattern/instance/PortInstance.cpp:77-93 | the walk over groups and copies computes the number of ports before a copy |
| PortIndices.CountPorts | src/traact/pattern/instance/PortInstance.cpp:68-76 | counts the ports of one time domain |
| BufferWiring.AssignBuffers | src/traact/buffer/TimeDomainBuffer.cpp:30-59 | every output port of the time domain has a cell of its own and every connected input the cell of its producer; there are as many cells as output ports |
| BufferWiring.CreateLocalBuffer | src/traact/buffer/TimeStepBuffer.cpp:60-75 | a component finds each port's cell at the port's number |
| BufferWiring.LocalIsAssigned | src/traact/buffer/TimeStepBuffer.cpp:60-75 | the cell found at a port's number is the cell assigned to that very port |
| BufferWiring.LocalExists | src/traact/buffer/TimeStepBuffer.cpp:60-75 | for every output and every connected input that cell is one of the cells there are |
| BufferWiring.ListPorts | src/traact/pattern/instance/PatternInstance.cpp:83-110 | ports are listed in the order of their numbers |
| BufferWiring.InputReadsItsProducer | src/traact/buffer/TimeDomainBuffer.cpp:83-87 | a component's input cell is the output cell of the producer it is connected to |
| BufferWiring.OutputsDoNotShare | src/traact/buffer/TimeDomainBuffer.cpp:46-51 | two different output ports, of one component or of two, never share a cell |
| BufferWiring.SortedKinds | src/traact/buffer/TimeDomainBuffer.cpp:20-44 | in sorted order what waits for outside data comes first, then the synchronous sources, and what only consumes comes last |
| BufferWiring.CountSources | src/traact/buffer/TimeDomainBuffer.cpp:20-44 | in sorted order the sources are exactly the first components |
| Assembly.Assemble | src/traact/dataflow/graph/TraactGraphBuilder.cpp:15-41 | run in turn on connected components, the builders fail exactly if a synchronous source has nothing to start it, and otherwise leave a setup that the dataflow's theorems are about: its tasks, edges and sources are those of the passes, exactly the serial components' tasks run in ring order, and each component's own buffers are the cells its task reads and writes |
| Assembly.BuildTaskGraph | src/traact/dataflow/graph/TraactGraphBuilder.cpp:26-35 | the component pass and the GPU pass give the rewritten task edges, acyclic exactly when the component tasks are and stay so with the groups contracted; exactly the serial components are serial |
| Assembly.BuildFlowGraph | src/traact/dataflow/taskflow/builder/TaskFlowConnections.cpp:15-21 | the flow graph of a well-formed network is always built, with the network's edges |
| Assembly.StartsAreSources | src/traact/dataflow/taskflow/builder/TaskFlowTimeStep.cpp:22-27 | after both passes every task without a predecessor is a source |
| Assembly.TasksAcyclic | src/traact/dataflow/graph/builder/ComponentGraphBuilder.cpp:88-127 | when sources have no inputs the component tasks form no loop |
| Assembly.AssignAll | src/traact/buffer/TimeDomainBuffer.cpp:30-59 | over all components of a connected graph every connected producer has a cell |
| Assembly.InputIsRead | src/traact/buffer/TimeDomainBuffer.cpp:53-55 | a cell is among those a task reads exactly if a connected input of its component is found at it |
| Assembly.AllBuffersDoFit | src/traact/buffer/TimeDomainBuffer.cpp:62-116 | every component's outputs are cells its own task writes, its connected inputs exactly the cells its task reads |
| Assembly.RunnableReadsAll | src/traact/buffer/TimeDomainBuffer.cpp:62-116 | when no input is open, a component's input buffers are exactly the cells its task reads |
| Assembly.SerialTasks | src/traact/dataflow/graph/builder/ComponentGraphBuilder.cpp:121-123 | the tasks in ring order are exactly those of the serial components, and no group's task is one |
| Assembly.SourcesComeFirst | src/traact/buffer/TimeDomainBuffer.cpp:20-44 | the source indices the scheduler uses are those of exactly the source components |
| Assembly.PartsFit | src/traact/buffer/TimeDomainBuffer.cpp:14-116 | tasks, edges, sources and cells that the builders leave meet all that the running dataflow assumes |
| Assembly.AssembledSetupIsValid | src/traact/buffer/TimeDomainBuffer.cpp:14-116 | the assumptions of the running dataflow, one by one, from the task graph and the wiring |
| Assembly.WiringAgrees | src/traact/buffer/TimeDomainBuffer.cpp:53-55 | the writer of every cell that a task reads precedes the task in its slot |
| Assembly.NetworkIsWellFormed | src/traact/dataflow/taskflow/builder/TaskFlowTimeStep.cpp:22-27 | the task graph is a well-formed network when its start points are sources |
| Player.PlayerModule.ThreadLoop | src/traact/component/PlayerBaseComponent.cpp:51-118 | stopped at any point, what was sent of each recording is its first entries in order, each due at its timestamp plus one common constant; played to the end, every entry of every recording is sent once, each recording in order, every entry due at its timestamp plus one common constant; the loop makes exactly as many sends as there are entries |
| Player.MergeIsSortedExactly | src/traact/component/PlayerBaseComponent.cpp:77-114 | what is sent is sorted if and only if every recording is |
| Player.SendKeepsValid | include/traact/component/PlayerBaseComponent.h:77-87 | sending the earliest event and fetching its successor keeps the merge |
| Player.SendsAreEntries | src/traact/component/PlayerBaseComponent.cpp:77-114 | no more is sent than there are entries, and the queue is empty exactly when all were sent |
| Player.PlayerModule.SendAndNext | include/traact/component/PlayerBaseComponent.h:77-87 | sends an entry, fetches the next one and moves the due time by the difference; false when there is none |
| Player.PlayerModule.FindEarliest | include/traact/component/PlayerBaseComponent.h:64-66 | the event at the top of the queue has the smallest timestamp |

## Left out

- Module constraint tasks and `connect_end_to_next_start`: the ordering they intend does not follow from the code; only a task's own ring across the slots is modelled.
- Exactly-once settling under CANCEL_OLDEST: the operation itself is modelled (`InFlowScheduler.CancelSourceCancelOldest`), but requests of different sources can list one source twice.
- Frames skipped by more than one: only the exact condition under which something is held up is proved.
- `ComponentBuffer::isInputGroupValid` and the circular dynamic buffer.
- Averaging with other weights, floating-point rounding and overflow of timestamps: the clock is only ever built with weight 1.0.
- Time domain mappings other than one domain.
- The forced cancel after a stop timeout, wall-clock waits, sleeping, logging, profiling.
- What a source component does between its request and its commit, and component code in general: they are any sequence of writes to the component's own cells.
- The TBB backend, JSON, plug-ins, file utilities, the console application, CUDA kernels.
- How port names are formatted as text: ports are named by component, group, copy and name.
- The two maps from task names to flow-graph tasks: a task is its name and slot.
- InFlowScheduler.RequestSourceBuffer: requires that the padding loop ends, because a call that never returns has no result; `Clock.PaddingLoopEnds` gives the exact condition.
- InFlowScheduler.RequestSourceBufferNewTimestampWait: requires the same, for the same reason.
- SourceRequests.DeferredFindsItsFrame: takes a scheduled frame as given; `Awaited.NoFutureComesToNothing` proves that there is one when requests skip at most one frame.
- Semaphore.TryWait: models the wait with a zero timeout only, the one the scheduler uses.
- GraphInstance.Connect: port look-up by the short name of a default-group port is not modelled, because names are tuples.
- TaskFlowBuilder.BuildGraph: the order in which tasks are visited is left open, as the start entry's numbering is the only thing that depends on it.
