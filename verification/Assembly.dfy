/**
  From a connected component graph to the setup that the running dataflow is proved for: the task
  graph becomes the network, the wiring the cells that its tasks write and read.
*/
module Assembly {
  import opened Digraph
  import opened Cycles
  import opened Patterns
  import opened GraphInstances
  import opened BufferWiring
  import opened ComponentGraphBuilder
  import opened CudaPass
  import opened PortIndices
  import opened TaskFlowBuilders
  import opened TaskGraphs
  import N = Network
  import D = DataflowSystem
  import E = Events
  import S = SchedulerCore

  function Lift(edges: set<(string, string)>): set<(N.Task, N.Task)> {
    set e | e in edges :: (N.Named(e.0), N.Named(e.1))
  }

  function Tasks(ids: set<string>): set<N.Task> {
    set id | id in ids :: N.Named(id)
  }

  function NetworkOf(n: nat, ids: set<string>, edges: set<(string, string)>, serial: set<string>, sources: seq<string>)
    : N.Network
  {
    N.Network(n, Tasks(ids), Lift(edges), Tasks(serial), seq(|sources|, i requires 0 <= i < |sources| => N.Named(sources[i])))
  }

  lemma LiftExactly(edges: set<(string, string)>)
    ensures forall a, b :: (N.Named(a), N.Named(b)) in Lift(edges) <==> (a, b) in edges
  {
    forall a, b
      ensures (N.Named(a), N.Named(b)) in Lift(edges) <==> (a, b) in edges
    {
      if (a, b) in edges { assert (N.Named((a, b).0), N.Named((a, b).1)) in Lift(edges); }
      if (N.Named(a), N.Named(b)) in Lift(edges) {
        var e :| e in edges && (N.Named(e.0), N.Named(e.1)) == (N.Named(a), N.Named(b));
        assert e == (a, b);
      }
    }
  }

  /** Naming the tasks makes no new cycles. */
  lemma LiftAcyclic(edges: set<(string, string)>)
    requires Acyclic(edges)
    ensures Acyclic(Lift(edges))
  {
    forall t | Reaches(Lift(edges), t, t)
      ensures false
    {
      var p: seq<N.Task> :| IsWalk(Lift(edges), p) && |p| >= 2 && p[0] == t && p[|p| - 1] == t;
      var q := seq(|p|, i requires 0 <= i < |p| => if p[i].Named? then p[i].id else "");
      forall i | 0 <= i < |p| - 1
        ensures (q[i], q[i + 1]) in edges
      {
        assert (p[i], p[i + 1]) in Lift(edges);
        var e :| e in edges && (p[i], p[i + 1]) == (N.Named(e.0), N.Named(e.1));
        assert e == (q[i], q[i + 1]);
      }
      ClosedWalk(edges, q);
    }
  }

  /** A start point of the task graph has no predecessor. */
  predicate IsStart(edges: set<(string, string)>, id: string) {
    forall e :: e in edges ==> e.1 != id
  }

  /** What the builder passes leave is a well-formed network, if every start point is a source. */
  lemma NetworkIsWellFormed(
    n: nat, ids: set<string>, edges: set<(string, string)>, serial: set<string>, sources: seq<string>)
    requires n >= 1 && Closed(ids, edges) && Acyclic(edges) && serial <= ids
    requires sources != [] && forall k :: 0 <= k < |sources| ==> sources[k] in ids
    requires forall j, k :: 0 <= j < k < |sources| ==> sources[j] != sources[k]
    requires forall id :: id in ids && IsStart(edges, id) ==> id in sources
    ensures NetworkOf(n, ids, edges, serial, sources).WellFormed()
  {
    var net := NetworkOf(n, ids, edges, serial, sources);
    LiftAcyclic(edges);
    forall t | net.IsStartPoint(t)
      ensures t in net.sources
    {
      forall e | e in edges
        ensures e.1 != t.id
      {
        assert (N.Named(e.0), N.Named(e.1)) in net.edges;
        assert (N.Named(e.0), N.Named(e.1)).1 == N.Named(e.1);
      }
      assert IsStart(edges, t.id);
      var k :| 0 <= k < |sources| && sources[k] == t.id;
      assert net.sources[k] == t;
    }
  }

  /** The task that writes each cell. */
  predicate WritersOk(cells: map<PortId, nat>, producers: set<PortId>, writers: seq<N.Task>) {
    forall p :: p in producers ==> p in cells && cells[p] < |writers| && writers[cells[p]] == N.Named(p.component)
  }

  /** The cells each task reads: those of its connected inputs. */
  function InputCells(connectedTo: map<PortId, PortId>, cells: map<PortId, nat>, ids: set<string>): map<N.Task, set<nat>> {
    map t | t in Tasks(ids) :: set c | c in connectedTo && t == N.Named(c.component) && c in cells :: cells[c]
  }

  /**
    The wiring agrees with the task graph: the writer of every cell that a task reads comes before
    the task in its slot.
  */
  lemma WiringAgrees(
    x: D.Setup, connectedTo: map<PortId, PortId>, cells: map<PortId, nat>, count: nat, producers: set<PortId>,
    ids: set<string>, edges: set<(string, string)>, t: N.Task, cell: nat)
    requires CellsOk(connectedTo, producers, cells, count) && WritersOk(cells, producers, x.cells)
    requires forall c :: c in connectedTo ==> connectedTo[c] in producers
    requires EdgesOf(connectedTo) <= edges && x.net.edges == Lift(edges)
    requires x.inputs == InputCells(connectedTo, cells, ids) && cell in x.Inputs(t)
    ensures cell < |x.cells| && (x.cells[cell], t) in x.net.edges
  {
    var c :| c in connectedTo && t == N.Named(c.component) && c in cells && cells[c] == cell;
    var e := (connectedTo[c].component, c.component);
    assert e in edges;
    assert x.cells[cell] == N.Named(e.0);
  }

  /** The setup that the builders leave is one that the dataflow's theorems are about. */
  lemma AssembledSetupIsValid(
    x: D.Setup, connectedTo: map<PortId, PortId>, cells: map<PortId, nat>, count: nat, producers: set<PortId>,
    ids: set<string>, edges: set<(string, string)>, serial: set<string>, sources: seq<string>)
    requires x.net == NetworkOf(x.config.slots, ids, edges, serial, sources) && x.config.Valid()
    requires x.config.sources == |sources| && x.config.missingMode == E.WAIT_FOR_EVENT
    requires x.delta > 4 * x.config.maxOffset
    requires Closed(ids, edges) && Acyclic(edges) && serial <= ids
    requires sources != [] && forall k :: 0 <= k < |sources| ==> sources[k] in ids
    requires forall j, k :: 0 <= j < k < |sources| ==> sources[j] != sources[k]
    requires forall id :: id in ids && IsStart(edges, id) ==> id in sources
    requires CellsOk(connectedTo, producers, cells, count) && WritersOk(cells, producers, x.cells)
    requires forall k :: 0 <= k < |x.cells| ==> x.cells[k] in Tasks(ids)
    requires EdgesOf(connectedTo) <= edges && forall c :: c in connectedTo ==> connectedTo[c] in producers
    requires x.inputs == InputCells(connectedTo, cells, ids)
    ensures x.Valid()
  {
    NetworkIsWellFormed(x.config.slots, ids, edges, serial, sources);
    forall t, cell: nat {:trigger cell in x.Inputs(t)} | cell in x.Inputs(t)
      ensures cell < |x.cells| && (x.cells[cell], t) in x.net.edges
    {
      WiringAgrees(x, connectedTo, cells, count, producers, ids, edges, t, cell);
    }
  }

  // ---- running the builders ------------------------------------------------------------------

  predicate IsComponent(components: seq<ComponentInfo>, id: string) {
    exists k :: 0 <= k < |components| && components[k].id == id
  }

  predicate HasInput(connectedTo: map<PortId, PortId>, id: string) {
    exists c :: c in connectedTo && c.component == id
  }

  /** What connecting the components leaves: a graph without loops in one time domain. */
  ghost predicate IsConnectedGraph(
    patterns: map<string, Instance>, connectedTo: map<PortId, PortId>, components: seq<ComponentInfo>, domain: nat)
  {
    && Wired(patterns, connectedTo) && Acyclic(EdgesOf(connectedTo))
    && (forall id :: id in patterns ==> IndicesOk(patterns[id]))
    && (forall id :: id in patterns <==> IsComponent(components, id))
    && (forall j, k :: 0 <= j < k < |components| ==> components[j].id != components[k].id)
    && (forall c :: c in connectedTo ==> IsOutputOf(patterns, connectedTo[c].component, domain, connectedTo[c]))
    && (forall c :: c in connectedTo ==> IsInputOf(patterns, domain, c))
  }

  /** The connected input is a port of this time domain. */
  ghost predicate IsInputOf(patterns: map<string, Instance>, domain: nat, c: PortId) {
    c.component in patterns && exists x: nat :: IsPortAt(patterns[c.component], CONSUMER, domain, c, x)
  }

  /** Sources have no inputs, and every component that nothing else starts has some. */
  ghost predicate StartsAtSources(connectedTo: map<PortId, PortId>, components: seq<ComponentInfo>) {
    && (exists k :: 0 <= k < |components| && IsSource(components[k].kind))
    && (forall k :: 0 <= k < |components| ==> components[k].kind != INVALID)
    && (forall k :: 0 <= k < |components| && IsSource(components[k].kind) ==> !HasInput(connectedTo, components[k].id))
    && (forall k :: 0 <= k < |components| && !IsSource(components[k].kind) && components[k].kind != SYNC_SOURCE
                    ==> HasInput(connectedTo, components[k].id))
  }

  lemma ConnectionsComeFrom(
    patterns: map<string, Instance>, connectedTo: map<PortId, PortId>, components: seq<ComponentInfo>, domain: nat)
    requires IsConnectedGraph(patterns, connectedTo, components, domain)
    ensures ComesFrom(connectedTo, components)
    ensures forall c :: c in connectedTo ==> IsComponent(components, c.component)
  {
    forall c | c in connectedTo
      ensures IsComponent(components, connectedTo[c].component) && IsComponent(components, c.component)
    {
      assert HasPort(patterns, PRODUCER, connectedTo[c]) && HasPort(patterns, CONSUMER, c);
    }
  }

  /** When sources have no inputs, the tasks form no loop either. */
  lemma TasksAcyclic(connectedTo: map<PortId, PortId>, components: seq<ComponentInfo>)
    requires ComesFrom(connectedTo, components) && Acyclic(EdgesOf(connectedTo))
    requires forall j, k :: 0 <= j < k < |components| ==> components[j].id != components[k].id
    requires StartsAtSources(connectedTo, components)
    ensures Acyclic(TaskEdges(connectedTo, components)) && EdgesOf(connectedTo) <= TaskEdges(connectedTo, components)
  {
    assert EdgesFrom(connectedTo, components, |components|) == EdgesOf(connectedTo);
    if HasAsyncSource(components) {
      FirstAsyncExists(components, 0);
      assert !HasInput(connectedTo, components[FirstAsyncOf(components)].id);
      SourceWithoutInputs(connectedTo, components);
    } else {
      assert TaskEdges(connectedTo, components) == EdgesOf(connectedTo);
    }
  }

  /** The component pass: a task for every component, and the edges. */
  method BuildComponentTasks(connectedTo: map<PortId, PortId>, components: seq<ComponentInfo>)
    returns (ok: bool, graph: TraactGraph)
    requires forall c :: c in connectedTo ==> IsComponent(components, c.component)
    ensures fresh(graph) && fresh(graph.tasks.Values) && graph.Valid()
    ensures ok <==> !HasSyncSource(components, |components|) || HasAsyncSource(components)
    ensures ok ==> graph.tasks.Keys == Ids(components, |components|)
    ensures ok ==> graph.serial == SerialIds(components, |components|)
    ensures ok ==> graph.edges == TaskEdges(connectedTo, components)
  {
    graph := new TraactGraph();
    CreateTasks(graph, components);
    ok := CreateDependencies(graph, components, connectedTo);
  }

  /** The component pass and the GPU pass, one after the other. */
  method BuildTaskGraph(
    connectedTo: map<PortId, PortId>, components: seq<ComponentInfo>, groups: map<string, string>)
    returns (ok: bool, graph: TraactGraph)
    requires forall c :: c in connectedTo ==> IsComponent(components, c.component)
    requires NamesApart(Ids(components, |components|), groups)
    ensures fresh(graph) && graph.Valid()
    ensures ok <==> !HasSyncSource(components, |components|) || HasAsyncSource(components)
    ensures ok ==> graph.tasks.Keys == Ids(components, |components|) + groups.Values
    ensures ok ==> graph.edges == Rewritten(TaskEdges(connectedTo, components), groups)
    ensures ok ==> graph.serial == SerialIds(components, |components|)
    ensures ok ==> (Acyclic(graph.edges) <==> Acyclic(TaskEdges(connectedTo, components))
                                              && Acyclic(Contracted(TaskEdges(connectedTo, components), groups)))
  {
    ok, graph := BuildComponentTasks(connectedTo, components);
    if ok {
      var cuda := new CudaGraphBuilder(groups);
      cuda.BuildGraph(graph);
    }
  }

  /** Every task without a predecessor is a source. */
  lemma StartsAreSources(
    connectedTo: map<PortId, PortId>, components: seq<ComponentInfo>, groups: map<string, string>, id: string)
    requires StartsAtSources(connectedTo, components)
    requires EdgesOf(connectedTo) <= TaskEdges(connectedTo, components)
    requires !HasSyncSource(components, |components|) || HasAsyncSource(components)
    requires id in Ids(components, |components|) + groups.Values
    ensures IsSourceOf(components, id) || !IsStart(Rewritten(TaskEdges(connectedTo, components), groups), id)
  {
    var edges := TaskEdges(connectedTo, components);
    if id in groups.Values {
      var m :| m in groups && groups[m] == id;
      assert (m, id) in GroupEdges(edges, groups, m);
      HasPredecessor(Rewritten(edges, groups), m, id);
    } else {
      var k :| 0 <= k < |components| && components[k].id == id;
      if IsSource(components[k].kind) {
      } else if components[k].kind == SYNC_SOURCE {
        var start := components[FirstAsyncOf(components)].id;
        assert (start, id) in SyncStarts(start, components, |components|);
        HasPredecessor(Rewritten(edges, groups), start, id);
      } else {
        var c :| c in connectedTo && c.component == id;
        assert (connectedTo[c].component, id) in EdgesOf(connectedTo);
        HasPredecessor(Rewritten(edges, groups), connectedTo[c].component, id);
      }
    }
  }

  lemma HasPredecessor(edges: set<(string, string)>, before: string, id: string)
    requires (before, id) in edges
    ensures !IsStart(edges, id)
  {
    assert (before, id).1 == id;
  }

  predicate IsSourceOf(components: seq<ComponentInfo>, id: string) {
    exists k :: 0 <= k < |components| && components[k].id == id && IsSource(components[k].kind)
  }

  /** The sources come first in the order that buffers are assigned in. */
  function SourceIds(ordered: seq<ComponentInfo>, count: nat): seq<string>
    requires count <= |ordered|
  {
    seq(count, k requires 0 <= k < count => ordered[k].id)
  }

  /** The task that writes a cell. */
  ghost function WriterOf(producers: set<PortId>, cells: map<PortId, nat>, k: nat, other: string): N.Task {
    if exists p :: p in producers && p in cells && cells[p] == k then
      var p :| p in producers && p in cells && cells[p] == k;
      N.Named(p.component)
    else N.Named(other)
  }

  ghost function Writers(producers: set<PortId>, cells: map<PortId, nat>, count: nat, other: string): seq<N.Task> {
    seq(count, k requires 0 <= k < count => WriterOf(producers, cells, k, other))
  }

  lemma WritersAreOk(
    connectedTo: map<PortId, PortId>, producers: set<PortId>, cells: map<PortId, nat>, count: nat, other: string,
    ids: set<string>)
    requires CellsOk(connectedTo, producers, cells, count) && other in ids
    requires forall p :: p in producers ==> p.component in ids
    ensures WritersOk(cells, producers, Writers(producers, cells, count, other))
    ensures forall k :: 0 <= k < count ==> Writers(producers, cells, count, other)[k] in Tasks(ids)
  {
    forall p | p in producers
      ensures WriterOf(producers, cells, cells[p], other) == N.Named(p.component)
    {
    }
  }

  /** The two lists hold the same components; the second is sorted by type. */
  ghost predicate IsOrdered(components: seq<ComponentInfo>, ordered: seq<ComponentInfo>) {
    && (forall info :: info in components <==> info in ordered)
    && (forall j, k :: 0 <= j < k < |ordered| ==> ordered[j].id != ordered[k].id)
    && SortedByType(Types(ordered))
  }

  function Types(components: seq<ComponentInfo>): seq<ComponentType> {
    seq(|components|, k requires 0 <= k < |components| => components[k].kind)
  }

  function AllIds(components: seq<ComponentInfo>): seq<string> {
    SourceIds(components, |components|)
  }

  /** Both lists name the same components. */
  lemma OrderedIds(components: seq<ComponentInfo>, ordered: seq<ComponentInfo>)
    requires IsOrdered(components, ordered)
    ensures forall id :: id in AllIds(ordered) <==> IsComponent(components, id)
    ensures forall id :: id in AllIds(ordered) <==> id in Ids(components, |components|)
  {
    forall id
      ensures id in AllIds(ordered) <==> IsComponent(components, id)
    {
      if id in AllIds(ordered) {
        var k :| 0 <= k < |ordered| && ordered[k].id == id;
        assert ordered[k] in components;
      }
      if IsComponent(components, id) {
        var k :| 0 <= k < |components| && components[k].id == id;
        assert components[k] in ordered;
        var l :| 0 <= l < |ordered| && ordered[l] == components[k];
        assert AllIds(ordered)[l] == id;
      }
    }
  }

  /** The first components in sorted order are the sources. */
  lemma SourcesComeFirst(components: seq<ComponentInfo>, ordered: seq<ComponentInfo>, count: nat, id: string)
    requires IsOrdered(components, ordered) && count <= |ordered|
    requires forall k :: 0 <= k < |ordered| ==> (IsSource(Types(ordered)[k]) <==> k < count)
    ensures id in SourceIds(ordered, count) <==> IsSourceOf(components, id)
  {
    if id in SourceIds(ordered, count) {
      var k :| 0 <= k < count && SourceIds(ordered, count)[k] == id;
      assert Types(ordered)[k] == ordered[k].kind && ordered[k] in components;
    }
    if IsSourceOf(components, id) {
      var k :| 0 <= k < |components| && components[k].id == id && IsSource(components[k].kind);
      assert components[k] in ordered;
      var l :| 0 <= l < |ordered| && ordered[l] == components[k];
      assert IsSource(Types(ordered)[l]) && SourceIds(ordered, count)[l] == id;
    }
  }

  lemma NothingInvalid(connectedTo: map<PortId, PortId>, components: seq<ComponentInfo>, ordered: seq<ComponentInfo>)
    requires StartsAtSources(connectedTo, components) && IsOrdered(components, ordered)
    ensures INVALID !in Types(ordered)
  {
    forall k | 0 <= k < |ordered|
      ensures Types(ordered)[k] != INVALID
    {
      assert ordered[k] in components;
    }
  }

  /** Every connected output has been given a cell. */
  lemma ConnectedIsListed(
    patterns: map<string, Instance>, connectedTo: map<PortId, PortId>, domain: nat, order: seq<string>,
    producers: set<PortId>, c: PortId)
    requires c in connectedTo && connectedTo[c].component in order
    requires IsOutputOf(patterns, connectedTo[c].component, domain, connectedTo[c])
    requires AreOutputs(patterns, order, domain, producers)
    ensures connectedTo[c] in producers
  {
    var k :| 0 <= k < |order| && order[k] == connectedTo[c].component;
    assert IsOutput(patterns, order, domain, connectedTo[c]);
  }

  /** What the passes and the buffers leave, put together. */
  ghost function SetupOf(
    connectedTo: map<PortId, PortId>, ids: set<string>, edges: set<(string, string)>, serial: set<string>,
    sources: seq<string>, cells: map<PortId, nat>, total: nat, producers: set<PortId>,
    slots: nat, maxOffset: int, sourceMode: E.SourceMode, delta: int): D.Setup
    requires sources != []
  {
    D.Setup(NetworkOf(slots, ids, edges, serial, sources),
            S.Config(slots, |sources|, maxOffset, sourceMode, E.WAIT_FOR_EVENT), delta,
            Writers(producers, cells, total, sources[0]), InputCells(connectedTo, cells, ids))
  }

  /** The parts fit: this is all that the validity of the setup takes. */
  lemma PartsFit(
    connectedTo: map<PortId, PortId>, components: seq<ComponentInfo>, groups: map<string, string>,
    ids: set<string>, edges: set<(string, string)>, serial: set<string>,
    sources: seq<string>, cells: map<PortId, nat>, total: nat, producers: set<PortId>,
    slots: nat, maxOffset: int, sourceMode: E.SourceMode, delta: int)
    requires slots >= 1 && maxOffset >= 0 && delta > 4 * maxOffset
    requires StartsAtSources(connectedTo, components) && EdgesOf(connectedTo) <= TaskEdges(connectedTo, components)
    requires !HasSyncSource(components, |components|) || HasAsyncSource(components)
    requires ids == Ids(components, |components|) + groups.Values
    requires edges == Rewritten(TaskEdges(connectedTo, components), groups)
    requires Closed(ids, edges) && Acyclic(edges) && serial <= ids
    requires sources != [] && forall j, k :: 0 <= j < k < |sources| ==> sources[j] != sources[k]
    requires forall id :: id in sources <==> IsSourceOf(components, id)
    requires CellsOk(connectedTo, producers, cells, total)
    requires forall p :: p in producers ==> p.component in ids
    requires forall c :: c in connectedTo ==> connectedTo[c] in producers
    ensures SetupOf(connectedTo, ids, edges, serial, sources, cells, total, producers,
                    slots, maxOffset, sourceMode, delta).Valid()
  {
    var x := SetupOf(connectedTo, ids, edges, serial, sources, cells, total, producers,
                     slots, maxOffset, sourceMode, delta);
    forall k | 0 <= k < |sources|
      ensures sources[k] in ids
    {
      assert IsSourceOf(components, sources[k]);
    }
    forall id | id in ids && IsStart(edges, id)
      ensures id in sources
    {
      StartsAreSources(connectedTo, components, groups, id);
    }
    WritersAreOk(connectedTo, producers, cells, total, sources[0], ids);
    AssembledSetupIsValid(x, connectedTo, cells, total, producers, ids, edges, serial, sources);
  }

  // ---- the components' own buffers -----------------------------------------------------------

  datatype LocalBuffers = LocalBuffers(inputs: seq<nat>, outputs: seq<nat>)

  ghost predicate IsLocalTo(
    patterns: map<string, Instance>, domain: nat, cells: map<PortId, nat>, id: string, own: LocalBuffers)
  {
    && id in patterns && patterns[id].Valid()
    && LocalOk(id, patterns[id], CONSUMER, domain, cells, own.inputs)
    && LocalOk(id, patterns[id], PRODUCER, domain, cells, own.outputs)
  }

  ghost predicate AllLocal(
    patterns: map<string, Instance>, order: seq<string>, domain: nat, cells: map<PortId, nat>,
    local: map<string, LocalBuffers>)
  {
    && (forall id :: id in local <==> id in order)
    && (forall id :: id in local ==> IsLocalTo(patterns, domain, cells, id, local[id]))
  }

  /** Each component's inputs and outputs, at their port numbers. */
  method CreateLocalBuffers(
    patterns: map<string, Instance>, order: seq<string>, domain: nat, cells: map<PortId, nat>)
    returns (local: map<string, LocalBuffers>)
    requires forall id :: id in order ==> id in patterns && IndicesOk(patterns[id])
    ensures AllLocal(patterns, order, domain, cells, local)
  {
    local := map[];
    for k := 0 to |order|
      invariant forall id :: id in local <==> id in order[..k]
      invariant forall id :: id in local ==> IsLocalTo(patterns, domain, cells, id, local[id])
    {
      var inputs := CreateLocalBuffer(order[k], patterns[order[k]], CONSUMER, domain, cells);
      var outputs := CreateLocalBuffer(order[k], patterns[order[k]], PRODUCER, domain, cells);
      local := local[order[k] := LocalBuffers(inputs, outputs)];
      assert order[..k + 1] == order[..k] + [order[k]];
    }
    assert order[..|order|] == order;
  }

  /** Some connected input of the component is found at this cell. */
  ghost predicate ReadsCell(
    patterns: map<string, Instance>, connectedTo: map<PortId, PortId>, domain: nat, id: string,
    inputs: seq<nat>, cell: nat)
    requires id in patterns && patterns[id].Valid()
  {
    exists p: Place :: ReadsCellAt(patterns, connectedTo, domain, id, inputs, cell, p)
  }

  ghost predicate ReadsCellAt(
    patterns: map<string, Instance>, connectedTo: map<PortId, PortId>, domain: nat, id: string,
    inputs: seq<nat>, cell: nat, p: Place)
    requires id in patterns && patterns[id].Valid()
  {
    && IsPlace(patterns[id], CONSUMER, domain, p) && PortIdAt(id, patterns[id], CONSUMER, p) in connectedTo
    && PortIndex(patterns[id], CONSUMER, domain, p) < |inputs|
    && inputs[PortIndex(patterns[id], CONSUMER, domain, p)] == cell
  }

  /** The component's task writes the cell that this output port has. */
  ghost predicate WritesCellAt(
    x: D.Setup, patterns: map<string, Instance>, domain: nat, id: string, outputs: seq<nat>, p: Place)
    requires id in patterns && patterns[id].Valid() && IsPlace(patterns[id], PRODUCER, domain, p)
  {
    var m := PortIndex(patterns[id], PRODUCER, domain, p);
    m < |outputs| && outputs[m] < |x.cells| && x.cells[outputs[m]] == N.Named(id)
  }

  /** A component's buffers are the cells that its task reads and writes in the setup. */
  ghost predicate BuffersFit(
    x: D.Setup, patterns: map<string, Instance>, connectedTo: map<PortId, PortId>, domain: nat, id: string,
    own: LocalBuffers)
    requires id in patterns && patterns[id].Valid()
  {
    && |own.inputs| == Total(patterns[id], CONSUMER, domain)
    && |own.outputs| == Total(patterns[id], PRODUCER, domain)
    && (forall p :: IsPlace(patterns[id], PRODUCER, domain, p) ==>
          WritesCellAt(x, patterns, domain, id, own.outputs, p))
    && (forall cell :: cell in x.Inputs(N.Named(id)) <==>
                       ReadsCell(patterns, connectedTo, domain, id, own.inputs, cell))
  }

  lemma OutputIsWritten(
    x: D.Setup, patterns: map<string, Instance>, domain: nat, cells: map<PortId, nat>,
    producers: set<PortId>, id: string, own: LocalBuffers, p: Place)
    requires id in patterns && IndicesOk(patterns[id]) && IsLocalTo(patterns, domain, cells, id, own)
    requires WritersOk(cells, producers, x.cells) && IsPlace(patterns[id], PRODUCER, domain, p)
    requires PortIdAt(id, patterns[id], PRODUCER, p) in producers
    ensures WritesCellAt(x, patterns, domain, id, own.outputs, p)
  {
    LocalIsAssigned(id, patterns[id], PRODUCER, domain, cells, own.outputs, p);
  }

  lemma InputIsRead(
    x: D.Setup, patterns: map<string, Instance>, connectedTo: map<PortId, PortId>, domain: nat,
    cells: map<PortId, nat>, ids: set<string>, id: string, own: LocalBuffers, cell: nat)
    requires id in patterns && id in ids && IndicesOk(patterns[id]) && IsLocalTo(patterns, domain, cells, id, own)
    requires forall c :: c in connectedTo ==> c in cells && IsInputOf(patterns, domain, c)
    requires x.inputs == InputCells(connectedTo, cells, ids)
    ensures cell in x.Inputs(N.Named(id)) <==> ReadsCell(patterns, connectedTo, domain, id, own.inputs, cell)
  {
    if cell in x.Inputs(N.Named(id)) {
      var c :| c in connectedTo && N.Named(id) == N.Named(c.component) && c in cells && cells[c] == cell;
      var y: nat :| IsPortAt(patterns[id], CONSUMER, domain, c, y);
      var p := Place(c.group, c.instance, y);
      LocalIsAssigned(id, patterns[id], CONSUMER, domain, cells, own.inputs, p);
      assert ReadsCellAt(patterns, connectedTo, domain, id, own.inputs, cell, p);
    }
    if ReadsCell(patterns, connectedTo, domain, id, own.inputs, cell) {
      var p :| ReadsCellAt(patterns, connectedTo, domain, id, own.inputs, cell, p);
      LocalIsAssigned(id, patterns[id], CONSUMER, domain, cells, own.inputs, p);
      assert N.Named(id) in Tasks(ids);
    }
  }

  lemma BuffersDoFit(
    x: D.Setup, patterns: map<string, Instance>, connectedTo: map<PortId, PortId>, order: seq<string>, domain: nat,
    cells: map<PortId, nat>, total: nat, producers: set<PortId>, ids: set<string>, id: string, own: LocalBuffers)
    requires id in patterns && id in ids && id in order && IndicesOk(patterns[id])
    requires IsLocalTo(patterns, domain, cells, id, own)
    requires CellsOk(connectedTo, producers, cells, total) && AreOutputs(patterns, order, domain, producers)
    requires forall c :: c in connectedTo ==> connectedTo[c] in producers && IsInputOf(patterns, domain, c)
    requires WritersOk(cells, producers, x.cells) && x.inputs == InputCells(connectedTo, cells, ids)
    ensures BuffersFit(x, patterns, connectedTo, domain, id, own)
  {
    forall p | IsPlace(patterns[id], PRODUCER, domain, p)
      ensures WritesCellAt(x, patterns, domain, id, own.outputs, p)
    {
      assert IsPortAt(patterns[id], PRODUCER, domain, PortIdAt(id, patterns[id], PRODUCER, p), p.at);
      assert IsOutputOf(patterns, id, domain, PortIdAt(id, patterns[id], PRODUCER, p));
      OutputIsWritten(x, patterns, domain, cells, producers, id, own, p);
    }
    forall cell
      ensures cell in x.Inputs(N.Named(id)) <==> ReadsCell(patterns, connectedTo, domain, id, own.inputs, cell)
    {
      InputIsRead(x, patterns, connectedTo, domain, cells, ids, id, own, cell);
    }
  }

  ghost predicate AllBuffersFit(
    x: D.Setup, patterns: map<string, Instance>, connectedTo: map<PortId, PortId>, domain: nat,
    local: map<string, LocalBuffers>)
  {
    && local.Keys == patterns.Keys
    && forall id :: id in patterns ==>
         patterns[id].Valid() && BuffersFit(x, patterns, connectedTo, domain, id, local[id])
  }

  /** Every connection comes from an output with a cell and goes to an input of the time domain. */
  ghost predicate ConnectionsFit(
    patterns: map<string, Instance>, connectedTo: map<PortId, PortId>, domain: nat, producers: set<PortId>)
  {
    forall c :: c in connectedTo ==> connectedTo[c] in producers && IsInputOf(patterns, domain, c)
  }

  /** What makes the buffers of every component fit the setup. */
  ghost predicate IsWired(
    x: D.Setup, patterns: map<string, Instance>, connectedTo: map<PortId, PortId>, order: seq<string>, domain: nat,
    cells: map<PortId, nat>, total: nat, producers: set<PortId>, ids: set<string>, local: map<string, LocalBuffers>)
  {
    && (forall id :: id in patterns ==> IndicesOk(patterns[id]))
    && (forall id :: id in patterns <==> id in order)
    && patterns.Keys <= ids
    && CellsOk(connectedTo, producers, cells, total) && AreOutputs(patterns, order, domain, producers)
    && ConnectionsFit(patterns, connectedTo, domain, producers)
    && WritersOk(cells, producers, x.cells) && x.inputs == InputCells(connectedTo, cells, ids)
    && AllLocal(patterns, order, domain, cells, local)
  }

  lemma WiredFits(
    x: D.Setup, patterns: map<string, Instance>, connectedTo: map<PortId, PortId>, order: seq<string>, domain: nat,
    cells: map<PortId, nat>, total: nat, producers: set<PortId>, ids: set<string>, local: map<string, LocalBuffers>,
    id: string)
    requires IsWired(x, patterns, connectedTo, order, domain, cells, total, producers, ids, local)
    ensures id in local <==> id in patterns
    ensures id in patterns ==> patterns[id].Valid() && BuffersFit(x, patterns, connectedTo, domain, id, local[id])
  {
    assert id in order <==> id in patterns;
    if id in patterns {
      BuffersDoFit(x, patterns, connectedTo, order, domain, cells, total, producers, ids, id, local[id]);
    }
  }

  lemma AllBuffersDoFit(
    x: D.Setup, patterns: map<string, Instance>, connectedTo: map<PortId, PortId>, order: seq<string>, domain: nat,
    cells: map<PortId, nat>, total: nat, producers: set<PortId>, ids: set<string>, local: map<string, LocalBuffers>)
    requires IsWired(x, patterns, connectedTo, order, domain, cells, total, producers, ids, local)
    ensures AllBuffersFit(x, patterns, connectedTo, domain, local)
  {
    forall id
      ensures id in local <==> id in patterns
      ensures id in patterns ==> patterns[id].Valid() && BuffersFit(x, patterns, connectedTo, domain, id, local[id])
    {
      WiredFits(x, patterns, connectedTo, order, domain, cells, total, producers, ids, local, id);
    }
  }

  /** When no input is left open, a component's input buffers are exactly the cells its task reads. */
  lemma RunnableReadsAll(
    x: D.Setup, patterns: map<string, Instance>, connectedTo: map<PortId, PortId>, domain: nat, id: string,
    own: LocalBuffers, cell: nat)
    requires id in patterns && IndicesOk(patterns[id]) && BuffersFit(x, patterns, connectedTo, domain, id, own)
    requires forall p :: HasPort(patterns, CONSUMER, p) ==> p in connectedTo
    ensures cell in own.inputs <==> cell in x.Inputs(N.Named(id))
  {
    if cell in own.inputs {
      var m: nat :| m < |own.inputs| && own.inputs[m] == cell;
      var p := IndexIsPort(patterns[id], CONSUMER, domain, m);
      var ports := patterns[id].pattern.groups[p.group].consumers;
      FoundFirst(ports, ports[p.at].name, 0);
      assert HasPort(patterns, CONSUMER, PortIdAt(id, patterns[id], CONSUMER, p));
      assert ReadsCellAt(patterns, connectedTo, domain, id, own.inputs, cell, p);
    }
    if cell in x.Inputs(N.Named(id)) {
      var p :| ReadsCellAt(patterns, connectedTo, domain, id, own.inputs, cell, p);
    }
  }

  // ---- all of it -----------------------------------------------------------------------------

  /** The buffers of all components, with the facts about them that the setup needs. */
  method AssignAll(
    patterns: map<string, Instance>, connectedTo: map<PortId, PortId>, components: seq<ComponentInfo>,
    ordered: seq<ComponentInfo>, domain: nat)
    returns (cells: map<PortId, nat>, total: nat, ghost producers: set<PortId>)
    requires IsConnectedGraph(patterns, connectedTo, components, domain) && IsOrdered(components, ordered)
    ensures CellsOk(connectedTo, producers, cells, total)
    ensures AreOutputs(patterns, AllIds(ordered), domain, producers)
    ensures OutputsHaveCells(patterns, connectedTo, AllIds(ordered), domain, cells, total)
    ensures forall p :: p in producers ==> p.component in Ids(components, |components|)
    ensures forall c :: c in connectedTo ==> connectedTo[c] in producers
  {
    OrderedIds(components, ordered);
    cells, total, producers := AssignBuffers(patterns, connectedTo, AllIds(ordered), domain);
    forall c | c in connectedTo
      ensures connectedTo[c] in producers
    {
      ConnectedIsListed(patterns, connectedTo, domain, AllIds(ordered), producers, c);
    }
  }

  /** The wiring of all buffers: the cells of the ports, and where each component finds them. */
  ghost predicate IsWiring(
    patterns: map<string, Instance>, connectedTo: map<PortId, PortId>, order: seq<string>, ids: set<string>,
    domain: nat, cells: map<PortId, nat>, total: nat, producers: set<PortId>, local: map<string, LocalBuffers>)
  {
    && CellsOk(connectedTo, producers, cells, total) && AreOutputs(patterns, order, domain, producers)
    && ConnectionsFit(patterns, connectedTo, domain, producers)
    && (forall p :: p in producers ==> p.component in ids)
    && AllLocal(patterns, order, domain, cells, local)
  }

  method WireAll(
    patterns: map<string, Instance>, connectedTo: map<PortId, PortId>, components: seq<ComponentInfo>,
    ordered: seq<ComponentInfo>, domain: nat)
    returns (cells: map<PortId, nat>, total: nat, local: map<string, LocalBuffers>, ghost producers: set<PortId>)
    requires IsConnectedGraph(patterns, connectedTo, components, domain) && IsOrdered(components, ordered)
    ensures IsWiring(patterns, connectedTo, AllIds(ordered), Ids(components, |components|), domain, cells, total,
                     producers, local)
    ensures OutputsHaveCells(patterns, connectedTo, AllIds(ordered), domain, cells, total)
  {
    cells, total, producers := AssignAll(patterns, connectedTo, components, ordered, domain);
    OrderedIds(components, ordered);
    local := CreateLocalBuffers(patterns, AllIds(ordered), domain, cells);
  }

  lemma WiringFits(
    x: D.Setup, patterns: map<string, Instance>, connectedTo: map<PortId, PortId>, components: seq<ComponentInfo>,
    ordered: seq<ComponentInfo>, ids: set<string>, domain: nat, cells: map<PortId, nat>, total: nat,
    producers: set<PortId>, local: map<string, LocalBuffers>, other: string)
    requires IsConnectedGraph(patterns, connectedTo, components, domain) && IsOrdered(components, ordered)
    requires Ids(components, |components|) <= ids && other in ids
    requires IsWiring(patterns, connectedTo, AllIds(ordered), Ids(components, |components|), domain, cells, total,
                      producers, local)
    requires x.cells == Writers(producers, cells, total, other) && x.inputs == InputCells(connectedTo, cells, ids)
    ensures AllBuffersFit(x, patterns, connectedTo, domain, local)
  {
    WritersAreOk(connectedTo, producers, cells, total, other, ids);
    OrderedIds(components, ordered);
    AllBuffersDoFit(x, patterns, connectedTo, AllIds(ordered), domain, cells, total, producers, ids, local);
  }

  /**
    All the builders in turn, from connected components to a setup that runs. They fail only where
    a synchronous source finds nothing to start it; what they leave otherwise is a setup that the
    theorems about the running dataflow are about.
  */
  method Assemble(
    patterns: map<string, Instance>, connectedTo: map<PortId, PortId>, components: seq<ComponentInfo>,
    ordered: seq<ComponentInfo>, groups: map<string, string>, domain: nat,
    slots: nat, maxOffset: int, sourceMode: E.SourceMode, delta: int)
    returns (
      ok: bool, cells: map<PortId, nat>, local: map<string, LocalBuffers>, sourceCount: nat, ghost x: D.Setup)
    requires IsConnectedGraph(patterns, connectedTo, components, domain) && StartsAtSources(connectedTo, components)
    requires IsOrdered(components, ordered) && NamesApart(Ids(components, |components|), groups)
    requires Acyclic(Contracted(TaskEdges(connectedTo, components), groups))
    requires slots >= 1 && maxOffset >= 0 && delta > 4 * maxOffset
    ensures ok <==> !HasSyncSource(components, |components|) || HasAsyncSource(components)
    ensures sourceCount <= |ordered|
    ensures ok ==> x.Valid() && x.net.n == slots && x.delta == delta
    ensures ok ==> x.config == S.Config(slots, sourceCount, maxOffset, sourceMode, E.WAIT_FOR_EVENT)
    ensures ok ==> forall id :: N.Named(id) in x.net.tasks <==> id in Ids(components, |components|) + groups.Values
    ensures ok ==> forall a, b ::
      (N.Named(a), N.Named(b)) in x.net.edges <==> (a, b) in Rewritten(TaskEdges(connectedTo, components), groups)
    ensures ok ==> SerialAre(x.net.serial, components, groups)
    ensures ok ==> forall k :: 0 <= k < sourceCount ==> x.net.sources[k] == N.Named(ordered[k].id)
    ensures ok ==> x.inputs == InputCells(connectedTo, cells, Ids(components, |components|) + groups.Values)
    ensures ok ==> AllBuffersFit(x, patterns, connectedTo, domain, local)
  {
    ConnectionsComeFrom(patterns, connectedTo, components, domain);
    TasksAcyclic(connectedTo, components);
    var graph: TraactGraph;
    ok, graph := BuildTaskGraph(connectedTo, components, groups);
    NothingInvalid(connectedTo, components, ordered);
    sourceCount := CountSources(Types(ordered));
    var total;
    ghost var producers;
    cells, total, local, producers := WireAll(patterns, connectedTo, components, ordered, domain);
    ghost var sources := SourceIds(ordered, sourceCount);
    SomeSource(connectedTo, components, ordered, sourceCount);
    x := SetupOf(connectedTo, graph.tasks.Keys, graph.edges, graph.serial, sources, cells, total, producers,
                 slots, maxOffset, sourceMode, delta);
    if ok {
      PartsFit(connectedTo, components, groups, graph.tasks.Keys, graph.edges, graph.serial, sources, cells, total,
               producers, slots, maxOffset, sourceMode, delta);
      SerialTasks(components, groups);
      LiftExactly(graph.edges);
      WiringFits(x, patterns, connectedTo, components, ordered, graph.tasks.Keys, domain, cells, total, producers,
                 local, sources[0]);
    }
  }

  /** The tasks in ring order are exactly those of the serial components; no group's task is among them. */
  predicate SerialAre(serial: set<N.Task>, components: seq<ComponentInfo>, groups: map<string, string>) {
    && (forall k :: 0 <= k < |components| ==> (N.Named(components[k].id) in serial <==> components[k].isSerial))
    && (forall g :: g in groups.Values ==> N.Named(g) !in serial)
  }

  lemma SerialTasks(components: seq<ComponentInfo>, groups: map<string, string>)
    requires forall j, k :: 0 <= j < k < |components| ==> components[j].id != components[k].id
    requires NamesApart(Ids(components, |components|), groups)
    ensures SerialAre(Tasks(SerialIds(components, |components|)), components, groups)
  {
    assert SerialIds(components, |components|) <= Ids(components, |components|);
  }

  lemma SomeSource(
    connectedTo: map<PortId, PortId>, components: seq<ComponentInfo>, ordered: seq<ComponentInfo>, count: nat)
    requires StartsAtSources(connectedTo, components) && IsOrdered(components, ordered) && count <= |ordered|
    requires forall k :: 0 <= k < |ordered| ==> (IsSource(Types(ordered)[k]) <==> k < count)
    ensures SourceIds(ordered, count) != []
    ensures forall id :: id in SourceIds(ordered, count) <==> IsSourceOf(components, id)
    ensures SourceIds(ordered, count)[0] in Ids(components, |components|)
  {
    forall id
      ensures id in SourceIds(ordered, count) <==> IsSourceOf(components, id)
    {
      SourcesComeFirst(components, ordered, count, id);
    }
    var k :| 0 <= k < |components| && IsSource(components[k].kind);
    assert IsSourceOf(components, components[k].id);
    assert IsSourceOf(components, SourceIds(ordered, count)[0]);
  }

  /** The flow graph of a well-formed network is always built, and its ordinary links are the network's edges. */
  method BuildFlowGraph(net: N.Network) returns (builder: TaskFlowBuilder)
    requires net.WellFormed()
    ensures fresh(builder) && builder.net == net && builder.SeamsBuilt()
    ensures forall u, v :: Ordinary(u) ==> builder.Links(u, v) == One(net.Edge(u, v))
    ensures forall r :: r in builder.rings <==> net.IsRing(r)
  {
    builder := new TaskFlowBuilder(net);
    var ok := builder.BuildGraph();
    assert ok;
  }
}
