/**
  From connected components to tasks: an edge for every connection, and an edge from the first
  asynchronous source to every synchronous one, which would otherwise wait for nothing.
*/
module ComponentGraphBuilder {
  import opened Digraph
  import opened Cycles
  import opened Patterns
  import opened GraphInstances
  import opened TaskGraphs
  import opened BufferWiring

  datatype ComponentInfo = ComponentInfo(id: string, kind: ComponentType, isSerial: bool)

  predicate HasAsyncSource(components: seq<ComponentInfo>) {
    exists k :: 0 <= k < |components| && components[k].kind == ASYNC_SOURCE
  }

  predicate HasSyncSource(components: seq<ComponentInfo>, n: nat)
    requires n <= |components|
  {
    exists k :: 0 <= k < n && components[k].kind == SYNC_SOURCE
  }

  function FirstAsync(components: seq<ComponentInfo>, k: nat): nat
    requires k <= |components|
    decreases |components| - k
  {
    if k == |components| || components[k].kind == ASYNC_SOURCE then k else FirstAsync(components, k + 1)
  }

  lemma {:induction false} FirstAsyncExists(components: seq<ComponentInfo>, k: nat)
    requires k <= |components|
    ensures k <= FirstAsync(components, k) <= |components|
    ensures FirstAsync(components, k) < |components| ==> components[FirstAsync(components, k)].kind == ASYNC_SOURCE
    ensures forall j :: k <= j < FirstAsync(components, k) ==> components[j].kind != ASYNC_SOURCE
    decreases |components| - k
  {
    if k < |components| && components[k].kind != ASYNC_SOURCE { FirstAsyncExists(components, k + 1); }
  }

  /** The connections that leave the first components of the list. */
  function EdgesFrom(connectedTo: map<PortId, PortId>, components: seq<ComponentInfo>, n: nat): set<(string, string)>
    requires n <= |components|
  {
    set c, k | c in connectedTo && 0 <= k < n && connectedTo[c].component == components[k].id
      :: (connectedTo[c].component, c.component)
  }

  /** The edges that start the synchronous sources of the list. */
  function SyncStarts(start: string, components: seq<ComponentInfo>, n: nat): set<(string, string)>
    requires n <= |components|
  {
    set k | 0 <= k < n && components[k].kind == SYNC_SOURCE :: (start, components[k].id)
  }

  function SerialIds(components: seq<ComponentInfo>, n: nat): set<string>
    requires n <= |components|
  {
    set k | 0 <= k < n && components[k].isSerial :: components[k].id
  }

  ghost predicate Filed(graph: TraactGraph, components: seq<ComponentInfo>, connectedTo: map<PortId, PortId>)
    reads graph
  {
    && (forall k :: 0 <= k < |components| ==> components[k].id in graph.tasks)
    && (forall c :: c in connectedTo ==> c.component in graph.tasks)
  }

  method FindSyncSourceStartPoint(components: seq<ComponentInfo>) returns (start: Option<string>)
    ensures start == if FirstAsync(components, 0) < |components| then Some(components[FirstAsync(components, 0)].id) else None
    ensures start.None? <==> !HasAsyncSource(components)
    ensures start.Some? ==> exists k :: (
      && 0 <= k < |components| && components[k].kind == ASYNC_SOURCE && start.value == components[k].id
      && forall j :: 0 <= j < k ==> components[j].kind != ASYNC_SOURCE)
  {
    FirstAsyncExists(components, 0);
    for k := 0 to |components|
      invariant FirstAsync(components, 0) == FirstAsync(components, k)
    {
      if components[k].kind == ASYNC_SOURCE { return Some(components[k].id); }
    }
    return None;
  }

  /** The names of the first components of the list. */
  function Ids(components: seq<ComponentInfo>, n: nat): set<string>
    requires n <= |components|
  {
    set k | 0 <= k < n :: components[k].id
  }

  lemma OneMoreId(components: seq<ComponentInfo>, k: nat, before: set<string>)
    requires k < |components|
    ensures before + Ids(components, k + 1) == before + Ids(components, k) + {components[k].id}
  {
  }

  /** One task for every component. */
  method CreateTasks(graph: TraactGraph, components: seq<ComponentInfo>)
    requires graph.Valid()
    modifies graph`tasks
    ensures graph.Valid() && graph.tasks.Keys == old(graph.tasks.Keys) + Ids(components, |components|)
    ensures fresh(graph.tasks.Values - old(graph.tasks.Values))
  {
    ghost var before := graph.tasks.Keys;
    for k := 0 to |components|
      invariant graph.Valid() && graph.tasks.Keys == before + Ids(components, k)
      invariant fresh(graph.tasks.Values - old(graph.tasks.Values))
    {
      OneMoreId(components, k, before);
      var _ := graph.AddTask(components[k].id);
    }
  }

  /** An edge for every connection of one component's outputs. */
  method ConnectConsumers(graph: TraactGraph, connectedTo: map<PortId, PortId>, id: string)
    requires graph.Valid() && id in graph.tasks && forall c :: c in connectedTo ==> c.component in graph.tasks
    modifies graph`edges, graph`serial, graph.tasks.Values
    ensures graph.Valid() && graph.serial == old(graph.serial)
    ensures graph.edges == old(graph.edges) + OutEdges(connectedTo, id)
  {
    var rest := OutputsOf(connectedTo, id);
    ghost var done, before := {}, graph.edges;
    while rest != {}
      invariant graph.Valid() && graph.serial == old(graph.serial)
      invariant done + rest == OutputsOf(connectedTo, id)
      invariant graph.edges == before + LinksTo(id, done)
    {
      var c :| c in rest;
      LinkOneMore(id, done, c, before);
      graph.Connect(id, c.component);
      rest, done := rest - {c}, done + {c};
    }
  }

  /** The inputs that one component's outputs are connected to. */
  function OutputsOf(connectedTo: map<PortId, PortId>, id: string): set<PortId> {
    set c | c in connectedTo && connectedTo[c].component == id
  }

  function LinksTo(id: string, inputs: set<PortId>): set<(string, string)> {
    set c | c in inputs :: (id, c.component)
  }

  lemma LinkOneMore(id: string, done: set<PortId>, c: PortId, before: set<(string, string)>)
    ensures before + LinksTo(id, done + {c}) == before + LinksTo(id, done) + {(id, c.component)}
  {
  }

  function OutEdges(connectedTo: map<PortId, PortId>, id: string): set<(string, string)> {
    LinksTo(id, OutputsOf(connectedTo, id))
  }

  /** It fails exactly when a synchronous source finds no asynchronous one to start it. */
  method CreateDependencies(graph: TraactGraph, components: seq<ComponentInfo>, connectedTo: map<PortId, PortId>)
    returns (ok: bool)
    requires graph.Valid() && Filed(graph, components, connectedTo)
    modifies graph`edges, graph`serial, graph.tasks.Values
    ensures graph.Valid()
    ensures ok <==> !HasSyncSource(components, |components|) || HasAsyncSource(components)
    ensures ok ==> graph.serial == old(graph.serial) + SerialIds(components, |components|)
    ensures ok ==> graph.edges == old(graph.edges) + TaskEdges(connectedTo, components)
  {
    FirstAsyncExists(components, 0);
    var start := FindSyncSourceStartPoint(components);
    ok := CreateAllDependencies(graph, components, connectedTo, start);
  }

  method CreateAllDependencies(
    graph: TraactGraph, components: seq<ComponentInfo>, connectedTo: map<PortId, PortId>, start: Option<string>)
    returns (ok: bool)
    requires graph.Valid() && Filed(graph, components, connectedTo) && (start.Some? ==> start.value in graph.tasks)
    modifies graph`edges, graph`serial, graph.tasks.Values
    ensures graph.Valid()
    ensures ok <==> !HasSyncSource(components, |components|) || start.Some?
    ensures ok ==> graph.serial == old(graph.serial) + SerialIds(components, |components|)
    ensures ok ==> graph.edges == old(graph.edges) + PrefixEdges(connectedTo, components, |components|, start)
  {
    ghost var edges, serial := graph.edges, graph.serial;
    for k := 0 to |components|
      invariant graph.Valid()
      invariant HasSyncSource(components, k) ==> start.Some?
      invariant graph.serial == serial + SerialIds(components, k)
      invariant graph.edges == edges + PrefixEdges(connectedTo, components, k, start)
    {
      var connected := CreateNextDependencies(graph, components, connectedTo, start, k, edges, serial);
      if !connected { return false; }
    }
    return true;
  }

  /** After the edges of the first components come those of the next. */
  method CreateNextDependencies(
    graph: TraactGraph, components: seq<ComponentInfo>, connectedTo: map<PortId, PortId>, start: Option<string>, k: nat,
    ghost edges: set<(string, string)>, ghost serial: set<string>)
    returns (ok: bool)
    requires graph.Valid() && Filed(graph, components, connectedTo) && (start.Some? ==> start.value in graph.tasks)
    requires k < |components| && graph.serial == serial + SerialIds(components, k)
    requires graph.edges == edges + PrefixEdges(connectedTo, components, k, start)
    modifies graph`edges, graph`serial, graph.tasks.Values
    ensures graph.Valid()
    ensures ok <==> (components[k].kind == SYNC_SOURCE ==> start.Some?)
    ensures HasSyncSource(components, k + 1) <==> HasSyncSource(components, k) || components[k].kind == SYNC_SOURCE
    ensures ok ==> graph.serial == serial + SerialIds(components, k + 1)
    ensures ok ==> graph.edges == edges + PrefixEdges(connectedTo, components, k + 1, start)
  {
    PrefixGrows(connectedTo, components, k, start);
    ok := CreateTaskDependencies(graph, connectedTo, components[k], start);
  }

  /** One component's edges, and its own ring if it is serial. */
  method CreateTaskDependencies(
    graph: TraactGraph, connectedTo: map<PortId, PortId>, component: ComponentInfo, start: Option<string>)
    returns (ok: bool)
    requires graph.Valid() && component.id in graph.tasks && forall c :: c in connectedTo ==> c.component in graph.tasks
    requires start.Some? ==> start.value in graph.tasks
    modifies graph`edges, graph`serial, graph.tasks.Values
    ensures graph.Valid()
    ensures ok <==> (component.kind == SYNC_SOURCE ==> start.Some?)
    ensures ok ==> graph.serial == old(graph.serial) + if component.isSerial then {component.id} else {}
    ensures ok ==> graph.edges == old(graph.edges) + ComponentEdges(connectedTo, component, start)
  {
    ConnectConsumers(graph, connectedTo, component.id);
    if component.kind == SYNC_SOURCE {
      if start.None? { return false; }
      graph.Connect(start.value, component.id);
    }
    if component.isSerial { graph.MakeSerial(component.id); }
    return true;
  }

  function ComponentEdges(connectedTo: map<PortId, PortId>, component: ComponentInfo, start: Option<string>)
    : set<(string, string)>
  {
    OutEdges(connectedTo, component.id)
    + if component.kind == SYNC_SOURCE && start.Some? then {(start.value, component.id)} else {}
  }

  function PrefixEdges(
    connectedTo: map<PortId, PortId>, components: seq<ComponentInfo>, n: nat, start: Option<string>): set<(string, string)>
    requires n <= |components|
  {
    EdgesFrom(connectedTo, components, n) + if start.Some? then SyncStarts(start.value, components, n) else {}
  }

  function FirstAsyncOf(components: seq<ComponentInfo>): nat
    requires HasAsyncSource(components)
    ensures FirstAsyncOf(components) < |components|
  {
    FirstAsyncExists(components, 0);
    FirstAsync(components, 0)
  }

  /** All the edges that the components bring into the task graph. */
  function TaskEdges(connectedTo: map<PortId, PortId>, components: seq<ComponentInfo>): set<(string, string)> {
    EdgesFrom(connectedTo, components, |components|)
    + if HasAsyncSource(components) then SyncStarts(components[FirstAsyncOf(components)].id, components, |components|) else {}
  }

  lemma PrefixGrows(connectedTo: map<PortId, PortId>, components: seq<ComponentInfo>, k: nat, start: Option<string>)
    requires k < |components|
    ensures PrefixEdges(connectedTo, components, k + 1, start)
         == PrefixEdges(connectedTo, components, k, start) + ComponentEdges(connectedTo, components[k], start)
    ensures SerialIds(components, k + 1) == SerialIds(components, k)
         + if components[k].isSerial then {components[k].id} else {}
    ensures HasSyncSource(components, k + 1) <==> HasSyncSource(components, k) || components[k].kind == SYNC_SOURCE
  {
    OutEdgesGrow(connectedTo, components, k);
    if start.Some? { SyncStartsGrow(start.value, components, k); }
  }

  lemma OutEdgesGrow(connectedTo: map<PortId, PortId>, components: seq<ComponentInfo>, k: nat)
    requires k < |components|
    ensures EdgesFrom(connectedTo, components, k + 1)
         == EdgesFrom(connectedTo, components, k) + OutEdges(connectedTo, components[k].id)
  {
  }

  lemma SyncStartsGrow(start: string, components: seq<ComponentInfo>, k: nat)
    requires k < |components|
    ensures SyncStarts(start, components, k + 1) == SyncStarts(start, components, k)
         + if components[k].kind == SYNC_SOURCE then {(start, components[k].id)} else {}
  {
  }

  // ---- acyclicity ----------------------------------------------------------------------------

  /** All connections leave components of the list. */
  predicate ComesFrom(connectedTo: map<PortId, PortId>, components: seq<ComponentInfo>) {
    forall c :: c in connectedTo ==>
      exists k :: 0 <= k < |components| && components[k].id == connectedTo[c].component
  }

  function SyncIds(components: seq<ComponentInfo>): set<string> {
    set k | 0 <= k < |components| && components[k].kind == SYNC_SOURCE :: components[k].id
  }

  lemma TaskEdgesAreStar(connectedTo: map<PortId, PortId>, components: seq<ComponentInfo>)
    requires ComesFrom(connectedTo, components) && HasAsyncSource(components)
    ensures TaskEdges(connectedTo, components)
         == EdgesOf(connectedTo) + Star(components[FirstAsyncOf(components)].id, SyncIds(components))
  {
    var start := components[FirstAsyncOf(components)].id;
    assert EdgesFrom(connectedTo, components, |components|) == EdgesOf(connectedTo);
    assert SyncStarts(start, components, |components|) == Star(start, SyncIds(components));
  }

  /**
    The task graph is acyclic exactly when the components are and no synchronous source leads to the
    asynchronous source that starts it.
  */
  lemma TaskGraphAcyclic(connectedTo: map<PortId, PortId>, components: seq<ComponentInfo>)
    requires ComesFrom(connectedTo, components) && HasAsyncSource(components)
    ensures var start := components[FirstAsyncOf(components)].id;
      Acyclic(TaskEdges(connectedTo, components)) <==>
        && Acyclic(EdgesOf(connectedTo))
        && forall id :: id in SyncIds(components) ==> id != start && !Reaches(EdgesOf(connectedTo), id, start)
  {
    TaskEdgesAreStar(connectedTo, components);
    StarExact(EdgesOf(connectedTo), components[FirstAsyncOf(components)].id, SyncIds(components));
  }

  /** In particular when the asynchronous source, as a source should, has no inputs. */
  lemma SourceWithoutInputs(connectedTo: map<PortId, PortId>, components: seq<ComponentInfo>)
    requires ComesFrom(connectedTo, components) && HasAsyncSource(components) && Acyclic(EdgesOf(connectedTo))
    requires forall j, k :: 0 <= j < k < |components| ==> components[j].id != components[k].id
    requires forall c :: c in connectedTo ==> c.component != components[FirstAsyncOf(components)].id
    ensures Acyclic(TaskEdges(connectedTo, components))
  {
    var start := components[FirstAsyncOf(components)].id;
    FirstAsyncExists(components, 0);
    forall id | id in SyncIds(components)
      ensures id != start && !Reaches(EdgesOf(connectedTo), id, start)
    {
      if Reaches(EdgesOf(connectedTo), id, start) {
        var w := ReachesLast(EdgesOf(connectedTo), id, start);
        assert false;
      }
    }
    TaskGraphAcyclic(connectedTo, components);
  }
}
