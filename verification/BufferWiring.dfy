/**
  Wiring the buffers of a time step. Every output port gets a cell of its own, an input port gets
  the cell of the output it is connected to, and each component finds its cells at its port numbers.
*/
module BufferWiring {
  import opened Patterns
  import opened PortIndices
  import opened GraphInstances

  // ---- the order of components ---------------------------------------------------------------

  datatype ComponentType =
    | INVALID | ASYNC_SOURCE | INTERNAL_SYNC_SOURCE | SYNC_SOURCE | SYNC_FUNCTIONAL | ASYNC_FUNCTIONAL
    | SYNC_SINK | ASYNC_SINK

  /** The order that components are sorted by. */
  function Rank(t: ComponentType): nat {
    match t
    case INVALID => 0
    case ASYNC_SOURCE => 1
    case INTERNAL_SYNC_SOURCE => 2
    case SYNC_SOURCE => 3
    case SYNC_FUNCTIONAL => 4
    case ASYNC_FUNCTIONAL => 5
    case SYNC_SINK => 6
    case ASYNC_SINK => 7
  }

  /** The components that wait for outside data. */
  predicate IsSource(t: ComponentType) {
    t == ASYNC_SOURCE || t == INTERNAL_SYNC_SOURCE
  }

  predicate SortedByType(types: seq<ComponentType>) {
    forall i, j :: 0 <= i < j < |types| ==> Rank(types[i]) <= Rank(types[j])
  }

  /** In sorted order all that waits for outside data comes first and all that only consumes comes last. */
  lemma SortedKinds(types: seq<ComponentType>, j: nat, k: nat)
    requires SortedByType(types) && INVALID !in types && j < k < |types|
    ensures IsSource(types[k]) ==> IsSource(types[j])
    ensures types[k] == SYNC_SOURCE ==> IsSource(types[j]) || types[j] == SYNC_SOURCE
    ensures types[j] == SYNC_SINK || types[j] == ASYNC_SINK ==> types[k] == SYNC_SINK || types[k] == ASYNC_SINK
  {
    assert types[j] in types;
  }

  lemma NoSourceAfter(types: seq<ComponentType>, j: nat, k: nat)
    requires SortedByType(types) && INVALID !in types && j < k < |types| && !IsSource(types[j])
    ensures !IsSource(types[k])
  {
    assert types[j] in types;
  }

  /** In sorted order the sources are exactly the first components, so their index is a source index. */
  method CountSources(types: seq<ComponentType>) returns (count: nat)
    requires SortedByType(types) && INVALID !in types
    ensures count <= |types|
    ensures forall k :: 0 <= k < |types| ==> (IsSource(types[k]) <==> k < count)
  {
    var asyncSources, internalSources := 0, 0;
    for k := 0 to |types|
      invariant asyncSources + internalSources <= k
      invariant forall j :: 0 <= j < k ==> (IsSource(types[j]) <==> j < asyncSources + internalSources)
    {
      var seen := asyncSources + internalSources;
      if seen < k { NoSourceAfter(types, seen, k); }
      if types[k] == ASYNC_SOURCE { asyncSources := asyncSources + 1; }
      if types[k] == INTERNAL_SYNC_SOURCE { internalSources := internalSources + 1; }
    }
    count := asyncSources + internalSources;
  }

  // ---- listing ports -------------------------------------------------------------------------

  function PortIdAt(id: string, component: Instance, kind: PortKind, p: Place): PortId
    requires component.HasGroup(p.group, p.instance) && p.at < |component.pattern.groups[p.group].Ports(kind)|
  {
    PortId(id, p.group, p.instance, component.pattern.groups[p.group].Ports(kind)[p.at].name)
  }

  /** The m-th port listed is the one with number m. */
  ghost predicate Numbered(component: Instance, kind: PortKind, domain: nat, places: seq<Place>)
    requires component.Valid()
  {
    forall m: nat :: m < |places| ==> IsNumbered(component, kind, domain, places, m)
  }

  ghost predicate IsNumbered(component: Instance, kind: PortKind, domain: nat, places: seq<Place>, m: nat)
    requires component.Valid() && m < |places|
  {
    IsPlace(component, kind, domain, places[m]) && PortIndex(component, kind, domain, places[m]) == m
  }

  /** Walks over groups, copies and ports in order; the list follows the port numbers. */
  method ListPorts(component: Instance, kind: PortKind, domain: nat) returns (places: seq<Place>)
    requires IndicesOk(component)
    ensures Numbered(component, kind, domain, places) && |places| == Total(component, kind, domain)
  {
    places := [];
    for g := 0 to |component.pattern.groups|
      invariant Numbered(component, kind, domain, places) && |places| == GroupStart(component, kind, domain, g)
    {
      for i := 0 to component.counts[g]
        invariant Numbered(component, kind, domain, places)
        invariant |places| == GroupStart(component, kind, domain, g) + Copies(i, GroupCount(component, kind, domain, g))
      {
        places := ListGroup(component, kind, domain, g, i, places);
      }
    }
  }

  method ListGroup(component: Instance, kind: PortKind, domain: nat, g: nat, i: nat, before: seq<Place>)
    returns (places: seq<Place>)
    requires IndicesOk(component) && component.HasGroup(g, i) && Numbered(component, kind, domain, before)
    requires |before| == GroupStart(component, kind, domain, g) + Copies(i, GroupCount(component, kind, domain, g))
    ensures Numbered(component, kind, domain, places)
    ensures |places| == |before| + GroupCount(component, kind, domain, g)
  {
    var ports := component.pattern.groups[g].Ports(kind);
    places := before;
    for x := 0 to |ports|
      invariant Numbered(component, kind, domain, places) && |places| == |before| + PortCount(ports[..x], domain)
    {
      OneMorePort(ports, x, domain);
      if ports[x].timeDomain == domain {
        NextNumber(component, kind, domain, g, i, x, |before|);
        AppendNumbered(component, kind, domain, places, Place(g, i, x));
        places := places + [Place(g, i, x)];
      }
    }
    assert ports[..|ports|] == ports;
  }

  lemma OneMorePort(ports: seq<Port>, x: nat, domain: nat)
    requires x < |ports|
    ensures PortCount(ports[..x + 1], domain) == PortCount(ports[..x], domain) + if ports[x].timeDomain == domain then 1 else 0
  {
    assert ports[..x + 1][..x] == ports[..x];
  }

  /** The number of a port follows from the ports of its group that come before it. */
  lemma NextNumber(component: Instance, kind: PortKind, domain: nat, g: nat, i: nat, x: nat, before: nat)
    requires IndicesOk(component) && component.HasGroup(g, i)
    requires before == GroupStart(component, kind, domain, g) + Copies(i, GroupCount(component, kind, domain, g))
    requires x < |component.pattern.groups[g].Ports(kind)|
    requires component.pattern.groups[g].Ports(kind)[x].timeDomain == domain
    ensures IsPlace(component, kind, domain, Place(g, i, x))
    ensures PortIndex(component, kind, domain, Place(g, i, x))
         == before + PortCount(component.pattern.groups[g].Ports(kind)[..x], domain)
  {
    assert GroupOk(component.pattern.groups[g]);
  }

  lemma AppendNumbered(component: Instance, kind: PortKind, domain: nat, places: seq<Place>, p: Place)
    requires component.Valid() && Numbered(component, kind, domain, places)
    requires IsPlace(component, kind, domain, p) && PortIndex(component, kind, domain, p) == |places|
    ensures Numbered(component, kind, domain, places + [p])
  {
    forall m: nat | m < |places + [p]|
      ensures IsNumbered(component, kind, domain, places + [p], m)
    {
      if m < |places| { assert IsNumbered(component, kind, domain, places, m); }
    }
  }

  // ---- cells ---------------------------------------------------------------------------------

  /** Which cell each port uses; `producers` are the output ports seen so far. */
  ghost predicate CellsOk(
    connectedTo: map<PortId, PortId>, producers: set<PortId>, cells: map<PortId, nat>, count: nat)
  {
    && (forall p :: p in producers ==> p in cells && cells[p] < count)
    && (forall p, q :: p in producers && q in producers && cells[p] == cells[q] ==> p == q)
    && (forall c :: c in connectedTo && connectedTo[c] in producers ==> c in cells && cells[c] == cells[connectedTo[c]])
  }

  /** A new output port gets the next cell, and so do the inputs connected to it. */
  method AssignCell(
    connectedTo: map<PortId, PortId>, ghost producers: set<PortId>, cells: map<PortId, nat>, count: nat, p: PortId)
    returns (more: map<PortId, nat>)
    requires CellsOk(connectedTo, producers, cells, count) && p !in producers
    requires forall c :: c in connectedTo ==> c !in producers && c != p
    ensures CellsOk(connectedTo, producers + {p}, more, count + 1)
  {
    more := cells[p := count];
    var rest := Consumers(connectedTo, p);
    while rest != {}
      invariant rest <= Consumers(connectedTo, p)
      invariant forall q :: q in producers ==> q in more && more[q] == cells[q]
      invariant p in more && more[p] == count
      invariant forall c :: c in Consumers(connectedTo, p) - rest ==> c in more && more[c] == count
      invariant forall c :: c in connectedTo && connectedTo[c] in producers ==> c in more && more[c] == cells[c]
    {
      var c :| c in rest;
      more := more[c := count];
      rest := rest - {c};
    }
  }

  /** Some component of the list has this output port. */
  ghost predicate IsOutput(patterns: map<string, Instance>, order: seq<string>, domain: nat, p: PortId) {
    exists k :: 0 <= k < |order| && IsOutputOf(patterns, order[k], domain, p)
  }

  ghost predicate IsOutputOf(patterns: map<string, Instance>, id: string, domain: nat, p: PortId) {
    id in patterns && p.component == id && exists x: nat :: IsPortAt(patterns[id], PRODUCER, domain, p, x)
  }

  predicate IsPortAt(component: Instance, kind: PortKind, domain: nat, p: PortId, x: nat) {
    var place := Place(p.group, p.instance, x);
    IsPlace(component, kind, domain, place) && component.pattern.groups[p.group].Ports(kind)[x].name == p.name
  }

  /** Different ports of a component have different identifiers. */
  lemma IdentifiersDiffer(id: string, component: Instance, kind: PortKind, domain: nat, p: Place, q: Place)
    requires IndicesOk(component) && p != q
    requires IsPlace(component, kind, domain, p) && IsPlace(component, kind, domain, q)
    ensures PortIdAt(id, component, kind, p) != PortIdAt(id, component, kind, q)
  {
    if p.group == q.group && p.instance == q.instance && PortIdAt(id, component, kind, p).name == PortIdAt(id, component, kind, q).name {
      NamesInjective(component.pattern.groups[p.group], kind, p.at, q.at);
    }
  }

  lemma NamesInjective(group: PortGroup, kind: PortKind, x: nat, y: nat)
    requires GroupOk(group) && x < |group.Ports(kind)| && y < |group.Ports(kind)|
    requires group.Ports(kind)[x].name == group.Ports(kind)[y].name
    ensures x == y
  {
    var all := group.producers + group.consumers;
    var shift := if kind == PRODUCER then 0 else |group.producers|;
    assert all[x + shift] == group.Ports(kind)[x] && all[y + shift] == group.Ports(kind)[y];
  }

  /** Every port of the component is listed, at its number. */
  lemma ListedComplete(component: Instance, kind: PortKind, domain: nat, places: seq<Place>, p: Place)
    requires IndicesOk(component) && IsPlace(component, kind, domain, p)
    requires Numbered(component, kind, domain, places) && |places| == Total(component, kind, domain)
    ensures PortIndex(component, kind, domain, p) < |places| && places[PortIndex(component, kind, domain, p)] == p
  {
    var m := PortIndex(component, kind, domain, p);
    IndicesIncrease(component, kind, domain, p, p);
    assert IsNumbered(component, kind, domain, places, m);
    IndicesInjective(component, kind, domain, p, places[m]);
  }

  ghost function Identifiers(id: string, component: Instance, kind: PortKind, domain: nat, places: seq<Place>, k: nat)
    : set<PortId>
    requires component.Valid() && Numbered(component, kind, domain, places) && k <= |places|
  {
    set m: nat | m < k && IsNumbered(component, kind, domain, places, m) :: PortIdAt(id, component, kind, places[m])
  }

  /** An input port's identifier is no output port's. */
  ghost predicate Separate(connectedTo: map<PortId, PortId>, patterns: map<string, Instance>) {
    forall c :: c in connectedTo ==> !HasPort(patterns, PRODUCER, c)
  }

  lemma InputsAreSeparate(patterns: map<string, Instance>, connectedTo: map<PortId, PortId>)
    requires Wired(patterns, connectedTo) && forall id :: id in patterns ==> IndicesOk(patterns[id])
    ensures Separate(connectedTo, patterns)
  {
    assert forall id :: id in patterns ==> NamesOk(patterns[id]);
    forall c | c in connectedTo
      ensures !HasPort(patterns, PRODUCER, c)
    {
      if HasPort(patterns, PRODUCER, c) {
        var group := patterns[c.component].pattern.groups[c.group];
        FoundFirst(group.producers, c.name, 0);
        FoundFirst(group.consumers, c.name, 0);
        var i :| 0 <= i < |group.producers| && group.producers[i].name == c.name;
        var j :| 0 <= j < |group.consumers| && group.consumers[j].name == c.name;
        NamesDiffer(group, i, j);
        assert false;
      }
    }
  }

  lemma ListedIsProducer(patterns: map<string, Instance>, id: string, domain: nat, p: Place)
    requires id in patterns && IsPlace(patterns[id], PRODUCER, domain, p)
    ensures HasPort(patterns, PRODUCER, PortIdAt(id, patterns[id], PRODUCER, p))
  {
    var ports := patterns[id].pattern.groups[p.group].producers;
    FoundFirst(ports, ports[p.at].name, 0);
  }

  /** Gives every output port of a component, and all inputs connected to it, a cell. */
  method AssignComponent(
    patterns: map<string, Instance>, connectedTo: map<PortId, PortId>, id: string, domain: nat,
    ghost producers: set<PortId>, cells: map<PortId, nat>, count: nat)
    returns (more: map<PortId, nat>, newCount: nat, ghost all: set<PortId>)
    requires id in patterns && IndicesOk(patterns[id]) && Separate(connectedTo, patterns)
    requires CellsOk(connectedTo, producers, cells, count)
    requires forall p :: p in producers ==> p.component != id && HasPort(patterns, PRODUCER, p)
    ensures CellsOk(connectedTo, all, more, newCount)
    ensures newCount == count + Total(patterns[id], PRODUCER, domain)
    ensures forall p :: p in all <==> p in producers || IsOutputOf(patterns, id, domain, p)
    ensures forall p :: p in all ==> HasPort(patterns, PRODUCER, p)
  {
    var component := patterns[id];
    var places := ListPorts(component, PRODUCER, domain);
    more, newCount, all := cells, count, producers;
    for k := 0 to |places|
      invariant CellsOk(connectedTo, all, more, newCount) && newCount == count + k
      invariant all == producers + Identifiers(id, component, PRODUCER, domain, places, k)
      invariant forall p :: p in all ==> HasPort(patterns, PRODUCER, p)
    {
      assert IsNumbered(component, PRODUCER, domain, places, k);
      var p := PortIdAt(id, component, PRODUCER, places[k]);
      ListedIsProducer(patterns, id, domain, places[k]);
      NotListedYet(id, component, PRODUCER, domain, places, k);
      more := AssignCell(connectedTo, all, more, newCount, p);
      newCount, all := newCount + 1, all + {p};
    }
    forall p
      ensures p in Identifiers(id, component, PRODUCER, domain, places, |places|) <==> IsOutputOf(patterns, id, domain, p)
    {
      IdentifiersAreOutputs(patterns, id, domain, places, p);
    }
  }

  lemma NotListedYet(id: string, component: Instance, kind: PortKind, domain: nat, places: seq<Place>, k: nat)
    requires IndicesOk(component) && Numbered(component, kind, domain, places) && k < |places|
    requires IsNumbered(component, kind, domain, places, k)
    ensures PortIdAt(id, component, kind, places[k]) !in Identifiers(id, component, kind, domain, places, k)
    ensures Identifiers(id, component, kind, domain, places, k + 1)
         == Identifiers(id, component, kind, domain, places, k) + {PortIdAt(id, component, kind, places[k])}
  {
    var p := PortIdAt(id, component, kind, places[k]);
    if p in Identifiers(id, component, kind, domain, places, k) {
      var m: nat :| m < k && IsNumbered(component, kind, domain, places, m)
                    && PortIdAt(id, component, kind, places[m]) == p;
      IdentifiersDiffer(id, component, kind, domain, places[m], places[k]);
    }
    OneMore(id, component, kind, domain, places, k);
  }

  lemma OneMore(id: string, component: Instance, kind: PortKind, domain: nat, places: seq<Place>, k: nat)
    requires component.Valid() && Numbered(component, kind, domain, places) && k < |places|
    requires IsNumbered(component, kind, domain, places, k)
    ensures Identifiers(id, component, kind, domain, places, k + 1)
         == Identifiers(id, component, kind, domain, places, k) + {PortIdAt(id, component, kind, places[k])}
  {
  }

  lemma IdentifiersAreOutputs(patterns: map<string, Instance>, id: string, domain: nat, places: seq<Place>, p: PortId)
    requires id in patterns && IndicesOk(patterns[id])
    requires Numbered(patterns[id], PRODUCER, domain, places) && |places| == Total(patterns[id], PRODUCER, domain)
    ensures p in Identifiers(id, patterns[id], PRODUCER, domain, places, |places|)
            <==> IsOutputOf(patterns, id, domain, p)
  {
    if IsOutputOf(patterns, id, domain, p) {
      var x: nat :| IsPortAt(patterns[id], PRODUCER, domain, p, x);
      var place := Place(p.group, p.instance, x);
      ListedComplete(patterns[id], PRODUCER, domain, places, place);
      assert IsNumbered(patterns[id], PRODUCER, domain, places, PortIndex(patterns[id], PRODUCER, domain, place));
    }
    if p in Identifiers(id, patterns[id], PRODUCER, domain, places, |places|) {
      var m: nat :| m < |places| && IsNumbered(patterns[id], PRODUCER, domain, places, m)
                    && p == PortIdAt(id, patterns[id], PRODUCER, places[m]);
      assert IsPortAt(patterns[id], PRODUCER, domain, p, places[m].at);
    }
  }

  /** Component by component in sorted order: every output port of the time domain has its own cell. */
  method AssignBuffers(
    patterns: map<string, Instance>, connectedTo: map<PortId, PortId>, order: seq<string>, domain: nat)
    returns (cells: map<PortId, nat>, count: nat, ghost producers: set<PortId>)
    requires Wired(patterns, connectedTo)
    requires forall id :: id in patterns ==> IndicesOk(patterns[id])
    requires forall k :: 0 <= k < |order| ==> order[k] in patterns
    requires forall j, k :: 0 <= j < k < |order| ==> order[j] != order[k]
    ensures CellsOk(connectedTo, producers, cells, count) && AreOutputs(patterns, order, domain, producers)
    ensures OutputsHaveCells(patterns, connectedTo, order, domain, cells, count)
    ensures count == CellCount(patterns, order, domain)
  {
    InputsAreSeparate(patterns, connectedTo);
    cells, count, producers := map[], 0, {};
    for k := 0 to |order|
      invariant CellsOk(connectedTo, producers, cells, count)
      invariant AreOutputs(patterns, order[..k], domain, producers)
      invariant forall p :: p in producers ==> HasPort(patterns, PRODUCER, p)
      invariant count == CellCount(patterns, order[..k], domain)
    {
      OthersSoFar(patterns, order, k, domain, producers);
      ghost var before := producers;
      cells, count, producers := AssignComponent(patterns, connectedTo, order[k], domain, producers, cells, count);
      OutputsGrow(patterns, order, k, domain, before, producers);
    }
    assert order[..|order|] == order;
    CellsOfOutputs(patterns, connectedTo, order, domain, producers, cells, count);
  }

  /** Each output port of the listed components has a cell of its own, and a connected input its producer's. */
  ghost predicate OutputsHaveCells(
    patterns: map<string, Instance>, connectedTo: map<PortId, PortId>, order: seq<string>, domain: nat,
    cells: map<PortId, nat>, count: nat)
  {
    && (forall p :: IsOutput(patterns, order, domain, p) ==> p in cells && cells[p] < count)
    && (forall p, q :: IsOutput(patterns, order, domain, p) && IsOutput(patterns, order, domain, q) && p != q
                       ==> cells[p] != cells[q])
    && (forall c :: c in connectedTo && IsOutput(patterns, order, domain, connectedTo[c])
                    ==> c in cells && cells[c] == cells[connectedTo[c]])
  }

  lemma CellsOfOutputs(
    patterns: map<string, Instance>, connectedTo: map<PortId, PortId>, order: seq<string>, domain: nat,
    producers: set<PortId>, cells: map<PortId, nat>, count: nat)
    requires CellsOk(connectedTo, producers, cells, count) && AreOutputs(patterns, order, domain, producers)
    ensures OutputsHaveCells(patterns, connectedTo, order, domain, cells, count)
  {
  }

  ghost predicate AreOutputs(
    patterns: map<string, Instance>, order: seq<string>, domain: nat, producers: set<PortId>)
  {
    forall p :: p in producers <==> IsOutput(patterns, order, domain, p)
  }

  lemma OthersSoFar(
    patterns: map<string, Instance>, order: seq<string>, k: nat, domain: nat, producers: set<PortId>)
    requires k < |order| && AreOutputs(patterns, order[..k], domain, producers)
    requires forall i, j :: 0 <= i < j < |order| ==> order[i] != order[j]
    ensures forall p :: p in producers ==> p.component != order[k]
  {
    forall p | p in producers
      ensures p.component != order[k]
    {
      var j :| 0 <= j < k && IsOutputOf(patterns, order[..k][j], domain, p);
      assert order[j] == order[..k][j];
    }
  }

  lemma OutputsGrow(
    patterns: map<string, Instance>, order: seq<string>, k: nat, domain: nat, before: set<PortId>, all: set<PortId>)
    requires k < |order| && AreOutputs(patterns, order[..k], domain, before)
    requires forall i :: 0 <= i < |order| ==> order[i] in patterns && patterns[order[i]].Valid()
    requires forall p :: p in all <==> p in before || IsOutputOf(patterns, order[k], domain, p)
    ensures AreOutputs(patterns, order[..k + 1], domain, all)
    ensures CellCount(patterns, order[..k + 1], domain)
         == CellCount(patterns, order[..k], domain) + Total(patterns[order[k]], PRODUCER, domain)
  {
    forall p
      ensures p in all <==> IsOutput(patterns, order[..k + 1], domain, p)
    {
      OutputsSplit(patterns, order, k, domain, p);
    }
    assert order[..k + 1][..k] == order[..k];
  }

  /** The output ports of the listed components, added up. */
  ghost function CellCount(patterns: map<string, Instance>, order: seq<string>, domain: nat): nat
    requires forall k :: 0 <= k < |order| ==> order[k] in patterns && patterns[order[k]].Valid()
  {
    if order == [] then 0
    else CellCount(patterns, order[..|order| - 1], domain) + Total(patterns[order[|order| - 1]], PRODUCER, domain)
  }

  lemma OutputsSplit(patterns: map<string, Instance>, order: seq<string>, k: nat, domain: nat, p: PortId)
    requires k < |order|
    ensures IsOutput(patterns, order[..k + 1], domain, p)
            <==> IsOutput(patterns, order[..k], domain, p) || IsOutputOf(patterns, order[k], domain, p)
  {
    if IsOutput(patterns, order[..k], domain, p) {
      var j :| 0 <= j < k && IsOutputOf(patterns, order[..k][j], domain, p);
      assert order[..k + 1][j] == order[..k][j];
    }
    if IsOutputOf(patterns, order[k], domain, p) { assert order[..k + 1][k] == order[k]; }
    if IsOutput(patterns, order[..k + 1], domain, p) {
      var j :| 0 <= j < k + 1 && IsOutputOf(patterns, order[..k + 1][j], domain, p);
      if j < k { assert order[..k][j] == order[..k + 1][j]; }
    }
  }

  // ---- a component's own buffers -------------------------------------------------------------

  /** A port without a cell uses the first one, which only an unconnected input can be. */
  predicate IsCellOf(cells: map<PortId, nat>, p: PortId, cell: nat) {
    (p in cells ==> cell == cells[p]) && (p !in cells ==> cell == 0)
  }

  /** The component finds each port's cell at the port's number. */
  ghost predicate LocalOk(
    id: string, component: Instance, kind: PortKind, domain: nat, cells: map<PortId, nat>, local: seq<nat>)
    requires component.Valid()
  {
    && |local| == Total(component, kind, domain)
    && forall m: nat :: m < |local| ==> IsLocal(id, component, kind, domain, cells, local, m)
  }

  ghost predicate IsLocal(
    id: string, component: Instance, kind: PortKind, domain: nat, cells: map<PortId, nat>, local: seq<nat>, m: nat)
    requires component.Valid() && m < |local|
  {
    forall p: Place :: IsPlace(component, kind, domain, p) && PortIndex(component, kind, domain, p) == m ==>
      IsCellOf(cells, PortIdAt(id, component, kind, p), local[m])
  }

  /** Scatters the cells to the port numbers. */
  method CreateLocalBuffer(id: string, component: Instance, kind: PortKind, domain: nat, cells: map<PortId, nat>)
    returns (local: seq<nat>)
    requires IndicesOk(component)
    ensures LocalOk(id, component, kind, domain, cells, local)
  {
    var places := ListPorts(component, kind, domain);
    local := seq(|places|, _ => 0);
    for k := 0 to |places|
      invariant |local| == |places|
      invariant forall m: nat :: m < k ==> IsCellOf(cells, ListedId(id, component, kind, domain, places, m), local[m])
    {
      assert IsNumbered(component, kind, domain, places, k);
      var index := PortIndex(component, kind, domain, places[k]);
      var p := PortIdAt(id, component, kind, places[k]);
      local := local[index := if p in cells then cells[p] else 0];
    }
    forall m: nat, p: Place | m < |local| && IsPlace(component, kind, domain, p) && PortIndex(component, kind, domain, p) == m
      ensures IsCellOf(cells, PortIdAt(id, component, kind, p), local[m])
    {
      ListedComplete(component, kind, domain, places, p);
      assert IsNumbered(component, kind, domain, places, m);
      assert IsCellOf(cells, ListedId(id, component, kind, domain, places, m), local[m]);
    }
  }

  ghost function ListedId(id: string, component: Instance, kind: PortKind, domain: nat, places: seq<Place>, m: nat): PortId
    requires component.Valid() && Numbered(component, kind, domain, places) && m < |places|
  {
    assert IsNumbered(component, kind, domain, places, m);
    PortIdAt(id, component, kind, places[m])
  }

  /** What a component finds at a port's number is the cell that was assigned to that very port. */
  lemma LocalIsAssigned(
    id: string, component: Instance, kind: PortKind, domain: nat, cells: map<PortId, nat>, local: seq<nat>, p: Place)
    requires IndicesOk(component) && LocalOk(id, component, kind, domain, cells, local)
    requires IsPlace(component, kind, domain, p) && PortIdAt(id, component, kind, p) in cells
    ensures PortIndex(component, kind, domain, p) < |local|
    ensures local[PortIndex(component, kind, domain, p)] == cells[PortIdAt(id, component, kind, p)]
  {
    IndicesIncrease(component, kind, domain, p, p);
    assert IsLocal(id, component, kind, domain, cells, local, PortIndex(component, kind, domain, p));
  }

  /** Every output of a listed component, and every input connected to one, lies below the number of cells. */
  lemma LocalExists(
    patterns: map<string, Instance>, connectedTo: map<PortId, PortId>, order: seq<string>, domain: nat,
    cells: map<PortId, nat>, count: nat, id: string, kind: PortKind, local: seq<nat>, p: Place)
    requires OutputsHaveCells(patterns, connectedTo, order, domain, cells, count)
    requires id in patterns && id in order && IndicesOk(patterns[id])
    requires LocalOk(id, patterns[id], kind, domain, cells, local) && IsPlace(patterns[id], kind, domain, p)
    requires kind == CONSUMER ==>
      var c := PortIdAt(id, patterns[id], kind, p); c in connectedTo && IsOutput(patterns, order, domain, connectedTo[c])
    ensures PortIdAt(id, patterns[id], kind, p) in cells
    ensures PortIndex(patterns[id], kind, domain, p) < |local|
    ensures local[PortIndex(patterns[id], kind, domain, p)] < count
  {
    var q := PortIdAt(id, patterns[id], kind, p);
    if kind == PRODUCER {
      assert IsPortAt(patterns[id], PRODUCER, domain, q, p.at);
      assert IsOutputOf(patterns, id, domain, q);
    }
    LocalIsAssigned(id, patterns[id], kind, domain, cells, local, p);
  }

  /** A component's input cell is the output cell of the producer it is connected to. */
  lemma InputReadsItsProducer(
    patterns: map<string, Instance>, connectedTo: map<PortId, PortId>, cells: map<PortId, nat>, count: nat,
    producers: set<PortId>, domain: nat, from: string, p: Place, to: string, c: Place, output: seq<nat>, input: seq<nat>)
    requires from in patterns && to in patterns && IndicesOk(patterns[from]) && IndicesOk(patterns[to])
    requires CellsOk(connectedTo, producers, cells, count)
    requires IsPlace(patterns[from], PRODUCER, domain, p) && IsPlace(patterns[to], CONSUMER, domain, c)
    requires PortIdAt(from, patterns[from], PRODUCER, p) in producers
    requires PortIdAt(to, patterns[to], CONSUMER, c) in connectedTo
    requires connectedTo[PortIdAt(to, patterns[to], CONSUMER, c)] == PortIdAt(from, patterns[from], PRODUCER, p)
    requires LocalOk(from, patterns[from], PRODUCER, domain, cells, output)
    requires LocalOk(to, patterns[to], CONSUMER, domain, cells, input)
    ensures PortIndex(patterns[from], PRODUCER, domain, p) < |output| && PortIndex(patterns[to], CONSUMER, domain, c) < |input|
    ensures input[PortIndex(patterns[to], CONSUMER, domain, c)] == output[PortIndex(patterns[from], PRODUCER, domain, p)]
  {
    LocalIsAssigned(from, patterns[from], PRODUCER, domain, cells, output, p);
    LocalIsAssigned(to, patterns[to], CONSUMER, domain, cells, input, c);
  }

  /** Two different output ports, of one component or of two, never share a cell. */
  lemma OutputsDoNotShare(
    patterns: map<string, Instance>, connectedTo: map<PortId, PortId>, cells: map<PortId, nat>, count: nat,
    producers: set<PortId>, domain: nat, id: string, p: Place, other: string, q: Place, mine: seq<nat>, theirs: seq<nat>)
    requires id in patterns && other in patterns && IndicesOk(patterns[id]) && IndicesOk(patterns[other])
    requires CellsOk(connectedTo, producers, cells, count)
    requires IsPlace(patterns[id], PRODUCER, domain, p) && IsPlace(patterns[other], PRODUCER, domain, q)
    requires PortIdAt(id, patterns[id], PRODUCER, p) in producers && PortIdAt(other, patterns[other], PRODUCER, q) in producers
    requires LocalOk(id, patterns[id], PRODUCER, domain, cells, mine)
    requires LocalOk(other, patterns[other], PRODUCER, domain, cells, theirs)
    requires id != other || p != q
    ensures PortIndex(patterns[id], PRODUCER, domain, p) < |mine| && PortIndex(patterns[other], PRODUCER, domain, q) < |theirs|
    ensures mine[PortIndex(patterns[id], PRODUCER, domain, p)] != theirs[PortIndex(patterns[other], PRODUCER, domain, q)]
  {
    LocalIsAssigned(id, patterns[id], PRODUCER, domain, cells, mine, p);
    LocalIsAssigned(other, patterns[other], PRODUCER, domain, cells, theirs, q);
    if id == other { IdentifiersDiffer(id, patterns[id], PRODUCER, domain, p, q); }
  }
}
