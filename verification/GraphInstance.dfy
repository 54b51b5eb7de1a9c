/**
  Connecting components. A connection is refused exactly when it would close a loop in the dataflow,
  also when it replaces an earlier connection of the same input; so the component graph stays
  acyclic, which is what lets the loop check itself terminate.
*/
module GraphInstances {
  import opened Digraph
  import opened Cycles
  import opened Patterns

  datatype ConnectError =
    | SelfConnection | UnknownSource | UnknownSourcePort | UnknownSink | UnknownSinkPort
    | NoTimeDomain | DifferentTimeDomains | DifferentPayloads | WouldLoop

  datatype Outcome = Connected | Rejected(error: ConnectError)

  /** The dataflow between components that a set of connections makes. */
  function EdgesOf(connectedTo: map<PortId, PortId>): set<(string, string)> {
    set c | c in connectedTo :: (connectedTo[c].component, c.component)
  }

  predicate HasPort(patterns: map<string, Instance>, kind: PortKind, id: PortId) {
    id.component in patterns && patterns[id.component].Find(kind, id.group, id.instance, id.name).Some?
  }

  function PortOf(patterns: map<string, Instance>, kind: PortKind, id: PortId): Port
    requires HasPort(patterns, kind, id)
  {
    patterns[id.component].Find(kind, id.group, id.instance, id.name).value
  }

  // ---- the loop check ------------------------------------------------------------------------

  /** Every connection joins an existing producer to an existing consumer. */
  ghost predicate Wired(patterns: map<string, Instance>, connectedTo: map<PortId, PortId>) {
    && (forall id :: id in patterns ==> patterns[id].Valid())
    && (forall c :: c in connectedTo ==> HasPort(patterns, CONSUMER, c) && HasPort(patterns, PRODUCER, connectedTo[c]))
  }

  /** The consumers connected to a producer's port. */
  function Consumers(connectedTo: map<PortId, PortId>, producer: PortId): set<PortId> {
    set c | c in connectedTo && connectedTo[c] == producer
  }

  /** No consumer of this port leads to `goal`. */
  ghost predicate LeadsAway(connectedTo: map<PortId, PortId>, producer: PortId, goal: string) {
    forall c :: c in Consumers(connectedTo, producer) ==> IsAway(connectedTo, c.component, goal)
  }

  ghost predicate IsAway(connectedTo: map<PortId, PortId>, component: string, goal: string) {
    component != goal && !Reaches(EdgesOf(connectedTo), component, goal)
  }

  /** Looks for `goal` behind `from`, port by port; it terminates because there is no loop yet. */
  method WouldConnectToSelf(
    patterns: map<string, Instance>, connectedTo: map<PortId, PortId>, goal: string, from: string)
    returns (found: bool)
    requires Wired(patterns, connectedTo) && Acyclic(EdgesOf(connectedTo)) && from in patterns
    ensures found <==> from == goal || Reaches(EdgesOf(connectedTo), from, goal)
    decreases Height(patterns.Keys, EdgesOf(connectedTo), from), 2
  {
    if from == goal { return true; }
    var component := patterns[from];
    for g := 0 to |component.pattern.groups|
      invariant forall p: PortId :: IsProducerOf(patterns, from, p) && p.group < g ==> LeadsAway(connectedTo, p, goal)
    {
      for i := 0 to component.counts[g]
        invariant forall p: PortId :: IsProducerOf(patterns, from, p) && p.group < g ==> LeadsAway(connectedTo, p, goal)
        invariant forall p: PortId :: (
          IsProducerOf(patterns, from, p) && p.group == g && p.instance < i ==> LeadsAway(connectedTo, p, goal))
      {
        found := GroupConnects(patterns, connectedTo, goal, from, g, i);
        if found { return; }
      }
    }
    NothingBehind(patterns, connectedTo, goal, from);
    return false;
  }

  predicate IsProducerOf(patterns: map<string, Instance>, component: string, p: PortId) {
    p.component == component && HasPort(patterns, PRODUCER, p)
  }

  /** If no port of a component leads to `goal`, the component does not. */
  lemma NothingBehind(patterns: map<string, Instance>, connectedTo: map<PortId, PortId>, goal: string, from: string)
    requires Wired(patterns, connectedTo)
    requires forall p :: IsProducerOf(patterns, from, p) ==> LeadsAway(connectedTo, p, goal)
    ensures !Reaches(EdgesOf(connectedTo), from, goal)
  {
    if Reaches(EdgesOf(connectedTo), from, goal) {
      var w := ReachesFirst(EdgesOf(connectedTo), from, goal);
      NothingThrough(patterns, connectedTo, goal, from, w);
      assert false;
    }
  }

  lemma NothingThrough(
    patterns: map<string, Instance>, connectedTo: map<PortId, PortId>, goal: string, from: string, next: string)
    requires Wired(patterns, connectedTo) && (from, next) in EdgesOf(connectedTo)
    requires forall p :: IsProducerOf(patterns, from, p) ==> LeadsAway(connectedTo, p, goal)
    ensures next != goal && !Reaches(EdgesOf(connectedTo), next, goal)
  {
    var c :| c in connectedTo && (from, next) == (connectedTo[c].component, c.component);
    assert IsProducerOf(patterns, from, connectedTo[c]) && c in Consumers(connectedTo, connectedTo[c]);
  }

  /** The producers of one copy of a port group. */
  method GroupConnects(
    patterns: map<string, Instance>, connectedTo: map<PortId, PortId>, goal: string, from: string, g: nat, i: nat)
    returns (found: bool)
    requires Wired(patterns, connectedTo) && Acyclic(EdgesOf(connectedTo))
    requires from in patterns && patterns[from].HasGroup(g, i)
    ensures found ==> Reaches(EdgesOf(connectedTo), from, goal)
    ensures !found ==> GroupLeadsAway(patterns, connectedTo, goal, from, g, i)
    decreases Height(patterns.Keys, EdgesOf(connectedTo), from), 1
  {
    var ports := patterns[from].pattern.groups[g].producers;
    for k := 0 to |ports|
      invariant PortsLeadAwayUpTo(connectedTo, ports, goal, from, g, i, k)
    {
      found := PortConnects(patterns, connectedTo, goal, PortId(from, g, i, ports[k].name));
      if found { return; }
      OneMorePortAway(connectedTo, ports, goal, from, g, i, k);
    }
    PortsLeadAway(patterns, connectedTo, goal, from, g, i);
    return false;
  }

  /** No producer of the group's copy leads to `goal`. */
  ghost predicate GroupLeadsAway(
    patterns: map<string, Instance>, connectedTo: map<PortId, PortId>, goal: string, from: string, g: nat, i: nat)
  {
    forall p: PortId :: (
      IsProducerOf(patterns, from, p) && p.group == g && p.instance == i ==> LeadsAway(connectedTo, p, goal))
  }

  ghost predicate PortsLeadAwayUpTo(
    connectedTo: map<PortId, PortId>, ports: seq<Port>, goal: string, from: string, g: nat, i: nat, k: nat)
  {
    forall x: nat :: x < k ==> PortLeadsAway(connectedTo, ports, goal, from, g, i, x)
  }

  lemma OneMorePortAway(
    connectedTo: map<PortId, PortId>, ports: seq<Port>, goal: string, from: string, g: nat, i: nat, k: nat)
    requires PortsLeadAwayUpTo(connectedTo, ports, goal, from, g, i, k) && k < |ports|
    requires LeadsAway(connectedTo, PortId(from, g, i, ports[k].name), goal)
    ensures PortsLeadAwayUpTo(connectedTo, ports, goal, from, g, i, k + 1)
  {
  }

  ghost predicate PortLeadsAway(
    connectedTo: map<PortId, PortId>, ports: seq<Port>, goal: string, from: string, g: nat, i: nat, x: nat)
  {
    x < |ports| && LeadsAway(connectedTo, PortId(from, g, i, ports[x].name), goal)
  }

  lemma PortsLeadAway(
    patterns: map<string, Instance>, connectedTo: map<PortId, PortId>, goal: string, from: string, g: nat, i: nat)
    requires from in patterns && g < |patterns[from].pattern.groups|
    requires var ports := patterns[from].pattern.groups[g].producers;
      PortsLeadAwayUpTo(connectedTo, ports, goal, from, g, i, |ports|)
    ensures GroupLeadsAway(patterns, connectedTo, goal, from, g, i)
  {
    var ports := patterns[from].pattern.groups[g].producers;
    forall p: PortId | IsProducerOf(patterns, from, p) && p.group == g && p.instance == i
      ensures LeadsAway(connectedTo, p, goal)
    {
      FoundFirst(ports, p.name, 0);
      var x: nat :| x < |ports| && ports[x].name == p.name;
      assert PortLeadsAway(connectedTo, ports, goal, from, g, i, x);
    }
  }

  method PortConnects(
    patterns: map<string, Instance>, connectedTo: map<PortId, PortId>, goal: string, producer: PortId)
    returns (found: bool)
    requires Wired(patterns, connectedTo) && Acyclic(EdgesOf(connectedTo)) && producer.component in patterns
    ensures found ==> Reaches(EdgesOf(connectedTo), producer.component, goal)
    ensures !found ==> LeadsAway(connectedTo, producer, goal)
    decreases Height(patterns.Keys, EdgesOf(connectedTo), producer.component), 0
  {
    var all := Consumers(connectedTo, producer);
    var rest := all;
    while rest != {}
      invariant rest <= all
      invariant forall c :: c in all - rest ==> IsAway(connectedTo, c.component, goal)
    {
      var c :| c in rest;
      ConsumerIsBehind(patterns, connectedTo, c);
      found := WouldConnectToSelf(patterns, connectedTo, goal, c.component);
      if found {
        ReachesOn(EdgesOf(connectedTo), producer.component, c.component, goal);
        return;
      }
      rest := rest - {c};
    }
    return false;
  }

  /** The component behind a connection has fewer components behind it. */
  lemma ConsumerIsBehind(patterns: map<string, Instance>, connectedTo: map<PortId, PortId>, c: PortId)
    requires Wired(patterns, connectedTo) && Acyclic(EdgesOf(connectedTo)) && c in connectedTo
    ensures c.component in patterns
    ensures Reaches(EdgesOf(connectedTo), connectedTo[c].component, c.component)
    ensures Height(patterns.Keys, EdgesOf(connectedTo), connectedTo[c].component)
          > Height(patterns.Keys, EdgesOf(connectedTo), c.component)
  {
    var edges, u, v := EdgesOf(connectedTo), connectedTo[c].component, c.component;
    assert (u, v) in edges;
    EdgesAreClosed(patterns, connectedTo);
    EdgeReaches(edges, u, v);
    HeightDecreases(patterns.Keys, edges, u, v);
  }

  lemma EdgesAreClosed(patterns: map<string, Instance>, connectedTo: map<PortId, PortId>)
    requires Wired(patterns, connectedTo)
    ensures Closed(patterns.Keys, EdgesOf(connectedTo))
  {
  }

  class GraphInstance {
    var patterns: map<string, Instance>
    var connectedTo: map<PortId, PortId>

    ghost function Edges(): set<(string, string)>
      reads this
    {
      EdgesOf(connectedTo)
    }

    ghost predicate Valid()
      reads this
    {
      Wired(patterns, connectedTo) && Acyclic(Edges())
    }

    constructor ()
      ensures Valid() && patterns == map[] && connectedTo == map[]
    {
      patterns, connectedTo := map[], map[];
      new;
      forall v ensures !Reaches(Edges(), v, v) { NoEdges(Edges(), v); }
    }

    /** Adds a component with one copy of its default port group. */
    method AddPattern(id: string, pattern: Pattern, domains: nat, globalDomain: int) returns (ok: bool)
      requires Valid() && |pattern.groups| >= 1 && domains >= 1
      modifies this
      ensures Valid() && connectedTo == old(connectedTo)
      ensures ok <==> id !in old(patterns)
      ensures patterns == if !ok then old(patterns) else
        old(patterns)[id := Instance(pattern, seq(|pattern.groups|, g => if g == 0 then 1 else 0),
                                     seq(domains, d => if d == 0 then globalDomain else -1))]
    {
      if id in patterns { return false; }
      var counts := seq(|pattern.groups|, g => if g == 0 then 1 else 0);
      var timeDomains := seq(domains, d => -1);
      timeDomains := timeDomains[0 := globalDomain];
      assert timeDomains == seq(domains, d => if d == 0 then globalDomain else -1);
      NewKeepsPorts(patterns, id, Instance(pattern, counts, timeDomains));
      patterns := patterns[id := Instance(pattern, counts, timeDomains)];
      return true;
    }

    /** Adds a copy of a port group; the connections stay. */
    method InstantiatePortGroup(id: string, groupName: string) returns (ok: bool)
      requires Valid() && id in patterns
      modifies this`patterns
      ensures Valid()
      ensures ok <==> exists g :: 0 <= g < |old(patterns)[id].pattern.groups|
                                  && old(patterns)[id].pattern.groups[g].name == groupName
      ensures !ok ==> patterns == old(patterns)
      ensures patterns.Keys == old(patterns).Keys && patterns == old(patterns)[id := patterns[id]]
      ensures ok ==> exists g: nat :: (
        && IsFirstNamed(old(patterns)[id].pattern.groups, groupName, g)
        && HasOneMore(old(patterns)[id], patterns[id], g))
    {
      var component := patterns[id];
      var groups := component.pattern.groups;
      for g := 0 to |groups|
        invariant forall h :: 0 <= h < g ==> groups[h].name != groupName
        invariant patterns == old(patterns)
      {
        if groups[g].name == groupName {
          patterns := patterns[id := WithCopy(component, g)];
          CopyKeepsPorts(old(patterns), id, g);
          assert IsFirstNamed(groups, groupName, g);
          return true;
        }
      }
      return false;
    }

    /**
      Connects a producer to a consumer, or replaces the consumer's connection, if and only if it
      passes every check; the last one is that the graph with the connection has no loop. Otherwise
      the first check that fails is reported.
    */
    method Connect(source: PortId, sink: PortId) returns (outcome: Outcome)
      requires Valid()
      modifies this`connectedTo
      ensures Valid()
      ensures connectedTo == if outcome.Connected? then old(connectedTo)[sink := source] else old(connectedTo)
      ensures outcome.Connected? <==> AllPass(patterns, old(connectedTo), source, sink)
      ensures outcome.Rejected? ==> FailsFirst(patterns, old(connectedTo), source, sink, outcome.error)
    {
      outcome := CheckAndConnect(source, sink);
      ReportExactly(patterns, old(connectedTo), source, sink, outcome);
    }

    method CheckAndConnect(source: PortId, sink: PortId) returns (outcome: Outcome)
      requires Valid()
      modifies this`connectedTo
      ensures Valid()
      ensures connectedTo == if outcome.Connected? then old(connectedTo)[sink := source] else old(connectedTo)
      ensures IsReport(patterns, source, sink, Acyclic(EdgesOf(old(connectedTo)[sink := source])), outcome)
    {
      var error := CheckPorts(patterns, source, sink);
      if error.Some? { return Rejected(error.value); }
      ReconnectExact(connectedTo, source, sink);
      var loop_ := WouldConnectToSelf(patterns, connectedTo, source.component, sink.component);
      if loop_ { return Rejected(WouldLoop); }
      connectedTo := connectedTo[sink := source];
      return Connected;
    }

    /** Lists the inputs that are not connected. */
    method CheckRunnable() returns (open: seq<PortId>)
      requires Valid() && forall id :: id in patterns ==> NamesOk(patterns[id])
      ensures forall p :: p in open <==> HasPort(patterns, CONSUMER, p) && p !in connectedTo
    {
      open := [];
      var rest := patterns.Keys;
      while rest != {}
        invariant rest <= patterns.Keys
        invariant forall p :: p in open <==>
          p.component !in rest && HasPort(patterns, CONSUMER, p) && p !in connectedTo
      {
        var id :| id in rest;
        var more := OpenInputs(patterns, connectedTo, id);
        open := open + more;
        rest := rest - {id};
      }
    }
  }

  /** What `connect` checks before it looks for loops; the first failure is reported. */
  function CheckPorts(patterns: map<string, Instance>, source: PortId, sink: PortId): Option<ConnectError> {
    if source.component == sink.component then Some(SelfConnection)
    else if source.component !in patterns then Some(UnknownSource)
    else if !HasPort(patterns, PRODUCER, source) then Some(UnknownSourcePort)
    else if sink.component !in patterns then Some(UnknownSink)
    else if !HasPort(patterns, CONSUMER, sink) then Some(UnknownSinkPort)
    else
      var from, to := PortOf(patterns, PRODUCER, source), PortOf(patterns, CONSUMER, sink);
      var here, there := patterns[source.component].timeDomains, patterns[sink.component].timeDomains;
      if from.timeDomain >= |here| || to.timeDomain >= |there| then Some(NoTimeDomain)
      else if here[from.timeDomain] != there[to.timeDomain] then Some(DifferentTimeDomains)
      else if from.payload != to.payload then Some(DifferentPayloads)
      else None
  }

  /** The component has an output of this identifier, with this port as the first of its name. */
  ghost predicate IsOutputPort(patterns: map<string, Instance>, id: PortId, port: Port) {
    && id.component in patterns && CopyExists(patterns[id.component], id.group, id.instance)
    && IsFirstOf(patterns[id.component].pattern.groups[id.group].producers, id.name, port)
  }

  ghost predicate IsInputPort(patterns: map<string, Instance>, id: PortId, port: Port) {
    && id.component in patterns && CopyExists(patterns[id.component], id.group, id.instance)
    && IsFirstOf(patterns[id.component].pattern.groups[id.group].consumers, id.name, port)
  }

  predicate CopyExists(component: Instance, group: nat, instance: nat) {
    group < |component.pattern.groups| && group < |component.counts| && instance < component.counts[group]
  }

  ghost predicate IsFirstOf(ports: seq<Port>, name: string, port: Port) {
    exists k ::
      && 0 <= k < |ports| && ports[k] == port && port.name == name
      && forall j :: 0 <= j < k ==> ports[j].name != name
  }

  /** What each check asks for; one that looks at a port holds if there is no such port. */
  ghost predicate Passes(
    patterns: map<string, Instance>, connectedTo: map<PortId, PortId>, source: PortId, sink: PortId,
    check: ConnectError)
  {
    match check
    case SelfConnection => source.component != sink.component
    case UnknownSource => source.component in patterns
    case UnknownSourcePort => exists p :: IsOutputPort(patterns, source, p)
    case UnknownSink => sink.component in patterns
    case UnknownSinkPort => exists q :: IsInputPort(patterns, sink, q)
    case NoTimeDomain => forall p, q :: IsOutputPort(patterns, source, p) && IsInputPort(patterns, sink, q) ==>
      && p.timeDomain < |patterns[source.component].timeDomains|
      && q.timeDomain < |patterns[sink.component].timeDomains|
    case DifferentTimeDomains => forall p, q :: IsOutputPort(patterns, source, p) && IsInputPort(patterns, sink, q) ==>
      GlobalDomain(patterns[source.component], p) == GlobalDomain(patterns[sink.component], q)
    case DifferentPayloads => forall p, q :: IsOutputPort(patterns, source, p) && IsInputPort(patterns, sink, q) ==>
      p.payload == q.payload
    case WouldLoop => Acyclic(EdgesOf(connectedTo[sink := source]))
  }

  function GlobalDomain(component: Instance, port: Port): Option<int> {
    if port.timeDomain < |component.timeDomains| then Some(component.timeDomains[port.timeDomain]) else None
  }

  /** The order of the checks. */
  function Place(check: ConnectError): nat {
    match check
    case SelfConnection => 0
    case UnknownSource => 1
    case UnknownSourcePort => 2
    case UnknownSink => 3
    case UnknownSinkPort => 4
    case NoTimeDomain => 5
    case DifferentTimeDomains => 6
    case DifferentPayloads => 7
    case WouldLoop => 8
  }

  predicate Precedes(check: ConnectError, other: ConnectError) { Place(check) < Place(other) }

  lemma FoundIsFirst(ports: seq<Port>, name: string)
    ensures FindName(ports, name).Some? <==> exists port :: IsFirstOf(ports, name, port)
    ensures forall port :: IsFirstOf(ports, name, port) ==> FindName(ports, name) == Some(port)
  {
    FoundFirst(ports, name, 0);
    if FindName(ports, name).Some? { assert IsFirstOf(ports, name, FindName(ports, name).value); }
  }

  lemma PortsAreFound(patterns: map<string, Instance>, id: PortId)
    ensures HasPort(patterns, PRODUCER, id) <==> exists p :: IsOutputPort(patterns, id, p)
    ensures forall p :: IsOutputPort(patterns, id, p) ==>
      HasPort(patterns, PRODUCER, id) && PortOf(patterns, PRODUCER, id) == p
    ensures HasPort(patterns, CONSUMER, id) <==> exists p :: IsInputPort(patterns, id, p)
    ensures forall p :: IsInputPort(patterns, id, p) ==>
      HasPort(patterns, CONSUMER, id) && PortOf(patterns, CONSUMER, id) == p
  {
    if id.component in patterns && CopyExists(patterns[id.component], id.group, id.instance) {
      var group := patterns[id.component].pattern.groups[id.group];
      FoundIsFirst(group.producers, id.name);
      FoundIsFirst(group.consumers, id.name);
      assert HasPort(patterns, PRODUCER, id) ==> IsOutputPort(patterns, id, PortOf(patterns, PRODUCER, id));
      assert HasPort(patterns, CONSUMER, id) ==> IsInputPort(patterns, id, PortOf(patterns, CONSUMER, id));
    }
  }

  ghost predicate AllPass(
    patterns: map<string, Instance>, connectedTo: map<PortId, PortId>, source: PortId, sink: PortId)
  {
    forall check :: Passes(patterns, connectedTo, source, sink, check)
  }

  /** The check fails, and all before it pass. */
  ghost predicate FailsFirst(
    patterns: map<string, Instance>, connectedTo: map<PortId, PortId>, source: PortId, sink: PortId,
    check: ConnectError)
  {
    && !Passes(patterns, connectedTo, source, sink, check)
    && forall other :: Precedes(other, check) ==> Passes(patterns, connectedTo, source, sink, other)
  }

  /** The checks of the ports pass exactly if no error is found; else the first that fails is found. */
  lemma PortChecksExactly(
    patterns: map<string, Instance>, connectedTo: map<PortId, PortId>, source: PortId, sink: PortId)
    ensures var error := CheckPorts(patterns, source, sink);
      if error.None? then forall check :: check != WouldLoop ==> Passes(patterns, connectedTo, source, sink, check)
      else FailsFirst(patterns, connectedTo, source, sink, error.value)
  {
    PortsAreFound(patterns, source);
    PortsAreFound(patterns, sink);
  }

  /** What `connect` reports if the loop check is right. */
  predicate IsReport(patterns: map<string, Instance>, source: PortId, sink: PortId, acyclic: bool, outcome: Outcome) {
    match CheckPorts(patterns, source, sink)
    case Some(error) => outcome == Rejected(error)
    case None => outcome == if acyclic then Connected else Rejected(WouldLoop)
  }

  /** All checks pass if none is found to fail and there is no loop; else the first that fails is reported. */
  lemma ReportExactly(
    patterns: map<string, Instance>, connectedTo: map<PortId, PortId>, source: PortId, sink: PortId, outcome: Outcome)
    requires IsReport(patterns, source, sink, Acyclic(EdgesOf(connectedTo[sink := source])), outcome)
    ensures outcome.Connected? <==> AllPass(patterns, connectedTo, source, sink)
    ensures outcome.Rejected? ==> FailsFirst(patterns, connectedTo, source, sink, outcome.error)
  {
    PortChecksExactly(patterns, connectedTo, source, sink);
    if outcome.Rejected? {
      assert !Passes(patterns, connectedTo, source, sink, outcome.error);
    }
  }

  lemma EdgeFrom(connectedTo: map<PortId, PortId>, c: PortId)
    requires c in connectedTo
    ensures (connectedTo[c].component, c.component) in EdgesOf(connectedTo)
  {
  }

  /** Reconnecting an input closes a loop exactly when its component already leads to the source. */
  lemma ReconnectExact(connectedTo: map<PortId, PortId>, source: PortId, sink: PortId)
    requires Acyclic(EdgesOf(connectedTo)) && source.component != sink.component
    ensures Acyclic(EdgesOf(connectedTo[sink := source]))
            <==> !Reaches(EdgesOf(connectedTo), sink.component, source.component)
  {
    var rest := EdgesOf(connectedTo - {sink});
    var after := connectedTo[sink := source];
    forall e | e in EdgesOf(after)
      ensures e in rest + {(source.component, sink.component)}
    {
      var c :| c in after && e == (after[c].component, c.component);
      if c != sink { EdgeFrom(connectedTo - {sink}, c); }
    }
    forall e | e in rest
      ensures e in EdgesOf(after) && e in EdgesOf(connectedTo)
    {
      var c :| c in connectedTo - {sink} && e == ((connectedTo - {sink})[c].component, c.component);
      EdgeFrom(after, c);
      EdgeFrom(connectedTo, c);
    }
    EdgeFrom(after, sink);
    forall e | e in EdgesOf(connectedTo)
      ensures e in rest || e.1 == sink.component
    {
      var c :| c in connectedTo && e == (connectedTo[c].component, c.component);
      if c != sink { EdgeFrom(connectedTo - {sink}, c); }
    }
    assert EdgesOf(after) == rest + {(source.component, sink.component)};
    ReplaceExact(EdgesOf(connectedTo), rest, source.component, sink.component);
  }

  // ---- connected ports -----------------------------------------------------------------------

  /** The names of a group's producers and consumers are distinct. */
  predicate NamesOk(component: Instance) {
    forall g :: 0 <= g < |component.pattern.groups| ==>
      var group := component.pattern.groups[g]; DistinctNames(group.producers + group.consumers)
  }

  /** A port is looked up among the producers first; what it is connected to depends on what is found. */
  predicate IsConnected(patterns: map<string, Instance>, connectedTo: map<PortId, PortId>, p: PortId) {
    if HasPort(patterns, PRODUCER, p) then Consumers(connectedTo, p) != {}
    else p in connectedTo && HasPort(patterns, PRODUCER, connectedTo[p])
  }

  lemma NamesDiffer(group: PortGroup, i: nat, j: nat)
    requires DistinctNames(group.producers + group.consumers) && i < |group.producers| && j < |group.consumers|
    ensures group.producers[i].name != group.consumers[j].name
  {
    var all := group.producers + group.consumers;
    assert all[i].name != all[|group.producers| + j].name;
  }

  /** Since names are distinct, an input counts as connected exactly when it is. */
  lemma InputConnected(patterns: map<string, Instance>, connectedTo: map<PortId, PortId>, p: PortId)
    requires Wired(patterns, connectedTo) && HasPort(patterns, CONSUMER, p) && NamesOk(patterns[p.component])
    ensures IsConnected(patterns, connectedTo, p) <==> p in connectedTo
  {
    var group := patterns[p.component].pattern.groups[p.group];
    FoundFirst(group.producers, p.name, 0);
    FoundFirst(group.consumers, p.name, 0);
    if HasPort(patterns, PRODUCER, p) {
      var i :| 0 <= i < |group.producers| && group.producers[i].name == p.name;
      var j :| 0 <= j < |group.consumers| && group.consumers[j].name == p.name;
      NamesDiffer(group, i, j);
      assert false;
    }
  }

  /** The inputs of one component that are not connected. */
  method OpenInputs(patterns: map<string, Instance>, connectedTo: map<PortId, PortId>, id: string)
    returns (open: seq<PortId>)
    requires Wired(patterns, connectedTo) && id in patterns && NamesOk(patterns[id])
    ensures forall p :: p in open <==> IsOpen(patterns, connectedTo, id, p)
  {
    open := [];
    var component := patterns[id];
    for g := 0 to |component.pattern.groups|
      invariant forall p :: p in open <==> IsOpen(patterns, connectedTo, id, p) && p.group < g
    {
      for i := 0 to component.counts[g]
        invariant forall p :: p in open <==>
          IsOpen(patterns, connectedTo, id, p) && (p.group < g || (p.group == g && p.instance < i))
      {
        var more := OpenInGroup(patterns, connectedTo, id, g, i);
        open := open + more;
      }
    }
  }

  predicate IsOpen(patterns: map<string, Instance>, connectedTo: map<PortId, PortId>, id: string, p: PortId) {
    p.component == id && HasPort(patterns, CONSUMER, p) && p !in connectedTo
  }

  method OpenInGroup(patterns: map<string, Instance>, connectedTo: map<PortId, PortId>, id: string, g: nat, i: nat)
    returns (open: seq<PortId>)
    requires Wired(patterns, connectedTo) && id in patterns && NamesOk(patterns[id])
    requires patterns[id].HasGroup(g, i)
    ensures forall p :: p in open <==> IsOpen(patterns, connectedTo, id, p) && p.group == g && p.instance == i
  {
    var ports := patterns[id].pattern.groups[g].consumers;
    open := [];
    for k := 0 to |ports|
      invariant forall p :: p in open <==> p !in connectedTo && IsNamed(ports[..k], id, g, i, p)
    {
      var p := PortId(id, g, i, ports[k].name);
      FoundFirst(ports, p.name, 0);
      InputConnected(patterns, connectedTo, p);
      if !IsConnected(patterns, connectedTo, p) { open := open + [p]; }
    }
    forall p: PortId
      ensures p in open <==> IsOpen(patterns, connectedTo, id, p) && p.group == g && p.instance == i
    {
      FoundFirst(ports, p.name, 0);
    }
  }

  predicate IsNamed(ports: seq<Port>, id: string, g: nat, i: nat, p: PortId) {
    p.component == id && p.group == g && p.instance == i && exists k :: 0 <= k < |ports| && ports[k].name == p.name
  }

  predicate IsFirstNamed(groups: seq<PortGroup>, name: string, g: nat) {
    g < |groups| && groups[g].name == name && forall h :: 0 <= h < g ==> groups[h].name != name
  }

  /** The group has exactly one more copy, and nothing else differs. */
  predicate HasOneMore(before: Instance, after: Instance, g: nat) {
    && after.pattern == before.pattern && after.timeDomains == before.timeDomains
    && g < |before.counts| == |after.counts|
    && after.counts[g] == before.counts[g] + 1
    && forall h :: 0 <= h < |before.counts| && h != g ==> after.counts[h] == before.counts[h]
  }

  function WithCopy(component: Instance, g: nat): Instance {
    if g < |component.counts| then component.(counts := component.counts[g := component.counts[g] + 1]) else component
  }

  lemma NewKeepsPorts(patterns: map<string, Instance>, id: string, component: Instance)
    requires id !in patterns
    ensures forall kind, p :: HasPort(patterns, kind, p) ==> HasPort(patterns[id := component], kind, p)
  {
  }

  lemma CopyKeepsPorts(patterns: map<string, Instance>, id: string, g: nat)
    requires id in patterns && patterns[id].Valid()
    ensures var more := patterns[id := WithCopy(patterns[id], g)];
      && more[id].Valid()
      && forall kind, p :: HasPort(patterns, kind, p) ==> HasPort(more, kind, p) && PortOf(more, kind, p) == PortOf(patterns, kind, p)
  {
  }
}
