/**
  Patterns and their instances: the ports a component type declares, in groups that an instance may
  hold several copies of. Port names are tuples; how they are formatted as text is not modelled.
*/
module Patterns {
  datatype Option<T> = None | Some(value: T)

  datatype PortKind = PRODUCER | CONSUMER

  /** `index` counts the earlier ports of the same kind and time domain in the group. */
  datatype Port = Port(name: string, payload: string, timeDomain: nat, index: nat)

  datatype PortGroup = PortGroup(name: string, producers: seq<Port>, consumers: seq<Port>)
  {
    function Ports(kind: PortKind): seq<Port> {
      if kind == PRODUCER then producers else consumers
    }
  }

  /** The first group is the default one. */
  datatype Pattern = Pattern(groups: seq<PortGroup>)

  /** A port of a component in a graph. */
  datatype PortId = PortId(component: string, group: nat, instance: nat, name: string)

  /** `counts` says how often each group was instantiated; `timeDomains` maps local to global ones. */
  datatype Instance = Instance(pattern: Pattern, counts: seq<nat>, timeDomains: seq<int>)
  {
    predicate Valid() {
      |counts| == |pattern.groups| && |pattern.groups| >= 1 && counts[0] >= 1
    }

    predicate HasGroup(group: nat, instance: nat) {
      group < |pattern.groups| && group < |counts| && instance < counts[group]
    }

    function Find(kind: PortKind, group: nat, instance: nat, name: string): Option<Port> {
      if HasGroup(group, instance) then FindName(pattern.groups[group].Ports(kind), name) else None
    }
  }

  /** The first port of that name. */
  function FindName(ports: seq<Port>, name: string): Option<Port> {
    FindFrom(ports, name, 0)
  }

  function FindFrom(ports: seq<Port>, name: string, i: nat): Option<Port>
    requires i <= |ports|
    decreases |ports| - i
  {
    if i == |ports| then None
    else if ports[i].name == name then Some(ports[i])
    else FindFrom(ports, name, i + 1)
  }

  /** A name is found exactly when some port has it, and then it is the first such port. */
  lemma {:induction false} FoundFirst(ports: seq<Port>, name: string, i: nat)
    requires i <= |ports|
    ensures FindFrom(ports, name, i).Some? <==> exists k :: i <= k < |ports| && ports[k].name == name
    ensures FindFrom(ports, name, i).Some? ==> exists k :: (
      && i <= k < |ports| && ports[k].name == name && FindFrom(ports, name, i) == Some(ports[k])
      && forall j :: i <= j < k ==> ports[j].name != name)
    decreases |ports| - i
  {
    if i < |ports| && ports[i].name != name { FoundFirst(ports, name, i + 1); }
  }

  /** How many of the ports belong to the time domain. */
  function PortCount(ports: seq<Port>, domain: nat): nat {
    if ports == [] then 0
    else PortCount(ports[..|ports| - 1], domain) + if ports[|ports| - 1].timeDomain == domain then 1 else 0
  }

  // ---- declaring ports -----------------------------------------------------------------------

  predicate UsesName(group: PortGroup, name: string) {
    (exists i :: 0 <= i < |group.producers| && group.producers[i].name == name)
    || (exists i :: 0 <= i < |group.consumers| && group.consumers[i].name == name)
  }

  /** Ports are numbered densely within their kind and time domain. */
  predicate Dense(ports: seq<Port>) {
    forall i :: 0 <= i < |ports| ==> ports[i].index == PortCount(ports[..i], ports[i].timeDomain)
  }

  predicate DistinctNames(ports: seq<Port>) {
    forall i, j :: 0 <= i < j < |ports| ==> ports[i].name != ports[j].name
  }

  predicate GroupOk(group: PortGroup) {
    && Dense(group.producers) && Dense(group.consumers)
    && DistinctNames(group.producers + group.consumers)
  }

  /** A name may be used once in a group, for a producer or a consumer. */
  function AddPort(group: PortGroup, kind: PortKind, name: string, payload: string, domain: nat): Option<PortGroup> {
    if UsesName(group, name) then None
    else if kind == PRODUCER then
      Some(group.(producers := group.producers + [Port(name, payload, domain, PortCount(group.producers, domain))]))
    else
      Some(group.(consumers := group.consumers + [Port(name, payload, domain, PortCount(group.consumers, domain))]))
  }

  /** One more port, with the name, payload and time domain asked for; all others stay as they are. */
  predicate HasNewPort(
    group: PortGroup, more: PortGroup, kind: PortKind, name: string, payload: string, domain: nat)
  {
    var before := if kind == PRODUCER then group.producers else group.consumers;
    var after := if kind == PRODUCER then more.producers else more.consumers;
    && more.name == group.name
    && (kind == PRODUCER ==> more.consumers == group.consumers)
    && (kind == CONSUMER ==> more.producers == group.producers)
    && |after| == |before| + 1 && after[..|before|] == before
    && after[|before|].name == name && after[|before|].payload == payload && after[|before|].timeDomain == domain
  }

  /** Adding ports one by one keeps the numbering dense and the names distinct. */
  lemma AddPortKeepsGroup(group: PortGroup, kind: PortKind, name: string, payload: string, domain: nat)
    requires GroupOk(group)
    ensures var r := AddPort(group, kind, name, payload, domain);
      && (r.None? <==> UsesName(group, name))
      && (r.Some? ==> GroupOk(r.value) && HasNewPort(group, r.value, kind, name, payload, domain))
  {
    var r := AddPort(group, kind, name, payload, domain);
    if r.Some? {
      var port := Port(name, payload, domain, PortCount(group.Ports(kind), domain));
      AppendKeepsDense(group.Ports(kind), port);
      InsertKeepsDistinct(group, kind, port);
    }
  }

  lemma AppendKeepsDense(ports: seq<Port>, port: Port)
    requires Dense(ports) && port.index == PortCount(ports, port.timeDomain)
    ensures Dense(ports + [port])
  {
    var more := ports + [port];
    forall i | 0 <= i < |more|
      ensures more[i].index == PortCount(more[..i], more[i].timeDomain)
    {
      assert more[..i] == ports[..i];
      if i == |ports| { assert ports[..i] == ports; }
    }
  }

  lemma InsertKeepsDistinct(group: PortGroup, kind: PortKind, port: Port)
    requires DistinctNames(group.producers + group.consumers) && !UsesName(group, port.name)
    ensures kind == PRODUCER ==> DistinctNames((group.producers + [port]) + group.consumers)
    ensures kind == CONSUMER ==> DistinctNames(group.producers + (group.consumers + [port]))
  {
    var all, k := group.producers + group.consumers, |group.producers|;
    forall i | 0 <= i < |all|
      ensures all[i].name != port.name
    {
      if i < k { assert all[i] == group.producers[i]; } else { assert all[i] == group.consumers[i - k]; }
    }
    if kind == PRODUCER {
      InsertDistinct(all, k, port);
      assert (group.producers + [port]) + group.consumers == all[..k] + [port] + all[k..];
    } else {
      InsertDistinct(all, |all|, port);
      assert group.producers + (group.consumers + [port]) == all[..|all|] + [port] + all[|all|..];
    }
  }

  lemma InsertDistinct(all: seq<Port>, at: nat, port: Port)
    requires DistinctNames(all) && at <= |all| && forall i :: 0 <= i < |all| ==> all[i].name != port.name
    ensures DistinctNames(all[..at] + [port] + all[at..])
  {
    var more := all[..at] + [port] + all[at..];
    forall i, j | 0 <= i < j < |more|
      ensures more[i].name != more[j].name
    {
      assert more[i] == if i < at then all[i] else if i == at then port else all[i - 1];
      assert more[j] == if j < at then all[j] else if j == at then port else all[j - 1];
    }
  }
}
