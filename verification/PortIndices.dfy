/**
  Where a port's buffer lies in its component. The ports of one kind and time domain are numbered
  group by group, copy by copy; the numbers are exactly 0 to count - 1, each once, and the address
  that a component computes from its group's offset is the port's number.
*/
module PortIndices {
  import opened Patterns

  /** The position of a port: the x-th port of the i-th copy of group g. */
  datatype Place = Place(group: nat, instance: nat, at: nat)

  /** `n` copies of `k` things. */
  function Copies(n: nat, k: nat): nat {
    if n == 0 then 0 else Copies(n - 1, k) + k
  }

  predicate IndicesOk(component: Instance) {
    && component.Valid()
    && forall g :: 0 <= g < |component.pattern.groups| ==> GroupOk(component.pattern.groups[g])
  }

  predicate UniqueGroupNames(component: Instance) {
    forall g, h :: 0 <= g < h < |component.pattern.groups| ==>
      component.pattern.groups[g].name != component.pattern.groups[h].name
  }

  /** How many ports one copy of a group has. */
  function GroupCount(component: Instance, kind: PortKind, domain: nat, g: nat): nat
    requires g < |component.pattern.groups|
  {
    PortCount(component.pattern.groups[g].Ports(kind), domain)
  }

  /** How many ports the first `g` groups have, with all their copies. */
  function GroupStart(component: Instance, kind: PortKind, domain: nat, g: nat): nat
    requires component.Valid() && g <= |component.pattern.groups|
  {
    if g == 0 then 0
    else GroupStart(component, kind, domain, g - 1)
         + Copies(component.counts[g - 1], GroupCount(component, kind, domain, g - 1))
  }

  function Total(component: Instance, kind: PortKind, domain: nat): nat
    requires component.Valid()
  {
    GroupStart(component, kind, domain, |component.pattern.groups|)
  }

  predicate IsPlace(component: Instance, kind: PortKind, domain: nat, p: Place) {
    && component.HasGroup(p.group, p.instance)
    && p.at < |component.pattern.groups[p.group].Ports(kind)|
    && component.pattern.groups[p.group].Ports(kind)[p.at].timeDomain == domain
  }

  /** The number of a port among its component's ports. */
  function PortIndex(component: Instance, kind: PortKind, domain: nat, p: Place): nat
    requires component.Valid() && IsPlace(component, kind, domain, p)
  {
    GroupStart(component, kind, domain, p.group)
    + Copies(p.instance, GroupCount(component, kind, domain, p.group))
    + component.pattern.groups[p.group].Ports(kind)[p.at].index
  }

  // ---- inside one group ----------------------------------------------------------------------

  lemma {:induction false} CountGrows(ports: seq<Port>, domain: nat, x: nat, y: nat)
    requires x <= y <= |ports|
    ensures PortCount(ports[..x], domain) <= PortCount(ports[..y], domain)
    ensures x < y && ports[x].timeDomain == domain ==> PortCount(ports[..x], domain) < PortCount(ports[..y], domain)
    decreases y - x
  {
    if x < y {
      assert ports[..y][..y - 1] == ports[..y - 1];
      CountGrows(ports, domain, x, y - 1);
    }
  }

  /** Later ports have larger numbers, and all are below the count. */
  lemma IndexInGroup(ports: seq<Port>, domain: nat, x: nat, y: nat)
    requires Dense(ports) && x <= y < |ports| && ports[x].timeDomain == domain == ports[y].timeDomain
    ensures ports[y].index < PortCount(ports, domain)
    ensures x < y ==> ports[x].index < ports[y].index
  {
    CountGrows(ports, domain, y, |ports|);
    CountGrows(ports, domain, x, y);
    assert ports[..|ports|] == ports;
  }

  /** Every number below the count is some port's. */
  lemma {:induction false} IndexIsTaken(ports: seq<Port>, domain: nat, n: nat) returns (x: nat)
    requires Dense(ports) && n < PortCount(ports, domain)
    ensures x < |ports| && ports[x].timeDomain == domain && ports[x].index == n
  {
    var k := |ports| - 1;
    if ports[k].timeDomain == domain && n == PortCount(ports[..k], domain) {
      x := k;
    } else {
      forall i | 0 <= i < k
        ensures ports[..k][i].index == PortCount(ports[..k][..i], ports[..k][i].timeDomain)
      {
        assert ports[..k][..i] == ports[..i];
      }
      x := IndexIsTaken(ports[..k], domain, n);
    }
  }

  // ---- copies --------------------------------------------------------------------------------

  lemma {:induction false} CopiesGrow(i: nat, j: nat, k: nat)
    requires i <= j
    ensures Copies(i, k) <= Copies(j, k)
    ensures i < j ==> Copies(i, k) + k <= Copies(j, k)
  {
    if i < j { CopiesGrow(i, j - 1, k); }
  }

  lemma {:induction false} CopiesMultiply(n: nat, k: nat)
    ensures Copies(n, k) == k * n
  {
    if n > 0 {
      CopiesMultiply(n - 1, k);
      assert k * n == k * (n - 1) + k;
    }
  }

  /** Every number below n copies of k lies in one copy. */
  lemma {:induction false} CopyOf(n: nat, k: nat, m: nat) returns (i: nat)
    requires m < Copies(n, k)
    ensures i < n && Copies(i, k) <= m < Copies(i, k) + k
  {
    if m >= Copies(n - 1, k) { i := n - 1; } else { i := CopyOf(n - 1, k, m); }
  }

  lemma {:induction false} GroupsGrow(component: Instance, kind: PortKind, domain: nat, g: nat, h: nat)
    requires component.Valid() && g <= h <= |component.pattern.groups|
    ensures GroupStart(component, kind, domain, g) <= GroupStart(component, kind, domain, h)
    ensures g < h ==>
      GroupStart(component, kind, domain, g) + Copies(component.counts[g], GroupCount(component, kind, domain, g))
      <= GroupStart(component, kind, domain, h)
    decreases h - g
  {
    if g < h { GroupsGrow(component, kind, domain, g, h - 1); }
  }

  lemma {:induction false} GroupOf(component: Instance, kind: PortKind, domain: nat, h: nat, m: nat) returns (g: nat)
    requires component.Valid() && h <= |component.pattern.groups| && m < GroupStart(component, kind, domain, h)
    ensures g < h && GroupStart(component, kind, domain, g) <= m
    ensures m < GroupStart(component, kind, domain, g) + Copies(component.counts[g], GroupCount(component, kind, domain, g))
  {
    if m >= GroupStart(component, kind, domain, h - 1) {
      g := h - 1;
    } else {
      g := GroupOf(component, kind, domain, h - 1, m);
    }
  }

  // ---- the numbering is a bijection ----------------------------------------------------------

  /** The order in which the ports are listed: by group, by copy, by position. */
  predicate Before(p: Place, q: Place) {
    || p.group < q.group
    || (p.group == q.group && p.instance < q.instance)
    || (p.group == q.group && p.instance == q.instance && p.at < q.at)
  }

  /** Ports listed later have larger numbers, and every number is below the total. */
  lemma IndicesIncrease(component: Instance, kind: PortKind, domain: nat, p: Place, q: Place)
    requires IndicesOk(component) && IsPlace(component, kind, domain, p) && IsPlace(component, kind, domain, q)
    ensures PortIndex(component, kind, domain, p) < Total(component, kind, domain)
    ensures Before(p, q) ==> PortIndex(component, kind, domain, p) < PortIndex(component, kind, domain, q)
  {
    var groups := component.pattern.groups;
    var k := GroupCount(component, kind, domain, p.group);
    IndexInGroup(groups[p.group].Ports(kind), domain, p.at, p.at);
    CopiesGrow(p.instance, component.counts[p.group], k);
    GroupsGrow(component, kind, domain, p.group, |groups|);
    if p.group < q.group {
      GroupsGrow(component, kind, domain, p.group, q.group);
    } else if p.group == q.group {
      if p.instance < q.instance {
        CopiesGrow(p.instance, q.instance, k);
      } else if p.instance == q.instance && p.at < q.at {
        IndexInGroup(groups[p.group].Ports(kind), domain, p.at, q.at);
      }
    }
  }

  lemma IndicesInjective(component: Instance, kind: PortKind, domain: nat, p: Place, q: Place)
    requires IndicesOk(component) && IsPlace(component, kind, domain, p) && IsPlace(component, kind, domain, q)
    requires PortIndex(component, kind, domain, p) == PortIndex(component, kind, domain, q)
    ensures p == q
  {
    IndicesIncrease(component, kind, domain, p, q);
    IndicesIncrease(component, kind, domain, q, p);
  }

  /** Every number below the total is some port's. */
  lemma IndexIsPort(component: Instance, kind: PortKind, domain: nat, m: nat) returns (p: Place)
    requires IndicesOk(component) && m < Total(component, kind, domain)
    ensures IsPlace(component, kind, domain, p) && PortIndex(component, kind, domain, p) == m
  {
    var groups := component.pattern.groups;
    var g := GroupOf(component, kind, domain, |groups|, m);
    var k, rest := GroupCount(component, kind, domain, g), m - GroupStart(component, kind, domain, g);
    var i := CopyOf(component.counts[g], k, rest);
    var x := IndexIsTaken(groups[g].Ports(kind), domain, rest - Copies(i, k));
    p := Place(g, i, x);
  }

  // ---- what components compute ---------------------------------------------------------------

  /** Offset, ports per copy and number of copies of a group; an empty group has no offset. */
  datatype GroupConfig = GroupConfig(offset: int, portCount: nat, size: nat)

  function PortGroupOffset(component: Instance, kind: PortKind, domain: nat, g: nat): GroupConfig
    requires component.Valid() && g < |component.pattern.groups|
  {
    if component.counts[g] == 0 then GroupConfig(-1, 0, 0)
    else GroupConfig(GroupStart(component, kind, domain, g), GroupCount(component, kind, domain, g), component.counts[g])
  }

  /** A component addresses exactly the copies that exist; a group without copies has no place. */
  lemma CopiesAddressed(component: Instance, kind: PortKind, domain: nat, g: nat, i: nat)
    requires component.Valid() && g < |component.pattern.groups|
    ensures var config := PortGroupOffset(component, kind, domain, g);
      && (i < config.size <==> component.HasGroup(g, i))
      && (config.offset >= 0 <==> component.HasGroup(g, 0))
      && (component.HasGroup(g, 0) ==> config.portCount == GroupCount(component, kind, domain, g))
      && (!component.HasGroup(g, 0) ==> config.portCount == 0)
  {
  }

  /** The address a component computes for a port of one copy of a group is the port's number. */
  lemma AddressIsIndex(component: Instance, kind: PortKind, domain: nat, p: Place)
    requires component.Valid() && IsPlace(component, kind, domain, p)
    ensures var config := PortGroupOffset(component, kind, domain, p.group);
      var index := component.pattern.groups[p.group].Ports(kind)[p.at].index;
      && p.instance < config.size
      && config.offset + config.portCount * p.instance + index == PortIndex(component, kind, domain, p)
  {
    CopiesMultiply(p.instance, GroupCount(component, kind, domain, p.group));
  }

  /** Counts the ports before a copy of a group by walking over all copies of all groups. */
  lemma NameTellsGroup(component: Instance, g: nat, h: nat)
    requires UniqueGroupNames(component) && g < |component.pattern.groups| && h < |component.pattern.groups|
    ensures component.pattern.groups[h].name == component.pattern.groups[g].name <==> h == g
  {
  }

  method PortGroupStartIndex(component: Instance, kind: PortKind, domain: nat, g: nat, i: nat)
    returns (start: nat)
    requires component.Valid() && UniqueGroupNames(component) && component.HasGroup(g, i)
    ensures start == GroupStart(component, kind, domain, g) + Copies(i, GroupCount(component, kind, domain, g))
  {
    start := 0;
    var groups := component.pattern.groups;
    for h := 0 to |groups|
      invariant h <= g && start == GroupStart(component, kind, domain, h)
    {
      for j := 0 to component.counts[h]
        invariant h == g ==> j <= i
        invariant start == GroupStart(component, kind, domain, h) + Copies(j, GroupCount(component, kind, domain, h))
      {
        NameTellsGroup(component, g, h);
        if groups[h].name == groups[g].name && j == i { return; }
        var count := CountPorts(groups[h].Ports(kind), domain);
        start := start + count;
      }
    }
  }

  method CountPorts(ports: seq<Port>, domain: nat) returns (count: nat)
    ensures count == PortCount(ports, domain)
  {
    count := 0;
    for x := 0 to |ports|
      invariant count == PortCount(ports[..x], domain)
    {
      assert ports[..x + 1][..x] == ports[..x];
      if ports[x].timeDomain == domain { count := count + 1; }
    }
    assert ports[..|ports|] == ports;
  }
}
