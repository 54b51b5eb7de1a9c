/**
  Building the task network. The builder adds links one at a time, in the order the successors of
  condition tasks are numbered by; what it has built is exactly `Network.Edge`, each link once, with
  the seams' choices and the start entry's jump on the successors they name.
*/
module TaskFlowBuilders {
  import opened Network

  class TaskFlowBuilder {
    const net: Network
    var successors: map<Node, seq<Node>>
    var startEntries: seq<int>
    ghost var rings: seq<Seam>

    constructor (net: Network)
      ensures this.net == net && successors == map[] && startEntries == [] && rings == []
    {
      this.net := net;
      successors, startEntries, rings := map[], [], [];
    }

    function Successors(u: Node): seq<Node>
      reads this`successors
    {
      if u in successors then successors[u] else []
    }

    /** How many links lead from `u` to `v`. */
    ghost function Links(u: Node, v: Node): nat
      reads this`successors
    {
      multiset(Successors(u))[v]
    }

    method Precede(u: Node, v: Node)
      modifies this`successors
      ensures Successors(u) == old(Successors(u)) + [v]
      ensures forall w :: w != u ==> Successors(w) == old(Successors(w))
      ensures forall w, x :: Links(w, x) == old(Links(w, x)) + One(w == u && x == v)
    {
      successors := successors[u := Successors(u) + [v]];
    }

    // ---- one slot ----------------------------------------------------------------------------

    method ConnectStartPoints(s: nat)
      modifies this`successors
      ensures forall w: Node :: !w.Step? ==> Successors(w) == old(Successors(w))
      ensures forall u, v :: Links(u, v) == old(Links(u, v)) + One(IsStartBracket(net, s, net.tasks, u, v))
    {
      var rest := net.tasks;
      while rest != {}
        invariant rest <= net.tasks
        invariant forall w: Node :: !w.Step? ==> Successors(w) == old(Successors(w))
        invariant forall u, v :: Links(u, v) == old(Links(u, v)) + One(IsStartBracket(net, s, net.tasks - rest, u, v))
      {
        var t :| t in rest;
        OneMoreStart(net, s, net.tasks - rest, t);
        assert net.tasks - (rest - {t}) == net.tasks - rest + {t};
        if net.IsStartPoint(t) { Precede(Step(s, TimeStepStart), Step(s, t)); }
        rest := rest - {t};
      }
    }

    method ConnectEndPoints(s: nat)
      modifies this`successors
      ensures forall w: Node :: !w.Step? ==> Successors(w) == old(Successors(w))
      ensures forall u, v :: Links(u, v) == old(Links(u, v)) + One(IsEndBracket(net, s, net.tasks, u, v))
    {
      var rest := net.tasks;
      while rest != {}
        invariant rest <= net.tasks
        invariant forall w: Node :: !w.Step? ==> Successors(w) == old(Successors(w))
        invariant forall u, v :: Links(u, v) == old(Links(u, v)) + One(IsEndBracket(net, s, net.tasks - rest, u, v))
      {
        var t :| t in rest;
        OneMoreEnd(net, s, net.tasks - rest, t);
        assert net.tasks - (rest - {t}) == net.tasks - rest + {t};
        if net.IsEndPoint(t) { Precede(Step(s, t), Step(s, TimeStepEnd)); }
        rest := rest - {t};
      }
    }

    /** Ties the slot's start points to TimeStepStart and its end points to TimeStepEnd. */
    method CreateStartStopTasks(s: nat)
      requires AllNamed(net)
      modifies this`successors
      ensures forall w: Node :: !w.Step? ==> Successors(w) == old(Successors(w))
      ensures forall u, v :: Links(u, v) == old(Links(u, v)) + One(IsBracket(net, s, u, v))
    {
      ConnectStartPoints(s);
      ConnectEndPoints(s);
    }

    /** Copies the graph's edges into one slot; a successor that is not a task is an error. */
    method ConnectTimeStepComponents(s: nat) returns (ok: bool)
      modifies this`successors
      ensures ok <==> EdgesStayInside(net)
      ensures ok ==> forall w: Node :: !w.Step? ==> Successors(w) == old(Successors(w))
      ensures ok ==> forall u, v :: Links(u, v) == old(Links(u, v)) + One(IsCopy(net, s, net.tasks, u, v))
    {
      var rest := net.tasks;
      while rest != {}
        invariant rest <= net.tasks
        invariant forall e :: e in net.edges && e.0 in net.tasks - rest ==> e.1 in net.tasks
        invariant forall w: Node :: !w.Step? ==> Successors(w) == old(Successors(w))
        invariant forall u, v :: Links(u, v) == old(Links(u, v)) + One(IsCopy(net, s, net.tasks - rest, u, v))
      {
        var t :| t in rest;
        var found := ConnectSuccessors(s, t);
        if !found { return false; }
        rest := rest - {t};
      }
      return true;
    }

    method ConnectSuccessors(s: nat, t: Task) returns (ok: bool)
      modifies this`successors
      ensures ok <==> forall e :: e in net.edges && e.0 == t ==> e.1 in net.tasks
      ensures forall w: Node :: !w.Step? ==> Successors(w) == old(Successors(w))
      ensures ok ==> forall u, v :: Links(u, v) == old(Links(u, v)) + One(IsCopy(net, s, {t}, u, v))
    {
      var all := set e | e in net.edges && e.0 == t :: e.1;
      var rest := all;
      while rest != {}
        invariant rest <= all && all - rest <= net.tasks
        invariant forall w: Node :: !w.Step? ==> Successors(w) == old(Successors(w))
        invariant forall u, v :: Links(u, v) == old(Links(u, v)) + One(IsLink(s, t, all - rest, u, v))
      {
        var successor :| successor in rest;
        if successor !in net.tasks {
          assert (t, successor) in net.edges;
          return false;
        }
        Precede(Step(s, t), Step(s, successor));
        rest := rest - {successor};
      }
      forall e | e in net.edges && e.0 == t
        ensures e.1 in net.tasks
      {
        assert e.1 in all;
      }
      assert all - rest == all;
      assert forall b :: b in all <==> (t, b) in net.edges;
      return true;
    }

    // ---- seams -------------------------------------------------------------------------------

    /**
      The seams made so far: each entry chooses between its start and its end, in this order, and
      the start entry jumps to the entries by the numbers they have behind the global end.
    */
    ghost predicate SeamsBuilt()
      reads this
    {
      && Successors(StartEntry) == [GlobalEnd] + Entries(rings)
      && startEntries == Numbers(|rings|)
      && Successors(GlobalStart) == [StartEntry]
      && (forall r :: Successors(SeamEntry(r)) == if r in rings then [SeamStart(r), SeamEnd(r)] else [])
    }

    /** Puts a seam between the last and the first node of a ring. */
    method AddSeam(r: Seam)
      requires net.n >= 1 && SeamsBuilt() && r !in rings
      modifies this
      ensures SeamsBuilt() && rings == old(rings) + [r]
      ensures forall u, v :: Ordinary(u) ==>
        Links(u, v) == old(Links(u, v)) + One(IntoSeam(net, [r], u, v)) + One(OutOfSeam(net, [r], u, v))
    {
      LinkSeam(r);
      startEntries := startEntries + [|startEntries| + 1];
      EntriesAppend(rings, r);
      rings := rings + [r];
    }

    method LinkSeam(r: Seam)
      requires net.n >= 1
      modifies this`successors
      ensures Successors(StartEntry) == old(Successors(StartEntry)) + [SeamEntry(r)]
      ensures Successors(SeamEntry(r)) == old(Successors(SeamEntry(r))) + [SeamStart(r), SeamEnd(r)]
      ensures forall q :: q != r ==> Successors(SeamEntry(q)) == old(Successors(SeamEntry(q)))
      ensures Successors(GlobalStart) == old(Successors(GlobalStart))
      ensures forall u, v :: Ordinary(u) ==>
        Links(u, v) == old(Links(u, v)) + One(IntoSeam(net, [r], u, v)) + One(OutOfSeam(net, [r], u, v))
    {
      AddLinks(r);
      SeamLinksAt(net, r);
    }

    method AddLinks(r: Seam)
      requires net.n >= 1
      modifies this`successors
      ensures forall w :: Successors(w) == old(Successors(w)) + SeamLinks(net, r, w)
      ensures forall u, v :: Ordinary(u) ==>
        Links(u, v) == old(Links(u, v)) + One(IntoSeam(net, [r], u, v)) + One(OutOfSeam(net, [r], u, v))
    {
      Precede(net.RingLast(r), SeamEntry(r));
      Precede(SeamEntry(r), SeamStart(r));
      Precede(SeamEntry(r), SeamEnd(r));
      Precede(SeamStart(r), net.RingFirst(r));
      Precede(StartEntry, SeamEntry(r));
      SeamLinksCount(net, r);
    }

    method ConnectSlots(t: Task)
      requires net.n >= 1 && SeamsBuilt()
      modifies this`successors
      ensures SeamsBuilt()
      ensures forall u, v :: Links(u, v) == old(Links(u, v)) + One(IsOrder(net.n, {t}, u, v))
    {
      for s := 1 to net.n
        invariant SeamsBuilt()
        invariant forall u, v :: Links(u, v) == old(Links(u, v)) + One(IsOrder(s, {t}, u, v))
      {
        Precede(Step(s - 1, t), Step(s, t));
      }
    }

    /** Lets a task's copies run in ring order: slot by slot, and back to the first through a seam. */
    method InterConnectTimeSteps(t: Task)
      requires net.n >= 1 && SeamsBuilt() && TaskRing(t) !in rings
      modifies this
      ensures SeamsBuilt() && rings == old(rings) + [TaskRing(t)]
      ensures forall u, v :: Ordinary(u) ==> Links(u, v) == old(Links(u, v)) + One(IsOrdered(net, {t}, u, v))
    {
      ConnectSlots(t);
      AddSeam(TaskRing(t));
      OrderedSplits(net, t);
    }

    // ---- the whole network -------------------------------------------------------------------

    method BuildTimeSteps()
      requires AllNamed(net)
      modifies this`successors
      ensures forall w: Node :: !w.Step? ==> Successors(w) == old(Successors(w))
      ensures forall u, v :: Links(u, v) == old(Links(u, v)) + One(BracketBelow(net, net.n, u, v))
    {
      for s := 0 to net.n
        invariant forall w: Node :: !w.Step? ==> Successors(w) == old(Successors(w))
        invariant forall u, v :: Links(u, v) == old(Links(u, v)) + One(BracketBelow(net, s, u, v))
      {
        CreateStartStopTasks(s);
      }
    }

    method ConnectComponents() returns (ok: bool)
      modifies this`successors
      ensures ok <==> EdgesStayInside(net) || net.n == 0
      ensures ok ==> forall w: Node :: !w.Step? ==> Successors(w) == old(Successors(w))
      ensures ok ==> forall u, v :: Links(u, v) == old(Links(u, v)) + One(CopyBelow(net, net.n, u, v))
    {
      for s := 0 to net.n
        invariant s > 0 ==> EdgesStayInside(net)
        invariant forall w: Node :: !w.Step? ==> Successors(w) == old(Successors(w))
        invariant forall u, v :: Links(u, v) == old(Links(u, v)) + One(CopyBelow(net, s, u, v))
      {
        var connected := ConnectTimeStepComponents(s);
        if !connected { return false; }
      }
      return true;
    }

    /** Ties every slot into its own ring. */
    method ConnectEndsToStarts()
      requires net.n >= 1 && SeamsBuilt() && rings == []
      modifies this
      ensures SeamsBuilt() && rings == SelfRings(net.n)
      ensures forall u, v :: Ordinary(u) ==>
        Links(u, v) == old(Links(u, v)) + One(IntoSeam(net, rings, u, v)) + One(OutOfSeam(net, rings, u, v))
    {
      for s := 0 to net.n
        invariant SeamsBuilt() && rings == SelfRings(s)
        invariant forall u, v :: Ordinary(u) ==>
          Links(u, v) == old(Links(u, v)) + One(IntoSeam(net, rings, u, v)) + One(OutOfSeam(net, rings, u, v))
      {
        AddSeam(SelfRing(s));
      }
    }

    method ConnectNextOrdered(t: Task, ghost done: set<Task>, ghost added: seq<Seam>)
      requires net.n >= 1 && SeamsBuilt() && TaskRing(t) !in rings
      requires t !in done && RingsOf(done, added)
      modifies this
      ensures SeamsBuilt() && rings == old(rings) + [TaskRing(t)]
      ensures RingsOf(done + {t}, added + [TaskRing(t)])
      ensures forall u, v :: Ordinary(u) ==>
        Links(u, v) + One(IsOrdered(net, done, u, v)) == old(Links(u, v)) + One(IsOrdered(net, done + {t}, u, v))
    {
      InterConnectTimeSteps(t);
      forall u, v
        ensures One(IsOrdered(net, done + {t}, u, v)) == One(IsOrdered(net, done, u, v)) + One(IsOrdered(net, {t}, u, v))
      {
      }
    }

    method ConnectBrackets() returns (ghost added: seq<Seam>)
      requires net.n >= 1 && SeamsBuilt() && forall r :: r in rings ==> r.SelfRing?
      modifies this
      ensures SeamsBuilt() && rings == old(rings) + added && RingsOf({TimeStepStart, TimeStepEnd}, added)
      ensures forall u, v :: Ordinary(u) ==>
        Links(u, v) == old(Links(u, v)) + One(IsOrdered(net, {TimeStepStart, TimeStepEnd}, u, v))
    {
      added := [];
      ConnectNextOrdered(TimeStepStart, {}, added);
      added := [TaskRing(TimeStepStart)];
      ConnectNextOrdered(TimeStepEnd, {TimeStepStart}, added);
      added := added + [TaskRing(TimeStepEnd)];
    }

    /** Lets the brackets and the serial tasks run in ring order. */
    method ConnectOrderedTasks() returns (ghost added: seq<Seam>)
      requires net.n >= 1 && AllNamed(net) && net.serial <= net.tasks
      requires SeamsBuilt() && forall r :: r in rings ==> r.SelfRing?
      modifies this
      ensures SeamsBuilt() && rings == old(rings) + added && RingsOf(Ordered(net), added)
      ensures forall u, v :: Ordinary(u) ==>
        Links(u, v) == old(Links(u, v)) + One(IsOrdered(net, Ordered(net), u, v))
    {
      added := ConnectBrackets();
      var rest := net.serial;
      ghost var done := {TimeStepStart, TimeStepEnd};
      while rest != {}
        invariant rest <= net.serial && done == Ordered(net) - rest
        invariant SeamsBuilt() && rings == old(rings) + added && RingsOf(done, added)
        invariant forall u, v :: Ordinary(u) ==>
          Links(u, v) == old(Links(u, v)) + One(IsOrdered(net, done, u, v))
      {
        var t :| t in rest;
        ConnectNextOrdered(t, done, added);
        added := added + [TaskRing(t)];
        rest, done := rest - {t}, done + {t};
      }
    }

    /** The start entry comes behind the global start, with the global end as its first successor. */
    method CreateStartEntry()
      requires successors == map[] && startEntries == [] && rings == []
      modifies this`successors
      ensures SeamsBuilt()
      ensures forall u, v :: Ordinary(u) ==> Links(u, v) == 0
    {
      Precede(GlobalStart, StartEntry);
      Precede(StartEntry, GlobalEnd);
    }

    method CreateInterTimeStepDependencies() returns (ghost added: seq<Seam>)
      requires net.n >= 1 && AllNamed(net) && net.serial <= net.tasks && SeamsBuilt() && rings == []
      modifies this
      ensures SeamsBuilt() && rings == SelfRings(net.n) + added && RingsOf(Ordered(net), added)
      ensures forall u, v :: Ordinary(u) ==>
        Links(u, v) == old(Links(u, v)) + One(IntoSeam(net, SelfRings(net.n), u, v))
                       + One(OutOfSeam(net, SelfRings(net.n), u, v)) + One(IsOrdered(net, Ordered(net), u, v))
    {
      ConnectEndsToStarts();
      added := ConnectOrderedTasks();
    }

    /**
      Builds the network. It fails exactly when some edge leads to an unknown task; otherwise the
      ordinary links are those of `Network.Edge`, each once, there is one seam for every ring, and
      the start entry jumps to each seam's entry once and never to the global end.
    */
    method BuildGraph() returns (ok: bool)
      requires successors == map[] && startEntries == [] && rings == []
      requires net.n >= 1 && AllNamed(net) && net.serial <= net.tasks
      requires forall e :: e in net.edges ==> e.0 in net.tasks
      modifies this
      ensures ok <==> EdgesStayInside(net)
      ensures ok ==> SeamsBuilt()
      ensures ok ==> forall u, v :: Ordinary(u) ==> Links(u, v) == One(net.Edge(u, v))
      ensures ok ==> forall r :: r in rings <==> net.IsRing(r)
      ensures ok ==> forall i, j :: 0 <= i < j < |rings| ==> rings[i] != rings[j]
    {
      CreateStartEntry();
      BuildTimeSteps();
      ok := ConnectComponents();
      if !ok { return; }
      ghost var added := CreateInterTimeStepDependencies();
      forall u: Node, v | Ordinary(u)
        ensures Links(u, v) == One(net.Edge(u, v))
      {
        LinksAreEdges(net, u, v);
      }
      RingsAreComplete(net, added);
    }
  }

  /** Nodes that do not choose among their successors. */
  predicate Ordinary(u: Node) {
    u.Step? || u.SeamStart? || u.SeamEnd?
  }

  /** The links that a seam adds behind a node. */
  function SeamLinks(net: Network, r: Seam, w: Node): seq<Node>
    requires net.n >= 1
  {
    if w == net.RingLast(r) then [SeamEntry(r)]
    else if w == SeamEntry(r) then [SeamStart(r), SeamEnd(r)]
    else if w == SeamStart(r) then [net.RingFirst(r)]
    else if w == StartEntry then [SeamEntry(r)]
    else []
  }

  lemma SeamLinksAt(net: Network, r: Seam)
    requires net.n >= 1
    ensures SeamLinks(net, r, StartEntry) == [SeamEntry(r)] && SeamLinks(net, r, GlobalStart) == []
    ensures SeamLinks(net, r, SeamEntry(r)) == [SeamStart(r), SeamEnd(r)]
    ensures forall q :: q != r ==> SeamLinks(net, r, SeamEntry(q)) == []
  {
  }

  lemma SeamLinksCount(net: Network, r: Seam)
    requires net.n >= 1
    ensures forall u, v :: Ordinary(u) ==>
      multiset(SeamLinks(net, r, u))[v] == One(IntoSeam(net, [r], u, v)) + One(OutOfSeam(net, [r], u, v))
  {
  }

  function Entries(rings: seq<Seam>): seq<Node> {
    seq(|rings|, i requires 0 <= i < |rings| => SeamEntry(rings[i]))
  }

  function Numbers(count: nat): seq<int> {
    seq(count, i => i + 1)
  }

  lemma EntriesAppend(rings: seq<Seam>, r: Seam)
    ensures Entries(rings + [r]) == Entries(rings) + [SeamEntry(r)]
    ensures Numbers(|rings| + 1) == Numbers(|rings|) + [|rings| + 1]
  {
  }

  function One(b: bool): nat { if b then 1 else 0 }

  predicate AllNamed(net: Network) {
    forall t :: t in net.tasks ==> t.Named?
  }

  predicate EdgesStayInside(net: Network) {
    forall e :: e in net.edges && e.0 in net.tasks ==> e.1 in net.tasks
  }

  predicate IsStartBracket(net: Network, s: nat, some: set<Task>, u: Node, v: Node) {
    u == Step(s, TimeStepStart) && v.Step? && v.slot == s && v.task in some && net.IsStartPoint(v.task)
  }

  predicate IsEndBracket(net: Network, s: nat, some: set<Task>, u: Node, v: Node) {
    v == Step(s, TimeStepEnd) && u.Step? && u.slot == s && u.task in some && net.IsEndPoint(u.task)
  }

  lemma OneMoreStart(net: Network, s: nat, some: set<Task>, t: Task)
    requires t in net.tasks && t !in some
    ensures forall u, v :: One(IsStartBracket(net, s, some + {t}, u, v)) == One(IsStartBracket(net, s, some, u, v))
                           + One(net.IsStartPoint(t) && u == Step(s, TimeStepStart) && v == Step(s, t))
  {
  }

  lemma OneMoreEnd(net: Network, s: nat, some: set<Task>, t: Task)
    requires t in net.tasks && t !in some
    ensures forall u, v :: One(IsEndBracket(net, s, some + {t}, u, v)) == One(IsEndBracket(net, s, some, u, v))
                           + One(net.IsEndPoint(t) && u == Step(s, t) && v == Step(s, TimeStepEnd))
  {
  }

  predicate IsBracket(net: Network, s: nat, u: Node, v: Node) {
    IsStartBracket(net, s, net.tasks, u, v) || IsEndBracket(net, s, net.tasks, u, v)
  }

  predicate IsLink(s: nat, t: Task, some: set<Task>, u: Node, v: Node) {
    u == Step(s, t) && v.Step? && v.slot == s && v.task in some
  }

  /** The copy, in slot `s`, of an edge that leaves one of `some` tasks. */
  predicate IsCopy(net: Network, s: nat, some: set<Task>, u: Node, v: Node) {
    u.Step? && v.Step? && u.slot == v.slot == s && u.task in some && (u.task, v.task) in net.edges
  }

  /** The links of an ordered task's copies among the first `n` slots. */
  predicate IsOrder(n: nat, some: set<Task>, u: Node, v: Node) {
    u.Step? && v.Step? && u.slot + 1 == v.slot < n && u.task == v.task && u.task in some
  }

  predicate IntoSeam(net: Network, rings: seq<Seam>, u: Node, v: Node)
    requires net.n >= 1
  {
    v.SeamEntry? && v.ring in rings && u == net.RingLast(v.ring)
  }

  predicate OutOfSeam(net: Network, rings: seq<Seam>, u: Node, v: Node) {
    u.SeamStart? && u.ring in rings && v == net.RingFirst(u.ring)
  }

  predicate BracketBelow(net: Network, k: nat, u: Node, v: Node) {
    u.Step? && u.slot < k && IsBracket(net, u.slot, u, v)
  }

  predicate CopyBelow(net: Network, k: nat, u: Node, v: Node) {
    u.Step? && u.slot < k && IsCopy(net, u.slot, net.tasks, u, v)
  }

  function SelfRings(k: nat): seq<Seam> {
    seq(k, s requires 0 <= s => SelfRing(s))
  }

  /** The tasks whose copies run in ring order. */
  function Ordered(net: Network): set<Task> {
    net.serial + {TimeStepStart, TimeStepEnd}
  }

  /** `rings` lists the rings of `some` tasks, each once. */
  ghost predicate RingsOf(some: set<Task>, rings: seq<Seam>) {
    && (forall r :: r in rings <==> r.TaskRing? && r.task in some)
    && (forall i, j :: 0 <= i < j < |rings| ==> rings[i] != rings[j])
  }

  /** The links that make `some` tasks run in ring order. */
  predicate IsOrdered(net: Network, some: set<Task>, u: Node, v: Node)
    requires net.n >= 1
  {
    || IsOrder(net.n, some, u, v)
    || (v.SeamEntry? && v.ring.TaskRing? && v.ring.task in some && u == net.RingLast(v.ring))
    || (u.SeamStart? && u.ring.TaskRing? && u.ring.task in some && v == net.RingFirst(u.ring))
  }

  lemma OrderedSplits(net: Network, t: Task)
    requires net.n >= 1
    ensures forall u, v ::
      One(IsOrdered(net, {t}, u, v)) == One(IsOrder(net.n, {t}, u, v)) + One(IntoSeam(net, [TaskRing(t)], u, v))
                                        + One(OutOfSeam(net, [TaskRing(t)], u, v))
  {
  }

  /** The links of the four phases are disjoint and make up the network's edges. */
  lemma LinksAreEdges(net: Network, u: Node, v: Node)
    requires net.n >= 1 && AllNamed(net) && EdgesStayInside(net) && Ordinary(u)
    requires forall e :: e in net.edges ==> e.0 in net.tasks
    ensures One(net.Edge(u, v)) == One(BracketBelow(net, net.n, u, v)) + One(CopyBelow(net, net.n, u, v))
      + One(IntoSeam(net, SelfRings(net.n), u, v)) + One(OutOfSeam(net, SelfRings(net.n), u, v))
      + One(IsOrdered(net, Ordered(net), u, v))
  {
    match v {
      case Step(s, t) =>
        if u.Step? && u.slot == s { SlotLinks(net, s, u.task, t); }
      case SeamEntry(r) =>
        if r.SelfRing? && r.slot < net.n { assert SelfRings(net.n)[r.slot] == r; }
      case _ =>
    }
    if u.SeamStart? && u.ring.SelfRing? && u.ring.slot < net.n { assert SelfRings(net.n)[u.ring.slot] == u.ring; }
  }

  /** The slot's edges are the brackets and the copies. */
  lemma SlotLinks(net: Network, s: nat, a: Task, b: Task)
    requires AllNamed(net) && EdgesStayInside(net)
    requires forall e :: e in net.edges ==> e.0 in net.tasks
    ensures One((a, b) in net.SlotEdges())
      == One(IsBracket(net, s, Step(s, a), Step(s, b))) + One(IsCopy(net, s, net.tasks, Step(s, a), Step(s, b)))
  {
  }

  lemma RingsAreComplete(net: Network, added: seq<Seam>)
    requires RingsOf(Ordered(net), added)
    ensures forall r :: r in SelfRings(net.n) + added <==> net.IsRing(r)
    ensures var rings := SelfRings(net.n) + added; forall i, j :: 0 <= i < j < |rings| ==> rings[i] != rings[j]
  {
    var rings := SelfRings(net.n) + added;
    forall r | net.IsRing(r)
      ensures r in rings
    {
      if r.SelfRing? { assert rings[r.slot] == r; } else { assert r in added; }
    }
    forall i, j | 0 <= i < j < |rings|
      ensures rings[i] != rings[j]
    {
      if i < net.n && j >= net.n { assert added[j - net.n] in added; }
    }
  }

  /** The successors that a condition task's choices name. */
  function Jumps(choices: seq<int>, successors: seq<Node>): seq<Node>
    requires forall k :: 0 <= k < |choices| ==> 0 <= choices[k] < |successors|
  {
    seq(|choices|, i requires 0 <= i < |choices| => successors[choices[i]])
  }

  /** The start entry's choices name exactly the seams' entries, and not the global end before them. */
  lemma StartEntryJumps(rings: seq<Seam>)
    ensures forall k :: 0 <= k < |rings| ==> 0 <= Numbers(|rings|)[k] < |[GlobalEnd] + Entries(rings)|
    ensures Jumps(Numbers(|rings|), [GlobalEnd] + Entries(rings)) == Entries(rings)
    ensures GlobalEnd !in Jumps(Numbers(|rings|), [GlobalEnd] + Entries(rings))
  {
  }
}
