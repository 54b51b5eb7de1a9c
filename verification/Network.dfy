/**
  The task network of one time domain: a copy of the per-event task graph for every slot of the
  ring, bracketed by TimeStepStart and TimeStepEnd, and closed into rings by seams.

  A seam has three nodes. Its entry is a condition task that looks at a slot's event and jumps
  either to the seam's start, which lets the ring's first task run again, or to the seam's end.
*/
module Network {
  import opened Digraph

  datatype Task = TimeStepStart | TimeStepEnd | Named(id: string)

  /** A slot's own ring, and the ring that one task's copies form across the slots. */
  datatype Seam = SelfRing(slot: nat) | TaskRing(task: Task)

  datatype Node =
    | Step(slot: nat, task: Task)
    | SeamEntry(ring: Seam)
    | SeamStart(ring: Seam)
    | SeamEnd(ring: Seam)
    | GlobalStart
    | StartEntry
    | GlobalEnd

  /**
    `n` slots, each with a copy of `tasks` and their `edges`; `serial` tasks also follow their own
    copy in the previous slot. `sources` lists the tasks that wait for outside data, by component
    index.
  */
  datatype Network = Network(
    n: nat,
    tasks: set<Task>,
    edges: set<(Task, Task)>,
    serial: set<Task>,
    sources: seq<Task>)
  {
    predicate IsStartPoint(t: Task) {
      t in tasks && forall e :: e in edges ==> e.1 != t
    }

    predicate IsEndPoint(t: Task) {
      t in tasks && forall e :: e in edges ==> e.0 != t
    }

    ghost predicate WellFormed() {
      && n >= 1
      && (forall t :: t in tasks ==> t.Named?)
      && Closed(tasks, edges)
      && Acyclic(edges)
      && serial <= tasks
      && sources != []
      && (forall t :: t in sources ==> t in tasks)
      && (forall i, j :: 0 <= i < j < |sources| ==> sources[i] != sources[j])
      && (forall t {:trigger IsStartPoint(t)} :: IsStartPoint(t) ==> t in sources)
    }

    /** The tasks of one slot, brackets included. */
    function SlotTasks(): set<Task> {
      tasks + {TimeStepStart, TimeStepEnd}
    }

    /** The edges inside one slot: only start points and end points are tied to the brackets. */
    function SlotEdges(): set<(Task, Task)> {
      edges
      + (set t {:trigger IsStartPoint(t)} | t in tasks && IsStartPoint(t) :: (TimeStepStart, t))
      + (set t {:trigger IsEndPoint(t)} | t in tasks && IsEndPoint(t) :: (t, TimeStepEnd))
    }

    /** The tasks whose copies run in ring order. */
    predicate RunsInOrder(t: Task) {
      t == TimeStepStart || t == TimeStepEnd || t in serial
    }

    predicate IsRing(r: Seam) {
      match r
      case SelfRing(s) => s < n
      case TaskRing(t) => RunsInOrder(t)
    }

    /** The node in front of a seam, and the node behind it. */
    function RingLast(r: Seam): Node
      requires n >= 1
    {
      match r
      case SelfRing(s) => Step(s, TimeStepEnd)
      case TaskRing(t) => Step(n - 1, t)
    }

    function RingFirst(r: Seam): Node {
      match r
      case SelfRing(s) => Step(s, TimeStepStart)
      case TaskRing(t) => Step(0, t)
    }

    /** The slot whose event a seam's entry looks at. */
    function SeamSlot(r: Seam): nat {
      match r
      case SelfRing(s) => s
      case TaskRing(t) => 0
    }

    /** The ordinary (always counted) dependencies. */
    predicate Edge(u: Node, v: Node)
      requires n >= 1
    {
      match v
      case Step(s, t) =>
        (match u
         case Step(s', t') =>
           || (s' == s < n && (t', t) in SlotEdges())
           || (s' + 1 == s < n && t' == t && RunsInOrder(t))
         case SeamStart(r) => IsRing(r) && v == RingFirst(r)
         case _ => false)
      case SeamEntry(r) => IsRing(r) && u == RingLast(r)
      case _ => false
    }
  }

  /**
    Although only start points and end points touch the brackets, TimeStepStart leads to every
    task of its slot and every task leads to TimeStepEnd.
  */
  lemma BracketsEnclose(net: Network, t: Task)
    requires Closed(net.tasks, net.edges) && Acyclic(net.edges) && t in net.tasks
    ensures Reaches(net.SlotEdges(), TimeStepStart, t)
    ensures Reaches(net.SlotEdges(), t, TimeStepEnd)
  {
    StartLeadsTo(net, t);
    LeadsToEnd(net, t);
  }

  lemma {:induction false} StartLeadsTo(net: Network, t: Task)
    requires Closed(net.tasks, net.edges) && Acyclic(net.edges) && t in net.tasks
    ensures Reaches(net.SlotEdges(), TimeStepStart, t)
    decreases Rank(net.tasks, net.edges, t)
  {
    if net.IsStartPoint(t) {
      assert (TimeStepStart, t) in net.SlotEdges();
      EdgeReaches(net.SlotEdges(), TimeStepStart, t);
    } else {
      var e :| e in net.edges && e.1 == t;
      RankIncreases(net.tasks, net.edges, e.0, t);
      StartLeadsTo(net, e.0);
      EdgeReaches(net.SlotEdges(), e.0, t);
      ReachesTransitive(net.SlotEdges(), TimeStepStart, e.0, t);
    }
  }

  lemma {:induction false} LeadsToEnd(net: Network, t: Task)
    requires Closed(net.tasks, net.edges) && Acyclic(net.edges) && t in net.tasks
    ensures Reaches(net.SlotEdges(), t, TimeStepEnd)
    decreases Height(net.tasks, net.edges, t)
  {
    if net.IsEndPoint(t) {
      assert (t, TimeStepEnd) in net.SlotEdges();
      EdgeReaches(net.SlotEdges(), t, TimeStepEnd);
    } else {
      var e :| e in net.edges && e.0 == t;
      HeightDecreases(net.tasks, net.edges, t, e.1);
      LeadsToEnd(net, e.1);
      EdgeReaches(net.SlotEdges(), t, e.1);
      ReachesTransitive(net.SlotEdges(), t, e.1, TimeStepEnd);
    }
  }

  /** The brackets close no cycle: the slot's own edges stay acyclic. */
  lemma SlotEdgesAcyclic(net: Network)
    requires Closed(net.tasks, net.edges) && Acyclic(net.edges)
    requires forall t :: t in net.tasks ==> t.Named?
    ensures Acyclic(net.SlotEdges()) && Closed(net.SlotTasks(), net.SlotEdges())
  {
    var major := (t: Task) => match t case TimeStepStart => 0 case Named(_) => 1 case TimeStepEnd => 2;
    var minor := (t: Task) => Rank(net.tasks, net.edges, t);
    forall e | e in net.SlotEdges()
      ensures Before(e.0, e.1, major, minor)
    {
      if e in net.edges { RankIncreases(net.tasks, net.edges, e.0, e.1); }
    }
    LexicographicAcyclic(net.SlotEdges(), major, minor);
  }
}
