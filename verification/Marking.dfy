/**
  How the task network runs. A node may start when each of its ordinary predecessors has finished
  once since the node's own last start; a seam's entry starts once for the jump that the start
  entry makes to it, and its own jumps are what its start and end wait for.

  The module derives from these local rules that the marking is safe, that no task overlaps
  itself, that a slot never hosts two rounds, that ordered tasks run in ring order, and that the
  oldest unfinished step always has a node that is running or may start.
*/
module Marking {
  import opened Digraph
  import opened Network

  /** How often each node has started and finished, and how often each seam was jumped through. */
  datatype Counts = Counts(started: map<Node, nat>, finished: map<Node, nat>, jumped: map<Seam, nat>)
  {
    function Started(v: Node): nat { if v in started then started[v] else 0 }

    function Finished(v: Node): nat { if v in finished then finished[v] else 0 }

    function Jumped(r: Seam): nat { if r in jumped then jumped[r] else 0 }

    predicate Running(v: Node) { Finished(v) < Started(v) }
  }

  /** Every seam entry holds the token of the start entry's jump; nothing has run yet. */
  const INITIAL := Counts(map[], map[], map[])

  function InitialToken(v: Node): nat {
    if v.SeamEntry? then 1 else 0
  }

  predicate IsNode(net: Network, v: Node) {
    match v
    case Step(s, t) => s < net.n && t in net.SlotTasks()
    case SeamEntry(r) => net.IsRing(r)
    case SeamStart(r) => net.IsRing(r)
    case SeamEnd(r) => net.IsRing(r)
    case _ => false
  }

  /** The tokens waiting on the edge from `u` to `v`. */
  function Tokens(c: Counts, u: Node, v: Node): int {
    c.Finished(u) + InitialToken(v) - c.Started(v)
  }

  ghost predicate Enabled(net: Network, c: Counts, v: Node)
    requires net.n >= 1
  {
    && IsNode(net, v)
    && (forall u :: net.Edge(u, v) ==> Tokens(c, u, v) > 0)
    && (v.SeamStart? ==> c.Started(v) < c.Jumped(v.ring))
    && (v.SeamEnd? ==> c.Started(v) < c.Finished(SeamEntry(v.ring)) - c.Jumped(v.ring))
  }

  function Begin(c: Counts, v: Node): Counts {
    c.(started := c.started[v := c.Started(v) + 1])
  }

  /** `again` is the choice of a seam entry: jump to the seam's start, or to its end. */
  function Finish(c: Counts, v: Node, again: bool): Counts {
    var d := c.(finished := c.finished[v := c.Finished(v) + 1]);
    if v.SeamEntry? && again then d.(jumped := d.jumped[v.ring := d.Jumped(v.ring) + 1]) else d
  }

  /** What the firing rule keeps, edge by edge. */
  ghost predicate Consistent(net: Network, c: Counts)
    requires net.n >= 1
  {
    && (forall v :: c.Finished(v) <= c.Started(v))
    && (forall u, v {:trigger net.Edge(u, v)} :: net.Edge(u, v) ==> c.Started(v) <= c.Finished(u) + InitialToken(v))
    && (forall r :: c.Started(SeamStart(r)) <= c.Jumped(r) <= c.Finished(SeamEntry(r)))
    && (forall r :: c.Started(SeamEnd(r)) + c.Jumped(r) <= c.Finished(SeamEntry(r)))
  }

  lemma InitialConsistent(net: Network)
    requires net.n >= 1
    ensures Consistent(net, INITIAL)
  {
  }

  lemma BeginConsistent(net: Network, c: Counts, v: Node)
    requires net.n >= 1 && Consistent(net, c) && Enabled(net, c, v)
    ensures Consistent(net, Begin(c, v))
  {
    var d := Begin(c, v);
    assert forall w :: d.Started(w) == c.Started(w) + if w == v then 1 else 0;
    assert forall w :: d.Finished(w) == c.Finished(w);
    assert forall r :: d.Jumped(r) == c.Jumped(r);
    forall u, w | net.Edge(u, w)
      ensures d.Started(w) <= d.Finished(u) + InitialToken(w)
    {
      if w == v { assert Tokens(c, u, v) > 0; }
    }
  }

  lemma FinishConsistent(net: Network, c: Counts, v: Node, again: bool)
    requires net.n >= 1 && Consistent(net, c) && c.Running(v)
    ensures Consistent(net, Finish(c, v, again))
  {
    var d := Finish(c, v, again);
    FinishCounts(c, v, again);
    forall u, w | net.Edge(u, w)
      ensures d.Started(w) <= d.Finished(u) + InitialToken(w)
    {
    }
  }

  lemma FinishCounts(c: Counts, v: Node, again: bool)
    ensures var d := Finish(c, v, again);
      && (forall w :: d.Started(w) == c.Started(w))
      && (forall w :: d.Finished(w) == c.Finished(w) + if w == v then 1 else 0)
      && (forall r :: d.Jumped(r) == c.Jumped(r) + if v == SeamEntry(r) && again then 1 else 0)
  {
  }

  // ---- one slot ------------------------------------------------------------------------------

  /** Along a walk through a slot, a later task never starts ahead of an earlier one's finish. */
  lemma {:induction false} WalkDelays(net: Network, c: Counts, s: nat, p: seq<Task>)
    requires net.n >= 1 && s < net.n && Consistent(net, c)
    requires IsWalk(net.SlotEdges(), p) && |p| >= 2
    ensures c.Started(Step(s, p[|p| - 1])) <= c.Finished(Step(s, p[0]))
  {
    var k := |p| - 1;
    assert (p[k - 1], p[k]) in net.SlotEdges();
    assert net.Edge(Step(s, p[k - 1]), Step(s, p[k]));
    if k > 1 {
      var q := p[..k];
      assert IsWalk(net.SlotEdges(), q);
      WalkDelays(net, c, s, q);
    }
  }

  lemma ReachDelays(net: Network, c: Counts, s: nat, a: Task, b: Task)
    requires net.n >= 1 && s < net.n && Consistent(net, c)
    requires Reaches(net.SlotEdges(), a, b)
    ensures c.Started(Step(s, b)) <= c.Finished(Step(s, a))
  {
    var p :| IsWalk(net.SlotEdges(), p) && |p| >= 2 && p[0] == a && p[|p| - 1] == b;
    WalkDelays(net, c, s, p);
  }

  /** A ring's seam lets its first task run at most once more than its last one has finished. */
  lemma SeamDelays(net: Network, c: Counts, r: Seam)
    requires net.n >= 1 && Consistent(net, c) && net.IsRing(r)
    ensures c.Started(net.RingFirst(r)) <= c.Finished(SeamStart(r)) <= c.Started(SeamStart(r)) <= c.Jumped(r)
    ensures c.Jumped(r) <= c.Finished(SeamEntry(r)) <= c.Started(SeamEntry(r)) <= c.Finished(net.RingLast(r)) + 1
  {
    assert net.Edge(SeamStart(r), net.RingFirst(r));
    assert net.Edge(net.RingLast(r), SeamEntry(r));
  }

  /**
    A slot hosts one round at a time: between TimeStepEnd's count and that count plus one lie the
    starts and finishes of all its tasks.
  */
  lemma SlotWindow(net: Network, c: Counts, s: nat, t: Task)
    requires net.WellFormed() && Consistent(net, c) && s < net.n && t in net.SlotTasks()
    ensures c.Started(Step(s, TimeStepEnd)) <= c.Finished(Step(s, t)) || t == TimeStepEnd
    ensures c.Started(Step(s, t)) <= c.Finished(Step(s, TimeStepStart)) || t == TimeStepStart
    ensures c.Finished(Step(s, TimeStepEnd)) <= c.Finished(Step(s, t))
    ensures c.Finished(Step(s, t)) <= c.Started(Step(s, t)) <= c.Started(Step(s, TimeStepStart))
    ensures c.Started(Step(s, TimeStepStart)) <= c.Finished(Step(s, TimeStepEnd)) + 1
  {
    SeamDelays(net, c, SelfRing(s));
    var some := net.sources[0];
    assert some in net.sources;
    BracketsEnclose(net, some);
    ReachesTransitive(net.SlotEdges(), TimeStepStart, some, TimeStepEnd);
    ReachDelays(net, c, s, TimeStepStart, TimeStepEnd);
    if t in net.tasks {
      BracketsEnclose(net, t);
      ReachDelays(net, c, s, TimeStepStart, t);
      ReachDelays(net, c, s, t, TimeStepEnd);
    }
  }

  // ---- one ordered task across the slots -----------------------------------------------------

  /** Later slots of an ordered task never start ahead of earlier slots' finishes. */
  lemma {:induction false} OrderDelays(net: Network, c: Counts, t: Task, s: nat, s': nat)
    requires net.n >= 1 && Consistent(net, c) && net.RunsInOrder(t) && s < s' < net.n
    ensures c.Started(Step(s', t)) <= c.Finished(Step(s, t))
    decreases s' - s
  {
    assert net.Edge(Step(s' - 1, t), Step(s', t));
    if s + 1 < s' { OrderDelays(net, c, t, s, s' - 1); }
  }

  /** The copies of an ordered task are at most one round apart, earlier slots leading. */
  lemma OrderWindow(net: Network, c: Counts, t: Task, s: nat, s': nat)
    requires net.n >= 1 && Consistent(net, c) && net.RunsInOrder(t) && s <= s' < net.n
    ensures s < s' ==> c.Started(Step(s', t)) <= c.Finished(Step(s, t))
    ensures c.Started(Step(s, t)) <= c.Finished(Step(s', t)) + 1
  {
    SeamDelays(net, c, TaskRing(t));
    if s < s' { OrderDelays(net, c, t, s, s'); }
    if 0 < s { OrderDelays(net, c, t, 0, s); }
    if s' < net.n - 1 { OrderDelays(net, c, t, s', net.n - 1); }
  }

  // ---- safety of the marking -----------------------------------------------------------------

  /** No node starts again before it has finished. */
  lemma NeverOverlaps(net: Network, c: Counts, v: Node)
    requires net.WellFormed() && Consistent(net, c) && IsNode(net, v)
    ensures c.Started(v) <= c.Finished(v) + 1
  {
    match v
    case Step(s, t) => SlotWindow(net, c, s, t);
    case SeamEntry(r) => RingNeverLaps(net, c, r);
    case SeamStart(r) => RingNeverLaps(net, c, r);
    case SeamEnd(r) =>
      SeamDelays(net, c, r);
      RingNeverLaps(net, c, r);
  }

  lemma RingNeverLaps(net: Network, c: Counts, r: Seam)
    requires net.WellFormed() && Consistent(net, c) && net.IsRing(r)
    ensures c.Finished(net.RingLast(r)) <= c.Finished(net.RingFirst(r)) <= c.Started(net.RingFirst(r))
    ensures c.Started(SeamEntry(r)) <= c.Finished(SeamEntry(r)) + 1
    ensures c.Started(SeamStart(r)) <= c.Finished(SeamStart(r)) + 1
  {
    SeamDelays(net, c, r);
    match r {
      case SelfRing(s) => SlotWindow(net, c, s, TimeStepStart);
      case TaskRing(t) => OrderWindow(net, c, t, 0, net.n - 1);
    }
  }

  /** No edge ever holds two tokens, and none holds a token while its target runs. */
  lemma MarkingIsSafe(net: Network, c: Counts, u: Node, v: Node)
    requires net.WellFormed() && Consistent(net, c) && net.Edge(u, v)
    ensures 0 <= Tokens(c, u, v) <= 1
    ensures c.Running(v) ==> Tokens(c, u, v) == 0
  {
    match v {
      case Step(s, t) =>
        match u {
          case Step(s', t') =>
            if s' == s && (t', t) in net.SlotEdges() {
              SlotEdgesAcyclic(net);
              SlotWindow(net, c, s, t);
              SlotWindow(net, c, s, t');
            } else {
              OrderWindow(net, c, t, s', s);
            }
          case SeamStart(r) =>
            SeamDelays(net, c, r);
            RingNeverLaps(net, c, r);
          case _ =>
        }
      case SeamEntry(r) =>
        SeamDelays(net, c, r);
        RingNeverLaps(net, c, r);
      case _ =>
    }
  }

  // ---- progress ------------------------------------------------------------------------------

  ghost predicate Active(net: Network, c: Counts, v: Node)
    requires net.n >= 1
  {
    IsNode(net, v) && (c.Running(v) || Enabled(net, c, v))
  }

  /** The seam has not refused to start round `k` of its ring. */
  predicate Open(c: Counts, r: Seam, k: nat) {
    k < c.Jumped(r) || c.Jumped(r) == c.Finished(SeamEntry(r))
  }

  /** Slot `s` is the one whose round `k` is the oldest unfinished step. */
  predicate Oldest(net: Network, c: Counts, s: nat, k: nat)
    requires net.n >= 1
  {
    && s < net.n
    && c.Finished(Step(s, TimeStepEnd)) == k
    && (s > 0 ==> c.Finished(Step(s - 1, TimeStepEnd)) > k)
    && (s == 0 ==> c.Finished(Step(net.n - 1, TimeStepEnd)) >= k)
  }

  /** The network cannot come to rest on an unfinished step whose seams are open. */
  lemma OldestStepProgresses(net: Network, c: Counts, s: nat, k: nat) returns (v: Node)
    requires net.WellFormed() && Consistent(net, c) && Oldest(net, c, s, k)
    requires Open(c, SelfRing(s), k)
    requires s == 0 ==> forall t :: net.RunsInOrder(t) ==> Open(c, TaskRing(t), k)
    ensures Active(net, c, v)
    ensures v.Step? ==> v.slot == s && c.Finished(v) == k
  {
    var undone := set t | t in net.SlotTasks() && c.Finished(Step(s, t)) == k;
    var t := FirstUndone(net, undone);
    v := Step(s, t);
    SlotWindow(net, c, s, t);
    if !Active(net, c, v) {
      var r := OnlySeamMissing(net, c, s, k, t, undone);
      v := SeamProgresses(net, c, r, k);
    }
  }

  /** The first undone task of the oldest step can only be waiting for a seam. */
  lemma OnlySeamMissing(net: Network, c: Counts, s: nat, k: nat, t: Task, undone: set<Task>) returns (r: Seam)
    requires net.WellFormed() && Consistent(net, c) && Oldest(net, c, s, k)
    requires undone == set t | t in net.SlotTasks() && c.Finished(Step(s, t)) == k
    requires t in undone && forall e :: e in net.SlotEdges() && e.1 == t ==> e.0 !in undone
    requires !Active(net, c, Step(s, t))
    ensures net.IsRing(r) && Step(s, t) == net.RingFirst(r) && c.Finished(SeamStart(r)) == k
  {
    var u := MissingToken(net, c, s, t);
    if u.Step? {
      assert (u.task, t) in net.SlotEdges() ==> (u.task, t).0 !in undone;
      StepHasFinished(net, c, s, k, u.slot, u.task, t);
      assert false;
    }
    r := u.ring;
  }

  /** A task that may not start lacks a token from a step or from a seam. */
  lemma MissingToken(net: Network, c: Counts, s: nat, t: Task) returns (u: Node)
    requires net.n >= 1 && s < net.n && t in net.SlotTasks()
    requires Consistent(net, c) && !Active(net, c, Step(s, t))
    ensures net.Edge(u, Step(s, t)) && Tokens(c, u, Step(s, t)) == 0
    ensures u.Step? || (u.SeamStart? && net.IsRing(u.ring) && Step(s, t) == net.RingFirst(u.ring))
    ensures u.Step? ==> u.slot == s || u.slot + 1 == s
    ensures u.Step? && u.slot == s ==> (u.task, t) in net.SlotEdges()
  {
    u :| net.Edge(u, Step(s, t)) && Tokens(c, u, Step(s, t)) <= 0;
  }

  lemma FirstUndone(net: Network, undone: set<Task>) returns (t: Task)
    requires net.WellFormed() && TimeStepEnd in undone
    ensures t in undone && forall e :: e in net.SlotEdges() && e.1 == t ==> e.0 !in undone
  {
    SlotEdgesAcyclic(net);
    t := FirstOf(net.SlotTasks(), net.SlotEdges(), undone, TimeStepEnd);
  }

  /** On the oldest step, a predecessor outside the undone tasks has left its token. */
  lemma StepHasFinished(net: Network, c: Counts, s: nat, k: nat, s': nat, t': Task, t: Task)
    requires net.WellFormed() && Consistent(net, c) && Oldest(net, c, s, k)
    requires t in net.SlotTasks() && net.Edge(Step(s', t'), Step(s, t))
    requires s' == s && (t', t) in net.SlotEdges() ==> c.Finished(Step(s, t')) != k
    ensures c.Finished(Step(s', t')) > k
  {
    if s' == s && (t', t) in net.SlotEdges() {
      assert t' in net.SlotTasks();
      SlotWindow(net, c, s, t');
    } else {
      assert s' + 1 == s;
      SlotWindow(net, c, s', t);
    }
  }

  /** A seam that owes its ring round `k` has a node that is running or may start. */
  lemma SeamProgresses(net: Network, c: Counts, r: Seam, k: nat) returns (v: Node)
    requires net.WellFormed() && Consistent(net, c) && net.IsRing(r) && Open(c, r, k)
    requires c.Finished(SeamStart(r)) == k
    requires match r
             case SelfRing(s) => c.Finished(Step(s, TimeStepEnd)) >= k
             case TaskRing(t) => c.Finished(Step(net.n - 1, TimeStepEnd)) >= k
    ensures Active(net, c, v) && !v.Step?
  {
    SeamDelays(net, c, r);
    if r.TaskRing? { SlotWindow(net, c, net.n - 1, r.task); }
    assert c.Finished(net.RingLast(r)) >= k;
    v := SeamStart(r);
    if !Active(net, c, v) {
      v := SeamEntry(r);
    }
  }
}
