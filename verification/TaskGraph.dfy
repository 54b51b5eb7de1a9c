/**
  The graph of tasks that the builder passes extend. Every task keeps its predecessors and its
  successors itself; an edge is entered at both of its ends.
*/
module TaskGraphs {
  import opened Digraph

  class TraactTask {
    const id: string
    var predecessors: set<string>
    var successors: set<string>
    var predecessorsInterTimeStep: set<string>
    var successorsInterTimeStep: set<string>

    constructor (id: string)
      ensures this.id == id && predecessors == {} && successors == {}
      ensures predecessorsInterTimeStep == {} && successorsInterTimeStep == {}
    {
      this.id := id;
      predecessors, successors := {}, {};
      predecessorsInterTimeStep, successorsInterTimeStep := {}, {};
    }

    method Precede(successor: TraactTask)
      modifies this`successors, successor`predecessors
      ensures successors == old(successors) + {successor.id}
      ensures successor.predecessors == old(successor.predecessors) + {id}
    {
      successor.predecessors := successor.predecessors + {id};
      successors := successors + {successor.id};
    }

    method Succeed(predecessor: TraactTask)
      modifies this`predecessors, predecessor`successors
      ensures predecessor.successors == old(predecessor.successors) + {id}
      ensures predecessors == old(predecessors) + {predecessor.id}
    {
      predecessor.successors := predecessor.successors + {id};
      predecessors := predecessors + {predecessor.id};
    }

    method SucceedInterTimeStep(predecessor: TraactTask)
      modifies this`predecessorsInterTimeStep, predecessor`successorsInterTimeStep
      ensures predecessor.successorsInterTimeStep == old(predecessor.successorsInterTimeStep) + {id}
      ensures predecessorsInterTimeStep == old(predecessorsInterTimeStep) + {predecessor.id}
    {
      predecessor.successorsInterTimeStep := predecessor.successorsInterTimeStep + {id};
      predecessorsInterTimeStep := predecessorsInterTimeStep + {predecessor.id};
    }

    predicate IsStartPoint()
      reads this
    {
      predecessors == {}
    }

    predicate IsEndPoint()
      reads this
    {
      successors == {}
    }
  }

  /** `edges` and `serial` are what the tasks' own sets amount to. */
  class TraactGraph {
    var tasks: map<string, TraactTask>
    ghost var edges: set<(string, string)>
    ghost var serial: set<string>

    constructor ()
      ensures Valid() && tasks == map[] && edges == {} && serial == {}
    {
      tasks, edges, serial := map[], {}, {};
    }

    /** Tasks are filed under their own name, and every edge is known at both ends. */
    ghost predicate Valid()
      reads this, tasks.Values
    {
      && Closed(tasks.Keys, edges) && serial <= tasks.Keys
      && (forall a {:trigger Knows(a)} :: a in tasks ==> Knows(a))
    }

    ghost predicate Knows(a: string)
      reads this, tasks.Values
      requires a in tasks
    {
      && tasks[a].id == a
      && (forall b :: b in tasks[a].successors <==> (a, b) in edges)
      && (forall b :: b in tasks[a].predecessors <==> (b, a) in edges)
      && (a in tasks[a].successorsInterTimeStep <==> a in serial)
    }

    /** A task's own sets say whether anything precedes or follows it in the graph. */
    lemma EndsOfGraph(a: string)
      requires Valid() && a in tasks
      ensures tasks[a].IsStartPoint() <==> forall e :: e in edges ==> e.1 != a
      ensures tasks[a].IsEndPoint() <==> forall e :: e in edges ==> e.0 != a
    {
      assert Knows(a);
      if !tasks[a].IsStartPoint() {
        var b :| b in tasks[a].predecessors;
        assert (b, a) in edges && (b, a).1 == a;
      }
      if !tasks[a].IsEndPoint() {
        var b :| b in tasks[a].successors;
        assert (a, b) in edges && (a, b).0 == a;
      }
      forall e | e in edges && e.1 == a
        ensures e.0 in tasks[a].predecessors
      {
        assert e == (e.0, a);
      }
      forall e | e in edges && e.0 == a
        ensures e.1 in tasks[a].successors
      {
        assert e == (a, e.1);
      }
    }

    method AddTask(id: string) returns (isNew: bool)
      requires Valid()
      modifies this`tasks
      ensures Valid() && tasks.Keys == old(tasks.Keys) + {id}
      ensures isNew <==> id !in old(tasks)
      ensures fresh(tasks.Values - old(tasks.Values))
    {
      if id in tasks { return false; }
      var task := new TraactTask(id);
      tasks := tasks[id := task];
      assert tasks.Values <= old(tasks.Values) + {task};
      forall a | a in tasks
        ensures Knows(a)
      {
        if a != id { assert old(Knows(a)); }
      }
      return true;
    }

    method Connect(a: string, b: string)
      requires Valid() && a in tasks && b in tasks
      modifies this`edges, tasks.Values
      ensures Valid() && edges == old(edges) + {(a, b)}
    {
      assert tasks[a] in tasks.Values && tasks[b] in tasks.Values;
      assert Knows(a) && Knows(b);
      tasks[a].Precede(tasks[b]);
      edges := edges + {(a, b)};
      forall x | x in tasks
        ensures Knows(x)
      {
        assert old(Knows(x));
      }
    }

    /** The task also waits for its own copy in the previous slot. */
    method MakeSerial(a: string)
      requires Valid() && a in tasks
      modifies this`serial, tasks.Values
      ensures Valid() && serial == old(serial) + {a}
    {
      assert tasks[a] in tasks.Values;
      assert Knows(a);
      tasks[a].SucceedInterTimeStep(tasks[a]);
      serial := serial + {a};
      forall x | x in tasks
        ensures Knows(x)
      {
        assert old(Knows(x));
      }
    }
  }
}
