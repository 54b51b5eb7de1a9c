/**
  The buffer of one slot: the valid flags of its cells, the one-shot promises of its sources and its
  current event. Each method does to the slot what the scheduler's state says; `Represents` is the
  correspondence.
*/
module TimeStepBuffers {
  import opened Events
  import opened SchedulerCore

  class TimeStepBuffer {
    const slot: nat
    const valid: array<bool>
    const fulfilled: array<bool>
    var timestamp: int
    var kind: EventType
    var changedPattern: string
    ghost var faults: nat

    constructor (slot: nat, cells: nat, sources: nat)
      ensures this.slot == slot && valid.Length == cells && fulfilled.Length == sources && valid != fulfilled
      ensures forall c :: 0 <= c < cells ==> !valid[c]
      ensures forall i :: 0 <= i < sources ==> !fulfilled[i]
      ensures kind == INVALID && faults == 0 && fresh(valid) && fresh(fulfilled)
    {
      this.slot := slot;
      valid := new bool[cells](_ => false);
      fulfilled := new bool[sources](_ => false);
      timestamp, kind, changedPattern := TIMESTAMP_ZERO, INVALID, "";
      faults := 0;
    }

    /** The buffer holds what the scheduler's state says of its slot. */
    ghost predicate Represents(c: Config, f: Flow)
      reads this, valid, fulfilled
    {
      && Shape(c, f) && slot < c.slots && valid != fulfilled
      && f.slots[slot] == SlotEvent(timestamp, kind, changedPattern)
      && (forall i: nat :: (i, slot) in f.promises <==> i < fulfilled.Length && fulfilled[i])
      && (forall k: nat :: (k, slot) in f.valid <==> k < valid.Length && valid[k])
      && f.faults == faults
    }

    /** New promises for the next event, and no output of the last one left valid. */
    method ResetNewEvent(ghost c: Config, ghost f: Flow)
      requires Represents(c, f)
      modifies this`changedPattern, valid, fulfilled
      ensures Represents(c, SchedulerCore.ResetNewEvent(c, f, slot))
    {
      for i := 0 to fulfilled.Length
        invariant forall k :: 0 <= k < i ==> !fulfilled[k]
        modifies fulfilled
      {
        fulfilled[i] := false;
      }
      for k := 0 to valid.Length
        invariant forall i :: 0 <= i < fulfilled.Length ==> !fulfilled[i]
        invariant forall j :: 0 <= j < k ==> !valid[j]
        modifies valid
      {
        valid[k] := false;
      }
      changedPattern := "";
    }

    method SetEvent(ghost c: Config, ghost f: Flow, timestamp: int, kind: EventType, pattern: string)
      requires Represents(c, f)
      modifies this`timestamp, this`kind, this`changedPattern
      ensures Represents(c, f.(slots := f.slots[slot := SlotEvent(timestamp, kind, pattern)]))
    {
      this.timestamp, this.kind, changedPattern := timestamp, kind, pattern;
    }

    /** Fulfils a source's promise; a second time throws. */
    method Commit(ghost c: Config, ghost f: Flow, source: nat) returns (thrown: bool)
      requires Represents(c, f) && source < fulfilled.Length
      modifies this`faults, fulfilled
      ensures Represents(c, SchedulerCore.Commit(f, source, slot))
      ensures thrown <==> (source, slot) in f.promises
    {
      if fulfilled[source] {
        faults := faults + 1;
        return true;
      }
      fulfilled[source] := true;
      return false;
    }

    /** Like a commit, but the exception of a second time is swallowed. */
    method Cancel(ghost c: Config, ghost f: Flow, source: nat)
      requires Represents(c, f) && source < fulfilled.Length
      modifies fulfilled
      ensures Represents(c, SchedulerCore.Cancel(f, source, slot))
    {
      if !fulfilled[source] { fulfilled[source] := true; }
    }

    /** Handing out an output cell marks it valid. */
    method GetOutput(ghost c: Config, ghost f: Flow, cell: nat)
      requires Represents(c, f) && cell < valid.Length
      modifies valid
      ensures Represents(c, f.(valid := f.valid + {(cell, slot)}))
    {
      valid[cell] := true;
    }

    method SetOutputInvalid(ghost c: Config, ghost f: Flow, cell: nat)
      requires Represents(c, f) && cell < valid.Length
      modifies valid
      ensures Represents(c, f.(valid := f.valid - {(cell, slot)}))
    {
      valid[cell] := false;
    }

    /** All cells that a component reads are valid. */
    method IsAllInputValid(ghost c: Config, ghost f: Flow, inputs: seq<nat>) returns (all: bool)
      requires Represents(c, f) && forall k :: 0 <= k < |inputs| ==> inputs[k] < valid.Length
      ensures all <==> forall k :: 0 <= k < |inputs| ==> (inputs[k], slot) in f.valid
    {
      for k := 0 to |inputs|
        invariant forall j :: 0 <= j < k ==> (inputs[j], slot) in f.valid
      {
        if !valid[inputs[k]] { return false; }
      }
      return true;
    }
  }
}
