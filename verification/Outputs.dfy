/**
  What a component sees of the cells it reads. The module's main result is that in every run an input
  is valid exactly if the last write to its cell, during that very step, marked it valid.
*/
module Outputs {
  import opened Network
  import opened Requests
  import opened SourceInputs
  import opened DataflowSystem
  import opened Pipeline
  import opened PipelineSteps
  import opened PipelineTheorems
  import R = Ring
  import Runs

  /** The action writes the cell in the slot that is on step `k`. */
  ghost predicate WritesDuring(x: Setup, s: System, a: Action, k: nat, c: nat)
    requires x.net.n >= 1
  {
    && a.WriteCell? && a.cell == c
    && s.sched.flow.ended <= k < |s.sched.flow.taken| && R.Slot(k, x.net.n) == a.slot
  }

  /** Among the first `m` actions, the last that writes the cell during step `k` marks it valid. */
  ghost predicate LastMarksValid(x: Setup, states: seq<System>, actions: seq<Action>, m: nat, k: nat, c: nat)
    requires x.net.n >= 1 && m <= |actions| <= |states|
  {
    if m == 0 then false
    else if WritesDuring(x, states[m - 1], actions[m - 1], k, c) then actions[m - 1].isValid
    else LastMarksValid(x, states, actions, m - 1, k, c)
  }

  lemma OthersKeepMarks(x: Setup, s: System, a: Action)
    requires x.Valid() && Sane(x.config, s.sched) && AskingShape(x.config, s.asking)
    requires Allowed(x, s, a) && !a.WriteCell?
    ensures Apply(x, s, a).marks == s.marks
  {
  }

  /** A write marks or clears its cell in the step that its slot is on, and nothing else. */
  lemma WriteMarks(x: Setup, s: System, j: nat, cell: nat, isValid: bool, k: nat, c: nat)
    requires Inv(x, s) && Allowed(x, s, WriteCell(j, cell, isValid))
    ensures c in Write(x, s, j, cell, isValid).Marks(k) <==>
      if WritesDuring(x, s, WriteCell(j, cell, isValid), k, c) then isValid else c in s.Marks(k)
  {
    WriterInFlight(x, s, j, x.cells[cell]);
    var k0 := CurrentStep(x, s, j);
    if s.sched.flow.ended <= k < |s.sched.flow.taken| && R.Slot(k, x.net.n) == j {
      R.WindowInjective(s.sched.flow.ended, k, k0, x.net.n);
    }
  }

  /** In every run the marks of a step are what the last writes during it left. */
  lemma {:induction false} MarksAreLastWrites(
    x: Setup, states: seq<System>, actions: seq<Action>, m: nat, k: nat, c: nat)
    requires IsRun(x, states, actions) && m < |states|
    ensures c in states[m].Marks(k) <==> LastMarksValid(x, states, actions, m, k, c)
  {
    if m > 0 {
      MarksAreLastWrites(x, states, actions, m - 1, k, c);
      RunKeepsInv(x, states, actions, m - 1);
      assert Runs.StepAt(Steps(x), states, actions, m - 1);
      var s, a := states[m - 1], actions[m - 1];
      if a.WriteCell? {
        WriteMarks(x, s, a.slot, a.cell, a.isValid, k, c);
      } else {
        OthersKeepMarks(x, s, a);
      }
    }
  }

  /**
    In every run a component that runs finds all its inputs valid exactly if, for each cell it reads,
    the last write during the component's own step marked the cell valid.
  */
  lemma InputsAreLastWrites(x: Setup, states: seq<System>, actions: seq<Action>, m: nat, j: nat, t: Task)
    requires IsRun(x, states, actions) && m < |states|
    requires j < x.net.n && t in x.net.tasks && t !in x.net.sources && states[m].counts.Running(Step(j, t))
    ensures var s := states[m];
      var k := R.StepOf(j, s.counts.Finished(Step(j, t)), x.net.n);
      AllInputsValid(x, s.sched.flow, j, t) <==>
        forall c :: c in x.Inputs(t) ==> LastMarksValid(x, states, actions, m, k, c)
  {
    var s := states[m];
    var k := R.StepOf(j, s.counts.Finished(Step(j, t)), x.net.n);
    RunKeepsInv(x, states, actions, m);
    NoStaleData(x, s, j, t);
    forall c | c in x.Inputs(t)
      ensures c in s.Marks(k) <==> LastMarksValid(x, states, actions, m, k, c)
    {
      MarksAreLastWrites(x, states, actions, m, k, c);
    }
  }
}
