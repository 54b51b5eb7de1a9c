/** Runs of any transition relation: invariants hold in every state, and measures add up. */
module Runs {

  /** A stretch of a run: each action leads from one state to the next. */
  ghost predicate IsStretch<S(!new), A(!new)>(next: (S, A, S) -> bool, states: seq<S>, actions: seq<A>) {
    && |states| == |actions| + 1
    && forall i: nat :: i < |actions| ==> StepAt(next, states, actions, i)
  }

  ghost predicate StepAt<S(!new), A(!new)>(next: (S, A, S) -> bool, states: seq<S>, actions: seq<A>, i: nat) {
    i < |actions| < |states| && next(states[i], actions[i], states[i + 1])
  }

  ghost predicate IsKept<S(!new), A(!new)>(next: (S, A, S) -> bool, inv: S -> bool) {
    forall s, a, t :: inv(s) && next(s, a, t) ==> inv(t)
  }

  ghost predicate IsEnough<S(!new)>(inv: S -> bool, goal: S -> bool) {
    forall s :: inv(s) ==> goal(s)
  }

  /** What every step keeps holds all along. */
  lemma {:induction false} Keeps<S(!new), A(!new)>(
    next: (S, A, S) -> bool, inv: S -> bool, states: seq<S>, actions: seq<A>, i: nat)
    requires IsStretch(next, states, actions) && i < |states|
    requires inv(states[0])
    requires IsKept(next, inv)
    ensures inv(states[i])
  {
    if i > 0 {
      Keeps(next, inv, states, actions, i - 1);
      assert StepAt(next, states, actions, i - 1);
    }
  }

  /** So does what follows from it. */
  lemma Implies<S(!new), A(!new)>(
    next: (S, A, S) -> bool, inv: S -> bool, goal: S -> bool, states: seq<S>, actions: seq<A>, i: nat)
    requires IsStretch(next, states, actions) && i < |states|
    requires inv(states[0])
    requires IsKept(next, inv)
    requires IsEnough(inv, goal)
    ensures goal(states[i])
  {
    Keeps(next, inv, states, actions, i);
  }

  lemma Shorter<S(!new), A(!new)>(next: (S, A, S) -> bool, states: seq<S>, actions: seq<A>)
    requires IsStretch(next, states, actions) && actions != []
    ensures IsStretch(next, states[..|actions|], actions[..|actions| - 1])
  {
    var fewer, first := states[..|actions|], actions[..|actions| - 1];
    forall i: nat {:trigger StepAt(next, fewer, first, i)} | i < |first|
      ensures StepAt(next, fewer, first, i)
    {
      assert StepAt(next, states, actions, i);
    }
  }

  /** One stretch after another. */
  lemma Joins<S(!new), A(!new)>(
    next: (S, A, S) -> bool, states: seq<S>, actions: seq<A>, moreStates: seq<S>, moreActions: seq<A>)
    requires IsStretch(next, states, actions) && IsStretch(next, moreStates, moreActions)
    requires states[|actions|] == moreStates[0]
    ensures IsStretch(next, states + moreStates[1..], actions + moreActions)
  {
    var all, every := states + moreStates[1..], actions + moreActions;
    forall i: nat {:trigger StepAt(next, all, every, i)} | i < |every|
      ensures StepAt(next, all, every, i)
    {
      if i < |actions| {
        assert StepAt(next, states, actions, i);
      } else {
        assert StepAt(next, moreStates, moreActions, i - |actions|);
      }
    }
  }

  ghost predicate IsWay<S(!new), A(!new)>(
    next: (S, A, S) -> bool, states: seq<S>, actions: seq<A>, s: S, t: S)
  {
    IsStretch(next, states, actions) && states[0] == s && states[|actions|] == t
  }

  /** Some continuation of `s` gets to `t`. */
  ghost predicate Leads<S(!new), A(!new)>(next: (S, A, S) -> bool, s: S, t: S) {
    exists states, actions :: IsWay(next, states, actions, s, t)
  }

  lemma StaysThere<S(!new), A(!new)>(next: (S, A, S) -> bool, s: S)
    ensures Leads(next, s, s)
  {
    var actions: seq<A> := [];
    assert IsWay(next, [s], actions, s, s);
  }

  lemma OneStep<S(!new), A(!new)>(next: (S, A, S) -> bool, s: S, a: A, t: S)
    requires next(s, a, t)
    ensures Leads(next, s, t)
  {
    assert IsWay(next, [s, t], [a], s, t);
  }

  lemma LeadsOn<S(!new), A(!new)>(next: (S, A, S) -> bool, s: S, t: S, u: S)
    requires Leads(next, s, t) && Leads(next, t, u)
    ensures Leads(next, s, u)
  {
    var states, actions :| IsWay(next, states, actions, s, t);
    var moreStates, moreActions :| IsWay(next, moreStates, moreActions, t, u);
    Joins(next, states, actions, moreStates, moreActions);
    assert IsWay(next, states + moreStates[1..], actions + moreActions, s, u);
  }

  ghost predicate IsWider<S(!new), A(!new)>(next: (S, A, S) -> bool, wider: (S, A, S) -> bool) {
    forall s, a, t :: next(s, a, t) ==> wider(s, a, t)
  }

  lemma StretchWidens<S(!new), A(!new)>(
    next: (S, A, S) -> bool, wider: (S, A, S) -> bool, states: seq<S>, actions: seq<A>)
    requires IsWider(next, wider) && IsStretch(next, states, actions)
    ensures IsStretch(wider, states, actions)
  {
    forall i: nat {:trigger StepAt(wider, states, actions, i)} | i < |actions|
      ensures StepAt(wider, states, actions, i)
    {
      assert StepAt(next, states, actions, i);
    }
  }

  lemma LeadsWidens<S(!new), A(!new)>(next: (S, A, S) -> bool, wider: (S, A, S) -> bool, s: S, t: S)
    requires IsWider(next, wider) && Leads(next, s, t)
    ensures Leads(wider, s, t)
  {
    var states, actions :| IsWay(next, states, actions, s, t);
    StretchWidens(next, wider, states, actions);
    assert IsWay(wider, states, actions, s, t);
  }

  lemma LeadsKeeps<S(!new), A(!new)>(next: (S, A, S) -> bool, inv: S -> bool, s: S, t: S)
    requires Leads(next, s, t) && inv(s) && IsKept(next, inv)
    ensures inv(t)
  {
    var states, actions :| IsWay(next, states, actions, s, t);
    Keeps(next, inv, states, actions, |actions|);
  }

  function Sum<A(!new)>(weight: A -> nat, actions: seq<A>): nat {
    if actions == [] then 0 else Sum(weight, actions[..|actions| - 1]) + weight(actions[|actions| - 1])
  }

  /** A measure that every action raises by its weight ends up raised by the sum of the weights. */
  lemma {:induction false} Adds<S(!new), A(!new)>(
    next: (S, A, S) -> bool, inv: S -> bool, measure: S -> nat, weight: A -> nat, states: seq<S>, actions: seq<A>)
    requires IsStretch(next, states, actions) && inv(states[0])
    requires forall s, a, t :: inv(s) && next(s, a, t) ==> inv(t) && measure(t) == measure(s) + weight(a)
    ensures measure(states[|actions|]) == measure(states[0]) + Sum(weight, actions)
  {
    if actions != [] {
      var k := |actions| - 1;
      Shorter(next, states, actions);
      Adds(next, inv, measure, weight, states[..k + 1], actions[..k]);
      Keeps(next, inv, states, actions, k);
      assert StepAt(next, states, actions, k);
    }
  }
}
