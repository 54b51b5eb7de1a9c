/**
  Step numbers on a ring of `n` slots. Step `k` uses slot `k mod n` in round `k div n`; the two
  are defined by counting down so that no proof has to reason about division.
*/
module Ring {

  function Slot(k: nat, n: nat): nat
    requires n > 0
  {
    if k < n then k else Slot(k - n, n)
  }

  function Round(k: nat, n: nat): nat
    requires n > 0
  {
    if k < n then 0 else 1 + Round(k - n, n)
  }

  /** The step that uses slot `s` in round `r`. */
  function StepOf(s: nat, r: nat, n: nat): nat {
    if r == 0 then s else StepOf(s, r - 1, n) + n
  }

  /** How many of the steps before `k` use slot `s`. */
  function Uses(k: nat, s: nat, n: nat): nat
    requires n > 0
  {
    Round(k, n) + if s < Slot(k, n) then 1 else 0
  }

  /** The slot a ring cursor moves to. */
  function Next(s: int, n: nat): nat
    requires -1 <= s < n
  {
    if s + 1 == n then 0 else s + 1
  }

  lemma {:induction false} SlotIsModulo(k: nat, n: nat)
    requires n > 0
    ensures Slot(k, n) == k % n < n
  {
    if k >= n {
      SlotIsModulo(k - n, n);
      ModuloStep(k - n, n);
    } else {
      ModuloSmall(k, n);
    }
  }

  lemma ModuloSmall(k: nat, n: nat)
    requires k < n
    ensures k % n == k
  {
  }

  lemma ModuloStep(k: nat, n: nat)
    requires n > 0
    ensures (k + n) % n == k % n
  {
    var q, r := k / n, k % n;
    assert k == q * n + r;
    assert k + n == (q + 1) * n + r by {
      assert (q + 1) * n == q * n + n;
    }
    DivisionUnique(k + n, n, q + 1, r);
  }

  lemma DivisionUnique(k: nat, n: nat, q: nat, r: nat)
    requires n > 0 && r < n && k == q * n + r
    ensures k % n == r
  {
    var q', r' := k / n, k % n;
    assert (q' - q) * n == r - r' by {
      assert (q' - q) * n == q' * n - q * n;
    }
    MultipleSmall(q' - q, n);
  }

  lemma MultipleSmall(d: int, n: int)
    requires -n < d * n < n
    ensures d == 0
  {
  }

  lemma {:induction false} SlotBound(k: nat, n: nat)
    requires n > 0
    ensures Slot(k, n) < n
  {
    if k >= n { SlotBound(k - n, n); }
  }

  lemma {:induction false} NextSlot(k: nat, n: nat)
    requires n > 0
    ensures Slot(k, n) < n
    ensures Slot(k + 1, n) == Next(Slot(k, n), n)
    ensures Round(k + 1, n) == Round(k, n) + if Slot(k, n) + 1 == n then 1 else 0
  {
    if k >= n {
      NextSlot(k - n, n);
    } else if k + 1 == n {
      assert Slot(k + 1, n) == Slot(0, n) == 0;
      assert Round(k + 1, n) == 1 + Round(0, n);
    }
  }

  lemma {:induction false} StepSplits(k: nat, n: nat)
    requires n > 0
    ensures k == StepOf(Slot(k, n), Round(k, n), n)
  {
    if k >= n { StepSplits(k - n, n); }
  }

  lemma {:induction false} SplitStep(s: nat, r: nat, n: nat)
    requires s < n
    ensures Slot(StepOf(s, r, n), n) == s && Round(StepOf(s, r, n), n) == r
  {
    if r > 0 { SplitStep(s, r - 1, n); }
  }

  lemma {:induction false} StepOfMonotone(s: nat, r: nat, r': nat, n: nat)
    requires r <= r'
    ensures StepOf(s, r, n) <= StepOf(s, r', n)
    ensures r < r' ==> StepOf(s, r, n) + n <= StepOf(s, r', n)
  {
    if r < r' { StepOfMonotone(s, r, r' - 1, n); }
  }

  lemma {:induction false} StepOfSlots(s: nat, s': nat, r: nat, n: nat)
    ensures StepOf(s, r, n) - s == StepOf(s', r, n) - s'
  {
    if r > 0 { StepOfSlots(s, s', r - 1, n); }
  }

  /** One more step counts for exactly its own slot. */
  lemma UsesStep(k: nat, s: nat, n: nat)
    requires s < n
    ensures Uses(k + 1, s, n) == Uses(k, s, n) + if s == Slot(k, n) then 1 else 0
  {
    NextSlot(k, n);
  }

  /** The first step from `k` on that uses slot `s` is its `Uses(k, s, n)`-th use, less than `n` away. */
  lemma WindowStep(k: nat, s: nat, n: nat)
    requires s < n
    ensures k <= StepOf(s, Uses(k, s, n), n) < k + n
    ensures Uses(k, s, n) > 0 ==> StepOf(s, Uses(k, s, n) - 1, n) < k
  {
    var t, r := Slot(k, n), Round(k, n);
    SlotBound(k, n);
    StepSplits(k, n);
    StepOfSlots(s, t, r, n);
    assert Uses(k, s, n) == r + if s < t then 1 else 0;
    if s < t {
      assert StepOf(s, r + 1, n) == StepOf(s, r, n) + n;
    } else if r > 0 {
      assert StepOf(s, r, n) == StepOf(s, r - 1, n) + n;
    }
  }

  /** A window of `n` consecutive steps visits each slot once. */
  lemma WindowUnique(k: nat, j: nat, n: nat)
    requires n > 0 && k <= j < k + n
    ensures Slot(j, n) < n
    ensures j == StepOf(Slot(j, n), Uses(k, Slot(j, n), n), n)
  {
    var s := Slot(j, n);
    SlotBound(j, n);
    StepSplits(j, n);
    WindowStep(k, s, n);
    var r, u := Round(j, n), Uses(k, s, n);
    if r < u {
      StepOfMonotone(s, r, u, n);
    } else if u < r {
      StepOfMonotone(s, u, r, n);
    }
  }

  lemma WindowInjective(k: nat, j: nat, j': nat, n: nat)
    requires n > 0 && k <= j < k + n && k <= j' < k + n && Slot(j, n) == Slot(j', n)
    ensures j == j'
  {
    WindowUnique(k, j, n);
    WindowUnique(k, j', n);
  }

  lemma {:induction false} Wraps(k: nat, n: nat)
    requires n > 0
    ensures Slot(k + n, n) == Slot(k, n)
  {
  }
}
