/** The clock object. `Clock` states what its timestamps mean for the scheduler. */
module TimeDomainClocks {
  import opened Events
  import opened Clock

  /** Weights of the past and of new measurements; the scheduler passes 1 for the past. */
  const ALPHA_0 := 1
  const ALPHA_1 := 1 - ALPHA_0

  class TimeDomainClock {
    const maxOffset: int
    var initialMean: int
    var current: int
    var expectedNext: int
    var step: nat
    var deltaMean: int
    var received: seq<int>

    constructor (delta: int, maxOffset: int)
      ensures this.maxOffset == maxOffset
      ensures State() == ClockState(TIMESTAMP_ZERO, TIMESTAMP_ZERO, TIMESTAMP_ZERO, 0, delta, [])
    {
      this.maxOffset := maxOffset;
      initialMean, current, expectedNext := TIMESTAMP_ZERO, TIMESTAMP_ZERO, TIMESTAMP_ZERO;
      step, deltaMean, received := 0, delta, [];
    }

    function State(): ClockState
      reads this
    {
      ClockState(initialMean, current, expectedNext, step, deltaMean, received)
    }

    /** The first timestamp sets the clock; a later one is averaged in or remembered. */
    method NewTimestamp(timestamp: int)
      modifies this
      ensures State() == old(State()).NewTimestamp(timestamp, maxOffset)
    {
      if initialMean == TIMESTAMP_ZERO {
        initialMean := timestamp;
        expectedNext := timestamp;
        current := timestamp;
        step := 0;
      } else if IsWithinRange(initialMean, timestamp, maxOffset) {
        initialMean := initialMean * ALPHA_0 + timestamp * ALPHA_1;
        current := initialMean;
      } else if IsWithinRange(expectedNext, timestamp, maxOffset) {
        received := received + [timestamp];
      }
    }

    /** Hands out the expected timestamp and moves on to the next. */
    method GetNextExpectedTimestamp() returns (timestamp: int)
      modifies this
      ensures timestamp == old(expectedNext)
      ensures State() == old(State()).Advance()
    {
      timestamp := expectedNext;
      AdvanceTimeStep();
    }

    /** The frame distance is averaged with what was measured, at a weight that leaves it alone. */
    method AdvanceTimeStep()
      modifies this
      ensures State() == old(State()).Advance()
    {
      step := step + 1;
      if received != [] {
        var mean := Mean(received);
        var difference := mean - current;
        deltaMean := deltaMean * ALPHA_0 + difference * ALPHA_1;
        received := [];
      }
      current := expectedNext;
      expectedNext := current + deltaMean;
    }

    static method Mean(values: seq<int>) returns (mean: int)
      requires values != []
      ensures mean == Total(values) / |values|
    {
      var sum := 0;
      for i := 0 to |values|
        invariant sum == Total(values[..i])
      {
        assert values[..i + 1][..i] == values[..i];
        sum := sum + values[i];
      }
      assert values[..|values|] == values;
      mean := sum / |values|;
    }
  }

  function Total(values: seq<int>): int {
    if values == [] then 0 else Total(values[..|values| - 1]) + values[|values| - 1]
  }
}
