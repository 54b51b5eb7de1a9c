/**
  The clock that predicts the timestamp of the next frame. The scheduler builds it with a weight
  of 1 for the past and 0 for new measurements, so the frame distance never changes; timestamps
  are integers.
*/
module Clock {
  import opened Events

  datatype ClockState = ClockState(
    initial: int,
    current: int,
    expected: int,
    step: nat,
    delta: int,
    received: seq<int>)
  {
    predicate IsNext(ts: int, offset: int) {
      IsWithinRange(expected, ts, offset)
    }

    predicate IsFurtherAhead(ts: int, offset: int) {
      expected + offset < ts - offset
    }

    predicate IsNextOrBigger(ts: int, offset: int) {
      IsNext(ts, offset) || ts >= expected
    }

    /** What a request's timestamp changes: the first one sets the clock. */
    function NewTimestamp(ts: int, offset: int): ClockState {
      if initial == TIMESTAMP_ZERO then
        this.(initial := ts, expected := ts, current := ts, step := 0)
      else if IsWithinRange(initial, ts, offset) then
        this.(current := initial)
      else if IsNext(ts, offset) then
        this.(received := received + [ts])
      else
        this
    }

    function Advance(): ClockState {
      this.(step := step + 1, received := [], current := expected, expected := expected + delta)
    }
  }

  function AfterAdvances(c: ClockState, k: nat): ClockState {
    if k == 0 then c else AfterAdvances(c, k - 1).Advance()
  }

  lemma {:induction false} ExpectedAfterAdvances(c: ClockState, k: nat)
    requires c.delta >= 0
    ensures AfterAdvances(c, k).delta == c.delta
    ensures AfterAdvances(c, k).expected >= c.expected
    ensures k >= 1 ==> AfterAdvances(c, k).expected >= c.expected + c.delta
  {
    if k > 0 { ExpectedAfterAdvances(c, k - 1); }
  }

  function AfterTimestamps(c: ClockState, stamps: seq<int>, offset: int): ClockState {
    if stamps == [] then c
    else AfterTimestamps(c, stamps[..|stamps| - 1], offset).NewTimestamp(stamps[|stamps| - 1], offset)
  }

  /** The timestamps that match the expected frame, and not the first one. */
  function Measured(c: ClockState, stamps: seq<int>, offset: int): seq<int> {
    if stamps == [] then []
    else
      var last, before := stamps[|stamps| - 1], Measured(c, stamps[..|stamps| - 1], offset);
      if -2 * offset <= last - c.expected <= 2 * offset && !(-2 * offset <= last - c.initial <= 2 * offset)
      then before + [last] else before
  }

  /** Between two frames the clock remembers exactly the requests for the expected frame. */
  lemma {:induction false} MeasurementsSince(c: ClockState, stamps: seq<int>, offset: int)
    requires c.initial != TIMESTAMP_ZERO && c.received == []
    ensures var d := AfterTimestamps(c, stamps, offset);
      && d.received == Measured(c, stamps, offset)
      && d.initial == c.initial && d.expected == c.expected && d.delta == c.delta && d.step == c.step
  {
    if stamps != [] { MeasurementsSince(c, stamps[..|stamps| - 1], offset); }
  }

  /**
    The padding loop advances the clock at least once and until the requested timestamp is next or
    not ahead of the expected one. It ends if and only if it ends after its first round: a
    timestamp that falls between the match windows of two frames keeps it going forever.
  */
  lemma PaddingLoopEnds(c: ClockState, ts: int, offset: int)
    requires c.delta > 0 && offset >= 0 && c.IsFurtherAhead(ts, offset)
    ensures (exists k: nat :: k >= 1 && AfterAdvances(c, k).IsNextOrBigger(ts, offset))
            <==> c.Advance().IsNextOrBigger(ts, offset)
    ensures c.Advance().IsNextOrBigger(ts, offset) <==> ts >= c.expected + c.delta - 2 * offset
  {
    assert AfterAdvances(c, 1) == AfterAdvances(c, 0).Advance() == c.Advance();
    forall k: nat | k >= 1 && AfterAdvances(c, k).IsNextOrBigger(ts, offset)
      ensures c.Advance().IsNextOrBigger(ts, offset)
    {
      ExpectedAfterAdvances(c, k);
    }
    if c.Advance().IsNextOrBigger(ts, offset) {
      assert AfterAdvances(c, 1).IsNextOrBigger(ts, offset);
    }
  }

  /** The frame scheduled after the padding is the requested one exactly when one frame was skipped. */
  lemma PaddingLandsOnRequest(c: ClockState, ts: int, offset: int)
    requires c.delta > 4 * offset && offset >= 0
    requires c.IsFurtherAhead(ts, offset) && c.Advance().IsNextOrBigger(ts, offset)
    ensures IsWithinRange(c.Advance().expected, ts, offset) <==> ts <= c.expected + c.delta + 2 * offset
  {
  }
}
