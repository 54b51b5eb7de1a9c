/** The two waiting objects of the scheduler, one atomic step per locked region. */
module Semaphores {

  /** A counting semaphore that never counts beyond its maximum. */
  class Semaphore {
    const maxCount: nat
    var count: nat

    constructor (maxCount: nat, count: nat)
      ensures this.maxCount == maxCount && this.count == count
    {
      this.maxCount := maxCount;
      this.count := count;
    }

    method Notify()
      modifies this
      ensures count == if old(count) + 1 <= maxCount then old(count) + 1 else maxCount
    {
      count := count + 1;
      if maxCount < count { count := maxCount; }
    }

    /** Takes one unit if there is one; otherwise it times out at once. */
    method TryWait() returns (taken: bool)
      modifies this
      ensures taken <==> old(count) > 0
      ensures count == if taken then old(count) - 1 else old(count)
    {
      if count == 0 { return false; }
      count := count - 1;
      return true;
    }
  }

  /** Lets waiters for a timestamp go once a timestamp that matches it, or a later one, is reached. */
  class WaitForTimestamp {
    const maxOffset: int
    var current: int

    constructor (maxOffset: int)
      ensures this.maxOffset == maxOffset && current == 0
    {
      this.maxOffset := maxOffset;
      current := 0;
    }

    method NotifyAll(timestamp: int)
      modifies this
      ensures current == timestamp
    {
      current := timestamp;
    }

    /** A wait for `timestamp` is over. */
    predicate Reached(timestamp: int)
      reads this
    {
      current >= timestamp - maxOffset * 2
    }
  }
}
