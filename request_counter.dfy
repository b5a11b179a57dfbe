/** The load generator's `RequestCounter`: requests counted since the last
    per-second report (`count`) and since the last full reset (`total`), and
    the interrupt handler that resets both, or exits when two signals come
    less than two seconds apart.  The mutex only serialises the calls. */
module RequestCounters {

  /** `2 * time.Second`, in nanoseconds. */
  const DoubleSignalWindow := 2_000_000_000

  class RequestCounter {
    var count: int
    var total: int

    /** Every request counted in `count` is also counted in `total`. */
    predicate Valid()
      reads this
    {
      0 <= count <= total
    }

    /** `&RequestCounter{}`. */
    constructor ()
      ensures Valid() && count == 0 && total == 0
    {
      count := 0;
      total := 0;
    }

    /** `Increment`: one more request in both counters. */
    method Increment()
      requires Valid()
      modifies this
      ensures Valid()
      ensures count == old(count) + 1 && total == old(total) + 1
    {
      count := count + 1;
      total := total + 1;
    }

    /** `FullReset`: both counters back to zero. */
    method FullReset()
      modifies this
      ensures Valid() && count == 0 && total == 0
    {
      count := 0;
      total := 0;
    }

    /** `Reset`: the requests of the last period are returned and forgotten;
        the total keeps them. */
    method Reset() returns (previous: int)
      requires Valid()
      modifies this
      ensures Valid()
      ensures previous == old(count) && count == 0 && total == old(total)
      ensures previous <= total
    {
      previous := count;
      count := 0;
    }
  }

  /** Whether a signal at `now` follows the one at `lastTime` closely enough
      to end the process. */
  predicate ExitsOnSignal(lastTime: int, now: int) {
    now - lastTime < DoubleSignalWindow
  }

  /** The signal goroutine's state: the time of the last handled signal. */
  class SignalHandler {
    var lastTime: int

    constructor (start: int)
      ensures lastTime == start
    {
      lastTime := start;
    }

    /** One signal: within two seconds of the previous one the process exits
        and nothing else happens; otherwise the counter is fully reset and
        the time recorded. */
    method OnSignal(now: int, counter: RequestCounter) returns (exit: bool)
      requires counter.Valid()
      modifies this, counter
      ensures exit <==> ExitsOnSignal(old(lastTime), now)
      ensures exit ==> lastTime == old(lastTime) && counter.count == old(counter.count) && counter.total == old(counter.total)
      ensures !exit ==> lastTime == now && counter.count == 0 && counter.total == 0
      ensures counter.Valid()
    {
      if now - lastTime < DoubleSignalWindow {
        return true;
      }
      counter.FullReset();
      lastTime := now;
      exit := false;
    }
  }
}
