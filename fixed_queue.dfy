/** The resource tracker's `FixedQueue`: a FIFO queue that, once it holds
    `maxsize` items, drops its oldest item to make room for a new one.  As for
    Python's `queue.Queue`, a `maxsize` of zero or less means unbounded. */
module FixedQueues {

  /** The newest `maxsize` items of `s`, in their order (all of `s` when
      `maxsize` is not positive). */
  function Window<T>(s: seq<T>, maxsize: int): (w: seq<T>)
    ensures |w| <= |s| && w == s[|s| - |w|..]
    ensures maxsize <= 0 || |s| <= maxsize ==> w == s
    ensures 0 < maxsize < |s| ==> |w| == maxsize
  {
    if 0 < maxsize < |s| then s[|s| - maxsize..] else s
  }

  /** Putting one item into the window of `s` gives the window of `s` with
      that item: a series of `put` calls keeps the newest items, oldest
      first. */
  lemma WindowSnoc<T>(s: seq<T>, x: T, maxsize: int)
    ensures Window(Window(s, maxsize) + [x], maxsize) == Window(s + [x], maxsize)
  {
    var w := Window(s, maxsize);
    if 0 < maxsize < |s| {
      assert (w + [x])[1..] == (s + [x])[|s| + 1 - maxsize..];
    }
  }

  class FixedQueue<T> {
    /** The queued items, oldest first. */
    var queue: seq<T>
    const maxsize: int

    /** A bounded queue never holds more than its capacity. */
    predicate Valid()
      reads this
    {
      maxsize <= 0 || |queue| <= maxsize
    }

    /** `Queue.full()`. */
    predicate Full()
      reads this
    {
      0 < maxsize <= |queue|
    }

    constructor (size: int)
      ensures Valid() && queue == [] && maxsize == size
    {
      queue := [];
      maxsize := size;
    }

    /** `put`: a full queue first loses its oldest item, so the put never
        blocks and the queue keeps the newest `maxsize` items. */
    method Put(item: T)
      requires Valid()
      modifies this
      ensures Valid()
      ensures queue == Window(old(queue) + [item], maxsize)
    {
      if Full() {
        queue := queue[1..];
      }
      queue := queue + [item];
    }

    /** `take(n)`: the `n` oldest items, in order, removed from the queue. */
    method Take(n: nat) returns (taken: seq<T>)
      requires Valid() && n <= |queue|
      modifies this
      ensures Valid()
      ensures taken + queue == old(queue) && |taken| == n
    {
      taken := [];
      var i := 0;
      while i < n
        invariant 0 <= i <= n && |taken| == i
        invariant taken + queue == old(queue) && n <= |queue| + i
        invariant Valid()
      {
        taken := taken + [queue[0]];
        queue := queue[1..];
        i := i + 1;
      }
    }

    /** `elements`: a copy of the queued items, oldest first. */
    method Elements() returns (items: seq<T>)
      ensures items == queue
    {
      items := queue;
    }
  }
}
