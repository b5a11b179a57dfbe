/** `FlushingQueue`: a bounded queue of records that drains itself into a CSV
    file.  `put` first flushes when the queue already holds `buffer_size`
    items; `flush` writes the CSV header when the file does not exist yet and
    then moves at most `buffer_size` items, oldest first, into the file as
    rows.  The file is modelled as the sequence of lines appended to it. */
module FlushingQueues {

  /** A line appended to the CSV file: the header, or the row of one item. */
  datatype Line<T> = Header(fields: seq<string>) | Row(item: T)

  /** The items of the rows among `lines`, in file order. */
  function Items<T>(lines: seq<Line<T>>): (r: seq<T>)
    ensures |r| <= |lines|
  {
    if lines == [] then []
    else (if lines[0].Row? then [lines[0].item] else []) + Items(lines[1..])
  }

  /** One row per item, in order. */
  function Rows<T>(items: seq<T>): (r: seq<Line<T>>)
    ensures |r| == |items|
  {
    if items == [] then [] else [Row(items[0])] + Rows(items[1..])
  }

  lemma {:induction false} ItemsConcat<T>(a: seq<Line<T>>, b: seq<Line<T>>)
    ensures Items(a + b) == Items(a) + Items(b)
    decreases |a|
  {
    if a == [] {
      assert a + b == b;
    } else {
      var ab := a + b;
      assert ab[0] == a[0] && ab[1..] == a[1..] + b;
      ItemsConcat(a[1..], b);
      var h := if a[0].Row? then [a[0].item] else [];
      calc {
        Items(ab);
        h + Items(a[1..] + b);
        h + (Items(a[1..]) + Items(b));
        (h + Items(a[1..])) + Items(b);
      }
    }
  }

  /** Reading the rows back gives exactly the items written. */
  lemma {:induction false} ItemsOfRows<T>(items: seq<T>)
    ensures Items(Rows(items)) == items
  {
    if items != [] {
      assert Rows(items)[1..] == Rows(items[1..]);
      ItemsOfRows(items[1..]);
    }
  }

  lemma {:induction false} RowsConcat<T>(a: seq<T>, b: seq<T>)
    ensures Rows(a + b) == Rows(a) + Rows(b)
  {
    if a == [] {
      assert a + b == b;
    } else {
      assert (a + b)[1..] == a[1..] + b;
      RowsConcat(a[1..], b);
    }
  }

  /** Writing the row of the next queued item after `w` and the rows of the
      items before it. */
  lemma RowsSnoc<T>(w: seq<Line<T>>, q: seq<T>, i: nat)
    requires i < |q|
    ensures (w + Rows(q[..i])) + [Row(q[i])] == w + Rows(q[..i + 1])
  {
    assert q[..i + 1] == q[..i] + [q[i]];
    RowsConcat(q[..i], [q[i]]);
    var one := [q[i]];
    assert one[1..] == [];
  }

  /** Moving the first `i` queued items into the file as rows keeps the file's
      items followed by the queue unchanged. */
  lemma NothingLost<T>(w: seq<Line<T>>, q: seq<T>, i: nat)
    requires i <= |q|
    ensures Items(w + Rows(q[..i])) + q[i..] == Items(w) + q
  {
    ItemsConcat(w, Rows(q[..i]));
    ItemsOfRows(q[..i]);
    AppendAssoc(Items(w), q[..i], q[i..]);
    assert q[..i] + q[i..] == q;
  }

  lemma AppendAssoc<T>(a: seq<T>, b: seq<T>, c: seq<T>)
    ensures (a + b) + c == a + (b + c)
  {
  }

  lemma HeaderHasNoItems<T>(fields: seq<string>)
    ensures Items<T>([Header(fields)]) == []
  {
    var h: seq<Line<T>> := [Header(fields)];
    assert h[1..] == [];
  }

  /** Appending the header adds no item. */
  lemma HeaderKeepsItems<T>(w: seq<Line<T>>, fields: seq<string>)
    ensures Items(w + [Header(fields)]) == Items(w)
  {
    ItemsConcat(w, [Header(fields)]);
    HeaderHasNoItems<T>(fields);
  }

  function Min(a: int, b: int): int {
    if a <= b then a else b
  }

  class FlushingQueue<T> {
    /** `buffer_size`, and the capacity `2 * buffer_size` passed to `Queue`;
        a capacity of 0 is Python's unbounded queue. */
    const bufferSize: nat
    const maxsize: int
    const fields: seq<string>
    var queue: seq<T>
    /** Whether the output file exists, and the lines this queue appended to it. */
    var fileExists: bool
    var written: seq<Line<T>>
    /** Every item ever put, in order. */
    ghost var inserted: seq<T>

    ghost predicate Valid()
      reads this
    {
      && maxsize == 2 * bufferSize
      && (bufferSize > 0 ==> |queue| <= bufferSize)
      && Items(written) + queue == inserted
    }

    constructor (bufferSize: nat, fields: seq<string>, fileExists: bool)
      ensures Valid()
      ensures this.bufferSize == bufferSize && this.fields == fields
      ensures queue == [] && written == [] && inserted == [] && this.fileExists == fileExists
    {
      this.bufferSize := bufferSize;
      this.maxsize := 2 * bufferSize;
      this.fields := fields;
      queue := [];
      this.fileExists := fileExists;
      written := [];
      inserted := [];
    }

    /** `Queue.put` without waiting: only allowed while the queue has room. */
    method QueuePut(x: T)
      requires maxsize <= 0 || |queue| < maxsize
      modifies this
      ensures queue == old(queue) + [x] && inserted == old(inserted) + [x]
      ensures written == old(written) && fileExists == old(fileExists)
    {
      queue := queue + [x];
      inserted := inserted + [x];
    }

    /** `put`: the queue never reaches its capacity, so the call never blocks,
        and after it at most `buffer_size` items are waiting. */
    method Put(x: T)
      requires Valid()
      modifies this
      ensures Valid()
      ensures inserted == old(inserted) + [x]
      ensures |old(queue)| < bufferSize ==> queue == old(queue) + [x] && written == old(written)
      ensures |old(queue)| >= bufferSize ==>
                var n := Min(bufferSize, |old(queue)|);
                && queue == old(queue)[n..] + [x]
                && written == old(written) + (if old(fileExists) then [] else [Header(fields)]) + Rows(old(queue)[..n])
                && fileExists
      ensures |old(queue)| < bufferSize ==> fileExists == old(fileExists)
    {
      if |queue| >= bufferSize {
        Flush();
      }
      ghost var waiting := queue;
      QueuePut(x);
      assert Items(written) + queue == (Items(written) + waiting) + [x];
    }

    /** `flush`: the header when the file is new, then the oldest
        `min(buffer_size, size)` items as rows; the rest stay queued. */
    method Flush()
      requires Valid()
      modifies this
      ensures Valid() && fileExists && inserted == old(inserted)
      ensures var n := Min(bufferSize, |old(queue)|);
        && queue == old(queue)[n..]
        && written == old(written) + (if old(fileExists) then [] else [Header(fields)]) + Rows(old(queue)[..n])
    {
      ghost var start := written;
      if !fileExists {
        written := written + [Header(fields)];
        fileExists := true;
        HeaderKeepsItems(start, fields);
      }
      ghost var header := written;
      assert header == old(written) + (if old(fileExists) then [] else [Header(fields)]);
      ghost var q0 := queue;
      assert Items(header) + q0 == inserted;
      var i := 0;
      while i < bufferSize
        invariant 0 <= i <= bufferSize && i <= |q0|
        invariant queue == q0[i..]
        invariant written == header + Rows(q0[..i])
        invariant fileExists && inserted == old(inserted)
        decreases bufferSize - i
      {
        if queue == [] {
          break;
        }
        RowsSnoc(header, q0, i);
        written := written + [Row(queue[0])];
        queue := queue[1..];
        i := i + 1;
      }
      assert i == Min(bufferSize, |q0|) by {
        if i < bufferSize {
          assert |q0[i..]| == 0;
        }
      }
      NothingLost(header, q0, i);
    }
  }
}
