/** Sequence helpers shared by the queue models. */
module Seqs {
  import opened Wrappers

  /** Python's `list.pop(i)` / `del d[i]` on the remaining elements. */
  function RemoveAt<T>(s: seq<T>, i: nat): (r: seq<T>)
    requires i < |s|
    ensures |r| == |s| - 1
    ensures forall j :: 0 <= j < i ==> r[j] == s[j]
    ensures forall j :: i <= j < |r| ==> r[j] == s[j + 1]
  {
    s[..i] + s[i + 1..]
  }

  /** `s[i] = x`. */
  function ReplaceAt<T>(s: seq<T>, i: nat, x: T): (r: seq<T>)
    requires i < |s|
    ensures |r| == |s| && r[i] == x
    ensures forall j :: 0 <= j < |s| && j != i ==> r[j] == s[j]
  {
    s[..i] + [x] + s[i + 1..]
  }

  /** Removing the element at `i` loses exactly that element. */
  lemma RemoveAtLosesOnlyThatItem<T>(s: seq<T>, i: nat)
    requires i < |s|
    ensures multiset(RemoveAt(s, i)) + multiset{s[i]} == multiset(s)
  {
    assert s == s[..i] + [s[i]] + s[i + 1..];
  }

  /** Python's indexing of a list or deque: `-n <= i < n` is valid, and a
      negative index counts from the back. */
  function PyIndex(i: int, n: nat): (r: Option<nat>)
    ensures r.Some? <==> -(n as int) <= i < n
    ensures r.Some? ==> r.value < n && (r.value == i || r.value == i + n)
  {
    if 0 <= i < n then Some(i) else if -(n as int) <= i < 0 then Some(i + n) else None
  }

  /** A sequence is its prefix, the element at `i` and its suffix.  Stated
      once for any element type, so that the solver never compares the
      elements themselves. */
  lemma AroundIndex<T>(s: seq<T>, i: nat)
    requires i < |s|
    ensures s == s[..i] + [s[i]] + s[i + 1..]
  {
  }

  lemma WholePrefix<T>(s: seq<T>)
    ensures s[..|s|] == s
  {
  }

  lemma PrefixExtends<T>(s: seq<T>, i: nat)
    requires i < |s|
    ensures s[..i + 1] == s[..i] + [s[i]]
  {
  }

  /** Regrouping a concatenation around one element. */
  lemma RegroupAround<T>(a: seq<T>, b: seq<T>, p: seq<T>, e: T, q: seq<T>, c: seq<T>, d: seq<T>)
    ensures a + (b + (p + [e] + q) + c) + d == (a + b + p) + [e] + (q + c + d)
  {
  }

  /** The same regrouping once the element is gone. */
  lemma RegroupWithout<T>(a: seq<T>, b: seq<T>, p: seq<T>, q: seq<T>, c: seq<T>, d: seq<T>)
    ensures a + (b + (p + q) + c) + d == (a + b + p) + (q + c + d)
  {
  }

  /** The parts before and after an element are recovered by slicing. */
  lemma SliceAround<T>(x: seq<T>, e: T, y: seq<T>)
    ensures (x + [e] + y)[..|x|] == x && (x + [e] + y)[|x| + 1..] == y
  {
  }

  /** Sequences with the same length and the same elements are equal. */
  lemma Pointwise<T>(a: seq<T>, b: seq<T>)
    requires |a| == |b| && forall i :: 0 <= i < |a| ==> a[i] == b[i]
    ensures a == b
  {
  }

  /** The values of the `Some`s, in order. */
  function Somes<T>(s: seq<Option<T>>): seq<T>
    decreases |s|
  {
    if s == [] then []
    else Somes(s[..|s| - 1]) + (if s[|s| - 1].Some? then [s[|s| - 1].value] else [])
  }

  lemma {:induction false} SomesMembers<T>(s: seq<Option<T>>, x: T)
    ensures x in Somes(s) <==> exists i :: 0 <= i < |s| && s[i] == Some(x)
    decreases |s|
  {
    if s != [] {
      var n := |s|;
      var front := s[..n - 1];
      SomesMembers(front, x);
      var last := if s[n - 1].Some? then [s[n - 1].value] else [];
      assert Somes(s) == Somes(front) + last;
      if x in Somes(front) {
        var i :| 0 <= i < n - 1 && front[i] == Some(x);
        assert s[i] == Some(x);
      } else if x in last {
        assert s[n - 1] == Some(x);
      } else {
        forall i | 0 <= i < n
          ensures s[i] != Some(x)
        {
          if i < n - 1 {
            assert front[i] == s[i];
          }
        }
      }
    }
  }
}
