/** Python's `list.sort(key=...)` for string keys: string comparison is
    lexicographic by character, a proper prefix comes first, and equal keys
    keep their relative order. */
module Sorting {

  /** Python's `a <= b` on strings. */
  predicate Le(a: string, b: string)
    decreases |a|
  {
    a == [] || (b != [] && (a[0] < b[0] || (a[0] == b[0] && Le(a[1..], b[1..]))))
  }

  lemma {:induction false} LeTotal(a: string, b: string)
    ensures Le(a, b) || Le(b, a)
    decreases |a|
  {
    if a != [] && b != [] && a[0] == b[0] {
      LeTotal(a[1..], b[1..]);
    }
  }

  lemma {:induction false} LeTransitive(a: string, b: string, c: string)
    requires Le(a, b) && Le(b, c)
    ensures Le(a, c)
    decreases |a|
  {
    if a != [] && b != [] && c != [] && a[0] == b[0] && b[0] == c[0] {
      LeTransitive(a[1..], b[1..], c[1..]);
    }
  }

  lemma {:induction false} LeReflexive(a: string)
    ensures Le(a, a)
    decreases |a|
  {
    if a != [] {
      LeReflexive(a[1..]);
    }
  }

  /** The elements of `s` whose key is `k`, in their order in `s`. */
  function WithKey<T>(s: seq<T>, key: T -> string, k: string): seq<T> {
    if s == [] then []
    else WithKey(s[..|s| - 1], key, k) + (if key(s[|s| - 1]) == k then [s[|s| - 1]] else [])
  }

  lemma {:induction false} WithKeyConcat<T>(a: seq<T>, b: seq<T>, key: T -> string, k: string)
    ensures WithKey(a + b, key, k) == WithKey(a, key, k) + WithKey(b, key, k)
    decreases |b|
  {
    if b == [] {
      assert a + b == a;
    } else {
      var b' := b[..|b| - 1];
      assert (a + b)[..|a + b| - 1] == a + b';
      assert (a + b)[|a + b| - 1] == b[|b| - 1];
      WithKeyConcat(a, b', key, k);
    }
  }

  /** No element of `s` has key `k` when every key is above `k`. */
  lemma {:induction false} WithKeyAbove<T>(s: seq<T>, key: T -> string, k: string)
    requires forall i :: 0 <= i < |s| ==> !Le(key(s[i]), k)
    ensures WithKey(s, key, k) == []
    decreases |s|
  {
    if s != [] {
      var front := s[..|s| - 1];
      forall i | 0 <= i < |front| ensures !Le(key(front[i]), k) {
        assert front[i] == s[i];
      }
      WithKeyAbove(front, key, k);
      LeReflexive(k);
      assert key(s[|s| - 1]) != k;
    }
  }

  /** Inserting `x` after every element whose key is not greater puts it
      last among the elements with its key and moves no other element past
      one with the same key. */
  lemma InsertKeepsKeyOrder<T>(r: seq<T>, j: nat, x: T, key: T -> string, k: string)
    requires j <= |r|
    requires forall i :: j <= i < |r| ==> !Le(key(r[i]), key(x))
    ensures WithKey(r[..j] + [x] + r[j..], key, k) == WithKey(r, key, k) + (if key(x) == k then [x] else [])
  {
    WithKeyConcat(r[..j] + [x], r[j..], key, k);
    WithKeyConcat(r[..j], [x], key, k);
    WithKeyConcat(r[..j], r[j..], key, k);
    assert r[..j] + r[j..] == r;
    assert [x][..0] == [];
    if key(x) == k {
      forall i | 0 <= i < |r[j..]| ensures !Le(key(r[j..][i]), k) {
        assert r[j..][i] == r[j + i];
      }
      WithKeyAbove(r[j..], key, k);
    }
  }

  predicate SortedBy<T>(s: seq<T>, key: T -> string) {
    forall i, j :: 0 <= i < j < |s| ==> Le(key(s[i]), key(s[j]))
  }

  /** Where a new element goes in a sorted list: after every element whose key
      is not greater, which keeps equal keys in arrival order. */
  method InsertPosition<T>(r: seq<T>, x: T, key: T -> string) returns (j: nat)
    requires SortedBy(r, key)
    ensures j <= |r|
    ensures forall i :: 0 <= i < j ==> Le(key(r[i]), key(x))
    ensures forall i :: j <= i < |r| ==> !Le(key(r[i]), key(x))
  {
    j := |r|;
    while j > 0 && !Le(key(r[j - 1]), key(x))
      invariant 0 <= j <= |r|
      invariant forall i :: j <= i < |r| ==> !Le(key(r[i]), key(x))
    {
      j := j - 1;
    }
    if j > 0 {
      forall i | 0 <= i < j
        ensures Le(key(r[i]), key(x))
      {
        if i < j - 1 {
          LeTransitive(key(r[i]), key(r[j - 1]), key(x));
        }
      }
    }
  }

  /** One insertion: `x` goes after every element whose key is not greater,
      so the list stays ordered and `x` comes last among its key. */
  method InsertSorted<T>(r: seq<T>, x: T, key: T -> string) returns (r': seq<T>)
    requires SortedBy(r, key)
    ensures SortedBy(r', key)
    ensures multiset(r') == multiset(r) + multiset{x}
    ensures forall k :: WithKey(r', key, k) == WithKey(r, key, k) + (if key(x) == k then [x] else [])
  {
    var j := InsertPosition(r, x, key);
    r' := r[..j] + [x] + r[j..];
    forall a, b | 0 <= a < b < |r'|
      ensures Le(key(r'[a]), key(r'[b]))
    {
      if b == j {
        assert r'[a] == r[a];
      } else if a == j {
        assert r'[b] == r[b - 1];
        LeTotal(key(r[b - 1]), key(x));
      } else {
        var a0 := if a < j then a else a - 1;
        var b0 := if b < j then b else b - 1;
        assert r'[a] == r[a0] && r'[b] == r[b0];
      }
    }
    assert r == r[..j] + r[j..];
    forall k ensures WithKey(r', key, k) == WithKey(r, key, k) + (if key(x) == k then [x] else []) {
      InsertKeepsKeyOrder(r, j, x, key, k);
    }
  }

  /** Insertion sort: the result is ordered by key and holds exactly the
      elements of the input, and the elements with any one key keep their
      order (Python's sort is stable). */
  method SortByKey<T>(s: seq<T>, key: T -> string) returns (r: seq<T>)
    ensures SortedBy(r, key)
    ensures multiset(r) == multiset(s)
    ensures forall k :: WithKey(r, key, k) == WithKey(s, key, k)
  {
    r := [];
    var n := 0;
    while n < |s|
      invariant 0 <= n <= |s|
      invariant SortedBy(r, key)
      invariant multiset(r) == multiset(s[..n])
      invariant forall k :: WithKey(r, key, k) == WithKey(s[..n], key, k)
    {
      var x := s[n];
      r := InsertSorted(r, x, key);
      assert s[..n + 1] == s[..n] + [x];
      assert s[..n + 1][..n] == s[..n];
      n := n + 1;
    }
    assert s[..n] == s;
  }
}
