/** Python dictionaries with string keys, as insertion-ordered association
    lists: assignment keeps a present key in its place or appends a new one,
    `pop` removes a key, and `a | b` keeps the keys of `a` in order, takes
    `b`'s values where both have a key, and appends `b`'s other keys. */
module PyDict {
  import opened Wrappers

  type Dict<V> = seq<(string, V)>

  function Keys<V>(d: Dict<V>): (ks: seq<string>)
    ensures |ks| == |d|
  {
    if d == [] then [] else [d[0].0] + Keys(d[1..])
  }

  /** The i-th key is the key of the i-th entry. */
  lemma {:induction false} KeysIndex<V>(d: Dict<V>)
    ensures forall i :: 0 <= i < |d| ==> Keys(d)[i] == d[i].0
  {
    if d != [] {
      KeysIndex(d[1..]);
      assert forall i :: 1 <= i < |d| ==> Keys(d)[i] == Keys(d[1..])[i - 1];
    }
  }

  predicate HasKey<V>(d: Dict<V>, k: string) {
    k in Keys(d)
  }

  /** A Python dictionary holds each key at most once. */
  predicate WellFormed<V>(d: Dict<V>) {
    var ks := Keys(d);
    forall i, j :: 0 <= i < j < |ks| ==> ks[i] != ks[j]
  }

  /** `d.get(k)`. */
  function Get<V>(d: Dict<V>, k: string): (r: Option<V>)
    ensures r.Some? <==> HasKey(d, k)
  {
    if d == [] then None
    else if d[0].0 == k then Some(d[0].1)
    else Get(d[1..], k)
  }

  /** The value of an entry whose key does not occur earlier is what `get`
      finds for that key. */
  lemma {:induction false} GetAt<V>(d: Dict<V>, i: nat)
    requires i < |d|
    requires forall j :: 0 <= j < i ==> d[j].0 != d[i].0
    ensures Get(d, d[i].0) == Some(d[i].1)
  {
    if i > 0 {
      assert d[0].0 != d[i].0;
      assert d[1..][i - 1] == d[i];
      GetAt(d[1..], i - 1);
    }
  }

  /** `d.get(k, default)`. */
  function GetOr<V>(d: Dict<V>, k: string, default: V): V {
    Get(d, k).GetOr(default)
  }

  /** `d[k] = v`: `k` now maps to `v`, every other key keeps its value, and
      the key order only grows by `k` at the back when `k` was new. */
  function Set<V>(d: Dict<V>, k: string, v: V): (r: Dict<V>)
    ensures Get(r, k) == Some(v)
    ensures forall k' :: k' != k ==> Get(r, k') == Get(d, k')
    ensures Keys(r) == if HasKey(d, k) then Keys(d) else Keys(d) + [k]
  {
    if d == [] then [(k, v)]
    else if d[0].0 == k then [(k, v)] + d[1..]
    else
      var r := [d[0]] + Set(d[1..], k, v);
      assert r[1..] == Set(d[1..], k, v);
      assert Keys(r) == [d[0].0] + Keys(r[1..]) && Keys(d) == [d[0].0] + Keys(d[1..]);
      r
  }

  /** `d.pop(k, None)`: the key is gone, every other key keeps its value, and
      the remaining keys keep their order. */
  function Pop<V>(d: Dict<V>, k: string): (r: Dict<V>)
    ensures Get(r, k) == None
    ensures forall k' :: k' != k ==> Get(r, k') == Get(d, k')
    ensures |r| <= |d|
  {
    if d == [] then []
    else if d[0].0 == k then Pop(d[1..], k)
    else
      var r := [d[0]] + Pop(d[1..], k);
      assert r[1..] == Pop(d[1..], k);
      r
  }

  /** `a | b`: `b` wins on shared keys. */
  function Union<V>(a: Dict<V>, b: Dict<V>): (r: Dict<V>)
    requires WellFormed(b)
    ensures forall k :: Get(r, k) == if HasKey(b, k) then Get(b, k) else Get(a, k)
    ensures |r| >= |a| && Keys(r)[..|a|] == Keys(a)
    decreases |b|
  {
    if b == [] then a
    else
      TailWellFormed(b);
      var a' := Set(a, b[0].0, b[0].1);
      var r := Union(a', b[1..]);
      SetKeysPrefix(a, b[0].0, b[0].1);
      PrefixOfPrefix(Keys(r), Keys(a'), Keys(a));
      r
  }

  /** Dropping the first entry of a dictionary leaves a dictionary without
      that entry's key. */
  lemma TailWellFormed<V>(d: Dict<V>)
    requires WellFormed(d) && d != []
    ensures WellFormed(d[1..]) && !HasKey(d[1..], d[0].0)
  {
    assert Keys(d[1..]) == Keys(d)[1..];
    assert forall j :: 0 <= j < |Keys(d[1..])| ==> Keys(d[1..])[j] == Keys(d)[j + 1] != Keys(d)[0];
  }

  lemma SetKeysPrefix<V>(d: Dict<V>, k: string, v: V)
    ensures |Keys(Set(d, k, v))| >= |d| && Keys(Set(d, k, v))[..|d|] == Keys(d)
  {
    if HasKey(d, k) {
      assert Keys(Set(d, k, v)) == Keys(d);
    } else {
      assert Keys(Set(d, k, v)) == Keys(d) + [k];
    }
  }

  lemma PrefixOfPrefix<T>(s: seq<T>, t: seq<T>, u: seq<T>)
    requires |u| <= |t| <= |s| && s[..|t|] == t && t[..|u|] == u
    ensures s[..|u|] == u
  {
    assert s[..|u|] == s[..|t|][..|u|];
  }

  /** `{k: f(v) for k, v in d.items()}`. */
  function MapValues<V, W>(d: Dict<V>, f: V -> W): (r: Dict<W>)
    ensures Keys(r) == Keys(d)
    ensures forall k :: Get(r, k) == if HasKey(d, k) then Some(f(Get(d, k).value)) else None
  {
    if d == [] then []
    else
      var r := [(d[0].0, f(d[0].1))] + MapValues(d[1..], f);
      assert r[1..] == MapValues(d[1..], f);
      r
  }

  /** Assigning a key keeps a dictionary free of duplicate keys. */
  lemma SetWellFormed<V>(d: Dict<V>, k: string, v: V)
    requires WellFormed(d)
    ensures WellFormed(Set(d, k, v))
  {
    var ks := Keys(Set(d, k, v));
    if !HasKey(d, k) {
      assert forall i :: 0 <= i < |ks| - 1 ==> ks[i] == Keys(d)[i] != k;
    }
  }

  /** Assigning a new key appends one entry. */
  lemma {:induction false} SetNewKey<V>(d: Dict<V>, k: string, v: V)
    requires !HasKey(d, k)
    ensures Set(d, k, v) == d + [(k, v)]
  {
    if d != [] {
      assert Keys(d) == [d[0].0] + Keys(d[1..]);
      SetNewKey(d[1..], k, v);
      assert d == [d[0]] + d[1..];
    }
  }

  lemma {:induction false} MapValuesSnoc<V, W>(d: Dict<V>, x: (string, V), f: V -> W)
    ensures MapValues(d + [x], f) == MapValues(d, f) + [(x.0, f(x.1))]
  {
    if d == [] {
      assert d + [x] == [x];
      assert [x][1..] == [];
    } else {
      assert (d + [x])[1..] == d[1..] + [x];
      MapValuesSnoc(d[1..], x, f);
    }
  }

  /** The entries before position `i` of a well-formed dictionary do not hold
      the key of entry `i`. */
  lemma PrefixLacksKey<V>(d: Dict<V>, i: nat)
    requires WellFormed(d) && i < |d|
    ensures !HasKey(d[..i], d[i].0)
  {
    KeysIndex(d);
    KeysIndex(d[..i]);
    assert forall j :: 0 <= j < i ==> Keys(d[..i])[j] == Keys(d)[j] != Keys(d)[i];
  }
}
