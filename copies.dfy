/** Lists built by copying: the workload-major expansion of `add_workloads`
    (every item once per workload) and the matching spread of the workloads. */
module Copies {

  /** `m` copies of `s`, one after the other. */
  function Repeat<T>(s: seq<T>, m: nat): seq<T> {
    if m == 0 then [] else s + Repeat(s, m - 1)
  }

  /** `m` copies of `s` hold `m * |s|` items. */
  lemma {:induction false} RepeatLength<T>(s: seq<T>, m: nat)
    ensures |Repeat(s, m)| == m * |s|
  {
    if m > 0 {
      RepeatLength(s, m - 1);
    }
  }

  /** Appending one more copy at the end is the same as one more copy. */
  lemma {:induction false} RepeatSnoc<T>(s: seq<T>, m: nat)
    ensures Repeat(s, m) + s == Repeat(s, m + 1)
  {
    if m > 0 {
      RepeatSnoc(s, m - 1);
      calc {
        Repeat(s, m) + s;
        (s + Repeat(s, m - 1)) + s;
        s + (Repeat(s, m - 1) + s);
        s + Repeat(s, m);
      }
    }
  }

  /** Every item `n` times in a row, in order: the workload each entry of a
      workload-major expansion of `n` items belongs to. */
  function Spread<T>(s: seq<T>, n: nat): seq<T> {
    if s == [] then [] else Spread(s[..|s| - 1], n) + seq(n, _ => s[|s| - 1])
  }

  lemma SpreadSnoc<T>(s: seq<T>, a: nat, n: nat)
    requires a < |s|
    ensures Spread(s[..a + 1], n) == Spread(s[..a], n) + seq(n, _ => s[a])
  {
    assert s[..a + 1][..a] == s[..a];
  }
}
