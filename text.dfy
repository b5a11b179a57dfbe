/** The Python `str` operations (and their JavaScript twins) that the deployer,
    the load generator and the web UI build their names, ids and YAML rewrites
    from: `startswith`, `endswith`, `in`, `replace`, `count`, `split`, `join`,
    `strip` and `lower`.  Strings are sequences of characters. */
module Text {

  predicate StartsWith(s: string, p: string) {
    |p| <= |s| && s[..|p|] == p
  }

  predicate EndsWith(s: string, p: string) {
    |p| <= |s| && s[|s| - |p|..] == p
  }

  /** `p` occurs in `s` starting at index `j`. */
  predicate OccursAt(s: string, p: string, j: nat) {
    j + |p| <= |s| && s[j..j + |p|] == p
  }

  /** Python's `p in s`. */
  predicate Contains(s: string, p: string) {
    exists j: nat :: j <= |s| && OccursAt(s, p, j)
  }

  /** Python's `s.replace(pat, rep)`: the occurrences of `pat` found by a
      left-to-right scan that skips over each match become `rep`; an empty
      `pat` puts `rep` before every character and at the end. */
  function Replace(s: string, pat: string, rep: string): string
    decreases |s|
  {
    if pat == [] then
      (if s == [] then rep else rep + [s[0]] + Replace(s[1..], pat, rep))
    else if |s| < |pat| then s
    else if s[..|pat|] == pat then rep + Replace(s[|pat|..], pat, rep)
    else [s[0]] + Replace(s[1..], pat, rep)
  }

  /** Where `pat` matches at the head, `rep` is written in its place. */
  lemma ReplaceAtMatch(s: string, pat: string, rep: string)
    requires pat != [] && |pat| <= |s| && s[..|pat|] == pat
    ensures Replace(s, pat, rep) == rep + Replace(s[|pat|..], pat, rep)
  {
  }

  /** Where `pat` does not match at the head, the head is copied. */
  lemma ReplaceCopiesHead(s: string, pat: string, rep: string)
    requires pat != [] && |pat| <= |s| && s[..|pat|] != pat
    ensures Replace(s, pat, rep) == [s[0]] + Replace(s[1..], pat, rep)
  {
  }

  /** Python's `s.count(pat)`: the number of matches of the same scan; an empty
      `pat` matches at all |s| + 1 positions. */
  function Count(s: string, pat: string): nat
    decreases |s|
  {
    if pat == [] then |s| + 1
    else if |s| < |pat| then 0
    else if s[..|pat|] == pat then 1 + Count(s[|pat|..], pat)
    else Count(s[1..], pat)
  }

  lemma OccursShift(s: string, p: string, j: nat)
    requires s != []
    ensures OccursAt(s, p, j + 1) <==> OccursAt(s[1..], p, j)
  {
    if j + 1 + |p| <= |s| {
      assert s[1..][j..j + |p|] == s[j + 1..j + 1 + |p|];
    }
  }

  /** A pattern that does not occur is counted zero times, and the other way round. */
  lemma {:induction false} CountPositiveIffContains(s: string, pat: string)
    requires pat != []
    ensures Count(s, pat) > 0 <==> Contains(s, pat)
    decreases |s|
  {
    if |s| < |pat| {
      assert forall j: nat :: !OccursAt(s, pat, j);
    } else if s[..|pat|] == pat {
      assert OccursAt(s, pat, 0);
    } else {
      CountPositiveIffContains(s[1..], pat);
      if Contains(s, pat) {
        var j: nat :| j <= |s| && OccursAt(s, pat, j);
        assert j != 0;
        OccursShift(s, pat, j - 1);
        assert Contains(s[1..], pat);
      }
      if Contains(s[1..], pat) {
        var j: nat :| j <= |s[1..]| && OccursAt(s[1..], pat, j);
        OccursShift(s, pat, j);
        assert Contains(s, pat);
      }
    }
  }

  /** Replacing a pattern that is counted zero times changes nothing. */
  lemma {:induction false} ReplaceAbsent(s: string, pat: string, rep: string)
    requires Count(s, pat) == 0
    ensures Replace(s, pat, rep) == s
    decreases |s|
  {
    if |s| >= |pat| {
      ReplaceAbsent(s[1..], pat, rep);
      assert [s[0]] + s[1..] == s;
    }
  }

  /** Replacing a pattern by itself changes nothing. */
  lemma {:induction false} ReplaceWithItself(s: string, pat: string)
    ensures Replace(s, pat, pat) == s
    decreases |s|
  {
    if pat == [] {
      if s != [] {
        ReplaceWithItself(s[1..], pat);
        assert [s[0]] + s[1..] == s;
      }
    } else if |s| >= |pat| {
      if s[..|pat|] == pat {
        ReplaceWithItself(s[|pat|..], pat);
        assert s[..|pat|] + s[|pat|..] == s;
      } else {
        ReplaceWithItself(s[1..], pat);
        assert [s[0]] + s[1..] == s;
      }
    }
  }

  /** One of `a`, `b` is a prefix of the other. */
  predicate Overlapping(a: string, b: string) {
    StartsWith(a, b) || StartsWith(b, a)
  }

  /** No match of `pat` can start inside `rep` or straddle the start of `rep`:
      no suffix of `pat` overlaps `rep`, and no proper suffix of `rep` overlaps
      `pat`.  (An empty `rep` never qualifies.) */
  predicate NoBoundary(pat: string, rep: string) {
    && (forall k: nat :: k < |pat| ==> !Overlapping(pat[k..], rep))
    && (forall j: nat :: 0 < j < |rep| ==> !Overlapping(rep[j..], pat))
  }

  lemma CommonPrefixesOverlap(x: string, a: string, b: string)
    requires StartsWith(x, a) && StartsWith(x, b)
    ensures Overlapping(a, b)
  {
    if |a| <= |b| {
      assert b[..|a|] == x[..|b|][..|a|] == x[..|a|];
    } else {
      assert a[..|b|] == x[..|a|][..|b|] == x[..|b|];
    }
  }

  /** A prefix of the output that spells a suffix of `pat` was copied from the input. */
  lemma {:induction false} ReplacedPrefixIsCopied(t: string, pat: string, rep: string, k: nat)
    requires pat != [] && NoBoundary(pat, rep) && k < |pat|
    requires StartsWith(Replace(t, pat, rep), pat[k..])
    ensures StartsWith(t, pat[k..])
    decreases |t|
  {
    var r := Replace(t, pat, rep);
    if |t| < |pat| {
    } else if t[..|pat|] == pat {
      assert StartsWith(r, rep);
      CommonPrefixesOverlap(r, pat[k..], rep);
      assert false;
    } else {
      var r' := Replace(t[1..], pat, rep);
      assert r == [t[0]] + r';
      if k + 1 < |pat| {
        assert r'[..|pat[k + 1..]|] == r[1..|pat[k..]|] == pat[k..][1..] == pat[k + 1..];
        ReplacedPrefixIsCopied(t[1..], pat, rep, k + 1);
        var m := |pat| - k;
        assert t[0] == r[0] == pat[k];
        assert t[..m] == [t[0]] + t[1..][..m - 1];
        assert pat[k..] == [pat[k]] + pat[k + 1..];
      }
    }
  }

  /** When `rep` cannot create new matches, `s.replace(pat, rep)` leaves no
      occurrence of `pat` behind. */
  lemma {:induction false} ReplaceRemovesPattern(t: string, pat: string, rep: string)
    requires pat != [] && NoBoundary(pat, rep)
    ensures !Contains(Replace(t, pat, rep), pat)
    decreases |t|
  {
    var r := Replace(t, pat, rep);
    if |t| < |pat| {
      assert forall j: nat :: !OccursAt(r, pat, j);
    } else if t[..|pat|] == pat {
      ReplaceRemovesPattern(t[|pat|..], pat, rep);
      NoMatchAfterReplacement(rep, Replace(t[|pat|..], pat, rep), pat);
    } else {
      ReplaceRemovesPattern(t[1..], pat, rep);
      NoMatchAfterCopiedChar(t, pat, rep);
    }
  }

  /** A match cannot start inside `rep` or after it in `rep + r'`. */
  lemma NoMatchAfterReplacement(rep: string, r': string, pat: string)
    requires pat != [] && NoBoundary(pat, rep) && !Contains(r', pat)
    ensures !Contains(rep + r', pat)
  {
    var r := rep + r';
    forall j: nat ensures !OccursAt(r, pat, j) {
      if OccursAt(r, pat, j) {
        if j < |rep| {
          assert StartsWith(r[j..], pat);
          assert StartsWith(r[j..], rep[j..]);
          CommonPrefixesOverlap(r[j..], rep[j..], pat);
          assert false;
        } else {
          assert r'[j - |rep|..j - |rep| + |pat|] == r[j..j + |pat|];
          assert OccursAt(r', pat, j - |rep|);
          assert false;
        }
      }
    }
  }

  /** A character that cannot begin a match, put before a string without
      matches, gives a string without matches. */
  lemma NoMatchAfterChar(c: char, r': string, pat: string)
    requires pat != [] && !Contains(r', pat)
    requires StartsWith(r', pat[1..]) ==> c != pat[0]
    ensures !Contains([c] + r', pat)
  {
    forall j: nat ensures !OccursAt([c] + r', pat, j) {
      if j == 0 {
        MatchAtHead(c, r', pat);
      } else {
        MatchAfterHead(c, r', pat, j);
      }
    }
  }

  /** A match at the start of `[c] + r'` begins with `c` and continues in `r'`. */
  lemma MatchAtHead(c: char, r': string, pat: string)
    requires pat != []
    ensures OccursAt([c] + r', pat, 0) ==> c == pat[0] && StartsWith(r', pat[1..])
  {
    var r := [c] + r';
    if |r| >= |pat| {
      assert r[1..|pat|] == r'[..|pat| - 1];
      assert r[..|pat|] == [r[0]] + r[1..|pat|];
      assert pat == [pat[0]] + pat[1..];
    }
  }

  /** A later match in `[c] + r'` is a match in `r'`. */
  lemma MatchAfterHead(c: char, r': string, pat: string, j: nat)
    requires 0 < j
    ensures OccursAt([c] + r', pat, j) ==> OccursAt(r', pat, j - 1)
  {
    var r := [c] + r';
    if j + |pat| <= |r| {
      assert r'[j - 1..j - 1 + |pat|] == r[j..j + |pat|];
    }
  }

  /** When `t` does not start with `pat`, its first character is copied and
      cannot begin a match of the output. */
  lemma NoMatchAfterCopiedChar(t: string, pat: string, rep: string)
    requires pat != [] && NoBoundary(pat, rep) && |t| >= |pat| && t[..|pat|] != pat
    requires !Contains(Replace(t[1..], pat, rep), pat)
    ensures !Contains(Replace(t, pat, rep), pat)
  {
    var r' := Replace(t[1..], pat, rep);
    assert Replace(t, pat, rep) == [t[0]] + r';
    if StartsWith(r', pat[1..]) {
      if |pat| > 1 {
        ReplacedPrefixIsCopied(t[1..], pat, rep, 1);
      }
      assert StartsWith(t[1..], pat[1..]);
      assert t[..|pat|] == [t[0]] + t[1..][..|pat| - 1];
      assert pat == [pat[0]] + pat[1..];
    }
    NoMatchAfterChar(t[0], r', pat);
  }

  /** Python's `s.split(sep)` for a non-empty separator. */
  function Split(s: string, sep: string): (parts: seq<string>)
    requires sep != []
    ensures |parts| >= 1
    decreases |s|
  {
    if |s| < |sep| then [s]
    else if s[..|sep|] == sep then [""] + Split(s[|sep|..], sep)
    else
      var rest := Split(s[1..], sep);
      [[s[0]] + rest[0]] + rest[1..]
  }

  /** Python's `sep.join(parts)`. */
  function Join(parts: seq<string>, sep: string): string {
    if parts == [] then ""
    else if |parts| == 1 then parts[0]
    else parts[0] + sep + Join(parts[1..], sep)
  }

  lemma {:induction false} SplitNoSeparator(x: string, c: char)
    requires c !in x
    ensures Split(x, [c]) == [x]
    decreases |x|
  {
    if x != [] {
      SplitNoSeparator(x[1..], c);
      assert [x[0]] + x[1..] == x;
    }
  }

  lemma {:induction false} SplitAtFirstSeparator(x: string, c: char, y: string)
    requires c !in x
    ensures Split(x + [c] + y, [c]) == [x] + Split(y, [c])
    decreases |x|
  {
    var s := x + [c] + y;
    if x == [] {
      assert s[..1] == [c] && s[1..] == y;
    } else {
      assert s[0] == x[0] && x[0] in x;
      assert s[..1] != [c];
      assert s[1..] == x[1..] + [c] + y;
      SplitAtFirstSeparator(x[1..], c, y);
      assert [x[0]] + x[1..] == x;
    }
  }

  /** A string without the separator's first character is not split. */
  lemma {:induction false} SplitWithoutLeadChar(x: string, sep: string)
    requires sep != [] && sep[0] !in x
    ensures Split(x, sep) == [x]
    decreases |x|
  {
    if |x| >= |sep| {
      assert x[..|sep|][0] == x[0] != sep[0];
      SplitWithoutLeadChar(x[1..], sep);
      assert [x[0]] + x[1..] == x;
    }
  }

  /** A separator after a part without its first character ends that part. */
  lemma {:induction false} SplitAtLeadChar(x: string, sep: string, y: string)
    requires sep != [] && sep[0] !in x
    ensures Split(x + sep + y, sep) == [x] + Split(y, sep)
    decreases |x|
  {
    var s := x + sep + y;
    if x == [] {
      assert s[..|sep|] == sep && s[|sep|..] == y;
    } else {
      assert s[0] == x[0] && x[0] in x;
      assert s[..|sep|][0] != sep[0];
      assert s[1..] == x[1..] + sep + y;
      SplitAtLeadChar(x[1..], sep, y);
      assert [x[0]] + x[1..] == x;
    }
  }

  /** Splitting a joined list on a one-character separator that none of the
      parts contains gives the parts back. */
  lemma {:induction false} SplitJoin(parts: seq<string>, c: char)
    requires |parts| >= 1
    requires forall i :: 0 <= i < |parts| ==> c !in parts[i]
    ensures Split(Join(parts, [c]), [c]) == parts
    decreases |parts|
  {
    if |parts| == 1 {
      SplitNoSeparator(parts[0], c);
    } else {
      SplitJoin(parts[1..], c);
      SplitAtFirstSeparator(parts[0], c, Join(parts[1..], [c]));
      assert [parts[0]] + parts[1..] == parts;
    }
  }

  /** Python's `str.isspace()` for one character, the whitespace `str.strip()`
      removes: the controls U+0009 to U+000D and U+001C to U+001F, the space,
      U+0085, U+00A0, U+1680, U+2000 to U+200A, the line and paragraph
      separators U+2028 and U+2029, U+202F, U+205F and U+3000. */
  predicate IsSpace(ch: char) {
    var c := ch as int;
    (0x09 <= c <= 0x0D) || (0x1C <= c <= 0x20) || c == 0x85 || c == 0xA0 || c == 0x1680 ||
    (0x2000 <= c <= 0x200A) || c == 0x2028 || c == 0x2029 || c == 0x202F || c == 0x205F || c == 0x3000
  }

  function LStrip(s: string): (r: string)
    ensures |r| <= |s|
  {
    if s != [] && IsSpace(s[0]) then LStrip(s[1..]) else s
  }

  /** `lstrip` drops exactly the leading whitespace. */
  lemma {:induction false} LStripDropsLeadingSpace(s: string)
    ensures var r := LStrip(s);
      r == s[|s| - |r|..] && (r != [] ==> !IsSpace(r[0])) &&
      forall i :: 0 <= i < |s| - |r| ==> IsSpace(s[i])
    decreases |s|
  {
    if s != [] && IsSpace(s[0]) {
      LStripDropsLeadingSpace(s[1..]);
      var r := LStrip(s);
      forall i | 0 <= i < |s| - |r|
        ensures IsSpace(s[i])
      {
        if i > 0 {
          assert s[1..][i - 1] == s[i];
        }
      }
    }
  }

  function RStrip(s: string): (r: string)
    ensures |r| <= |s|
  {
    if s != [] && IsSpace(s[|s| - 1]) then RStrip(s[..|s| - 1]) else s
  }

  /** `rstrip` drops exactly the trailing whitespace. */
  lemma {:induction false} RStripDropsTrailingSpace(s: string)
    ensures var r := RStrip(s);
      r == s[..|r|] && (r != [] ==> !IsSpace(r[|r| - 1])) &&
      forall i :: |r| <= i < |s| ==> IsSpace(s[i])
    decreases |s|
  {
    if s != [] && IsSpace(s[|s| - 1]) {
      RStripDropsTrailingSpace(s[..|s| - 1]);
      var r := RStrip(s);
      forall i | |r| <= i < |s|
        ensures IsSpace(s[i])
      {
        if i < |s| - 1 {
          assert s[..|s| - 1][i] == s[i];
        }
      }
    }
  }

  /** Python's `s.strip()`: the longest slice without surrounding whitespace. */
  function Strip(s: string): string {
    RStrip(LStrip(s))
  }

  lemma StripBorders(s: string)
    ensures var r := Strip(s);
      (r != [] ==> !IsSpace(r[0]) && !IsSpace(r[|r| - 1])) && |r| <= |s|
  {
    var l := LStrip(s);
    var r := RStrip(l);
    LStripDropsLeadingSpace(s);
    RStripDropsTrailingSpace(l);
    if r != [] {
      assert r[0] == l[0];
    }
  }

  /** A string without surrounding whitespace is its own `strip()`. */
  lemma StripTrimmed(s: string)
    requires s != [] && !IsSpace(s[0]) && !IsSpace(s[|s| - 1])
    ensures Strip(s) == s
  {
    assert LStrip(s) == s;
  }

  /** ASCII `str.lower()`. */
  function Lower(s: string): (r: string)
    ensures |r| == |s|
  {
    if s == [] then []
    else
      var c := s[0];
      [if 'A' <= c <= 'Z' then (c as int + 32) as char else c] + Lower(s[1..])
  }

  function DigitChar(d: nat): (c: char)
    requires d < 10
    ensures '0' <= c <= '9'
  {
    "0123456789"[d]
  }

  /** Python's `str(n)` / an f-string of a natural number. */
  function NatToString(n: nat): (r: string)
    ensures |r| > 0
    ensures forall i :: 0 <= i < |r| ==> '0' <= r[i] <= '9'
    decreases n
  {
    if n < 10 then [DigitChar(n)] else NatToString(n / 10) + [DigitChar(n % 10)]
  }

  /** Python's `str(i)` for any integer. */
  function IntToString(i: int): (r: string)
    ensures i >= 0 ==> r == NatToString(i)
    ensures i < 0 ==> r == "-" + NatToString(-i)
  {
    if i >= 0 then NatToString(i) else "-" + NatToString(-i)
  }

  /** Replacing one character by another keeps the length and changes exactly
      the positions that held the old character. */
  lemma {:induction false} ReplaceChar(s: string, a: char, b: char)
    ensures |Replace(s, [a], [b])| == |s|
    ensures forall i :: 0 <= i < |s| ==> Replace(s, [a], [b])[i] == if s[i] == a then b else s[i]
    decreases |s|
  {
    if s != [] {
      ReplaceChar(s[1..], a, b);
      var r := Replace(s, [a], [b]);
      if s[..1] == [a] {
        assert s[0] == a;
        assert r == [b] + Replace(s[1..], [a], [b]);
      } else {
        assert s[0] != a;
        assert r == [s[0]] + Replace(s[1..], [a], [b]);
      }
    }
  }
}
