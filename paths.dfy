/** The `pathlib` operations the configuration code uses on POSIX paths kept
    as strings: `/` to join, `.name` and `.stem`. */
module Paths {
  import opened Wrappers

  /** The index of the last '/' of `p`. */
  function LastSlash(p: string): (i: nat)
    requires '/' in p
    ensures i < |p| && p[i] == '/' && '/' !in p[i + 1..]
  {
    if p[|p| - 1] == '/' then |p| - 1
    else
      assert '/' in p[..|p| - 1] by {
        var k :| 0 <= k < |p| && p[k] == '/';
        assert p[..|p| - 1][k] == '/';
      }
      var i := LastSlash(p[..|p| - 1]);
      assert p[i + 1..] == p[..|p| - 1][i + 1..] + [p[|p| - 1]];
      i
  }

  /** `PurePath(p).name`: the last component, skipping the empty and "."
      components that path normalisation drops. */
  function Name(p: string): string
    decreases |p|
  {
    if '/' !in p then (if p == "." then "" else p)
    else
      var i := LastSlash(p);
      var tail := p[i + 1..];
      if tail == [] || tail == "." then Name(p[..i]) else tail
  }

  /** The index of the last '.' of `n`, if any. */
  function LastDot(n: string): (r: Option<nat>)
    ensures r.Some? ==> r.value < |n| && n[r.value] == '.' && '.' !in n[r.value + 1..]
    ensures r.None? ==> '.' !in n
  {
    if n == [] then None
    else if n[|n| - 1] == '.' then Some(|n| - 1)
    else
      var r := LastDot(n[..|n| - 1]);
      if r.Some? then
        assert n[r.value + 1..] == n[..|n| - 1][r.value + 1..] + [n[|n| - 1]];
        r
      else
        assert n == n[..|n| - 1] + [n[|n| - 1]];
        r
  }

  /** `PurePath(p).stem`: the name without its last suffix; a dot that starts
      or ends the name does not begin a suffix. */
  function Stem(p: string): string {
    var n := Name(p);
    var dot := LastDot(n);
    if dot.Some? && 0 < dot.value < |n| - 1 then n[..dot.value] else n
  }

  /** `base / name`: an absolute `name` replaces `base`. */
  function Join(base: string, name: string): string {
    if |name| > 0 && name[0] == '/' then name
    else if base == [] then name
    else if base[|base| - 1] == '/' then base + name
    else base + "/" + name
  }

  /** The last slash of `a + "/" + x`, when `x` has none, is the one added. */
  lemma {:induction false} LastSlashBefore(a: string, x: string)
    requires '/' !in x
    ensures '/' in a + "/" + x && LastSlash(a + "/" + x) == |a|
    decreases |x|
  {
    var p := a + "/" + x;
    assert p[|a|] == '/';
    if x != [] {
      var front := x[..|x| - 1];
      assert p[..|p| - 1] == a + "/" + front;
      assert p[|p| - 1] == x[|x| - 1];
      LastSlashBefore(a, front);
    }
  }

  /** The name of a path ending in a plain component is that component. */
  lemma NameAfterSlash(a: string, x: string)
    requires '/' !in x && x != [] && x != "."
    ensures Name(a + "/" + x) == x
  {
    LastSlashBefore(a, x);
    assert (a + "/" + x)[|a| + 1..] == x;
  }

  /** Joining a relative file name without slashes gives a path named by it. */
  lemma NameOfJoin(base: string, x: string)
    requires '/' !in x && x != [] && x != "."
    ensures Name(Join(base, x)) == x
  {
    if base == [] {
    } else if base[|base| - 1] == '/' {
      assert base + x == base[..|base| - 1] + "/" + x;
      NameAfterSlash(base[..|base| - 1], x);
    } else {
      NameAfterSlash(base, x);
    }
  }

  /** The last dot of `a + "." + y`, when `y` has none, is the one added. */
  lemma {:induction false} LastDotBefore(a: string, y: string)
    requires '.' !in y
    ensures LastDot(a + "." + y) == Some(|a|)
    decreases |y|
  {
    var n := a + "." + y;
    if y != [] {
      var front := y[..|y| - 1];
      assert n[..|n| - 1] == a + "." + front;
      assert n[|n| - 1] == y[|y| - 1];
      LastDotBefore(a, front);
    }
  }

  /** The extension has neither a dot nor a slash. */
  lemma YamlExtension()
    ensures '.' !in "yaml" && '/' !in "yaml"
  {
    var e := "yaml";
    assert e[0] == 'y' && e[1] == 'a' && e[2] == 'm' && e[3] == 'l';
    assert forall c :: c in e ==> c == 'y' || c == 'a' || c == 'm' || c == 'l';
  }

  /** A character in neither part is not in their concatenation. */
  lemma NotInAppend(a: string, b: string, c: char)
    requires c !in a && c !in b
    ensures c !in a + b
  {
    forall i | 0 <= i < |a + b|
      ensures (a + b)[i] != c
    {
      if i < |a| {
        assert (a + b)[i] == a[i];
      } else {
        assert (a + b)[i] == b[i - |a|];
      }
    }
  }

  /** The suffix is a dot followed by the extension, without a slash. */
  lemma YamlSuffix()
    ensures ".yaml" == "." + "yaml" && '/' !in ".yaml"
  {
    var e := ".yaml";
    YamlExtension();
    assert |e| == 5 && e[0] == '.' && e[1..] == "yaml";
  }

  /** `x + ".yaml"` has no slash, and its last dot is the one added. */
  lemma YamlFileName(x: string)
    requires '/' !in x
    ensures '/' !in x + ".yaml" && x + ".yaml" != "."
    ensures LastDot(x + ".yaml") == Some(|x|)
  {
    YamlSuffix();
    NotInAppend(x, ".yaml", '/');
    YamlExtension();
    LastDotBefore(x, "yaml");
    AppendAssoc(x, ".", "yaml");
  }

  lemma AppendAssoc(a: string, b: string, c: string)
    ensures a + (b + c) == a + b + c
  {
  }

  /** The stem of `<x>.yaml` joined under any directory is `x`. */
  lemma StemOfYamlFile(base: string, x: string)
    requires '/' !in x && x != []
    ensures Stem(Join(base, x + ".yaml")) == x
  {
    var n := x + ".yaml";
    YamlFileName(x);
    NameOfJoin(base, n);
    assert n[..|x|] == x;
  }
}
