/** The web UI's page for adding a SUT config: an editor holding the YAML,
    the SUT name read from its `sut:` line, the file name shown for it, and
    the upload that writes the chosen name back into the `sut:` line.  The two
    regular expressions the page uses, `/^\s*sut:\s*"?([A-Za-z0-9-_]+)"?/m`
    and `/^\s*sut:\s*.*$/m`, are modelled by the scans they perform; reading a
    file and the request are parameters. */
module AddSutPage {
  import opened Wrappers
  import Text

  /** JavaScript's `\s`: white space and line terminators. */
  predicate IsJsSpace(c: char) {
    c == ' ' || c == '\t' || c as int == 11 || c as int == 12 || c as int == 0xA0 ||
    c as int == 0x1680 || (0x2000 <= c as int <= 0x200A) || c as int == 0x202F ||
    c as int == 0x205F || c as int == 0x3000 || c as int == 0xFEFF || IsLineTerminator(c)
  }

  /** The characters after which `^` matches in multiline mode and which `.`
      does not match. */
  predicate IsLineTerminator(c: char) {
    c == '\n' || c == '\r' || c as int == 0x2028 || c as int == 0x2029
  }

  /** `[A-Za-z0-9-_]`. */
  predicate IsNameChar(c: char) {
    ('A' <= c <= 'Z') || ('a' <= c <= 'z') || ('0' <= c <= '9') || c == '-' || c == '_'
  }

  /** Where a greedy `\s*` starting at `i` stops. */
  function SkipSpaces(s: string, i: nat): (j: nat)
    requires i <= |s|
    ensures i <= j <= |s|
    ensures forall k :: i <= k < j ==> IsJsSpace(s[k])
    ensures j == |s| || !IsJsSpace(s[j])
    decreases |s| - i
  {
    if i < |s| && IsJsSpace(s[i]) then SkipSpaces(s, i + 1) else i
  }

  /** Where a greedy `[A-Za-z0-9-_]*` starting at `i` stops. */
  function NameEnd(s: string, i: nat): (j: nat)
    requires i <= |s|
    ensures i <= j <= |s|
    ensures forall k :: i <= k < j ==> IsNameChar(s[k])
    ensures j == |s| || !IsNameChar(s[j])
    decreases |s| - i
  {
    if i < |s| && IsNameChar(s[i]) then NameEnd(s, i + 1) else i
  }

  /** Where a greedy `.*` starting at `i` stops: the end of the line. */
  function LineEnd(s: string, i: nat): (j: nat)
    requires i <= |s|
    ensures i <= j <= |s|
    ensures forall k :: i <= k < j ==> !IsLineTerminator(s[k])
    ensures j == |s| || IsLineTerminator(s[j])
    decreases |s| - i
  {
    if i < |s| && !IsLineTerminator(s[i]) then LineEnd(s, i + 1) else i
  }

  /** `^` in multiline mode. */
  predicate LineStart(s: string, p: nat)
    requires p <= |s|
  {
    p == 0 || IsLineTerminator(s[p - 1])
  }

  predicate SutWordAt(s: string, j: nat) {
    j + 4 <= |s| && s[j] == 's' && s[j + 1] == 'u' && s[j + 2] == 't' && s[j + 3] == ':'
  }

  /** `/^\s*sut:/m` matches at `p`.  Since `s` is not white space, the
      greedy `\s*` never has to give anything back. */
  predicate KeyAt(s: string, p: nat)
    requires p <= |s|
  {
    LineStart(s, p) && SutWordAt(s, SkipSpaces(s, p))
  }

  /** Where the value of the key at `p` starts: after the spaces following
      the colon and one optional quote. */
  function ValueStart(s: string, p: nat): (v: nat)
    requires p <= |s| && KeyAt(s, p)
    ensures v <= |s|
  {
    var k := SkipSpaces(s, SkipSpaces(s, p) + 4);
    if k < |s| && s[k] == '"' then k + 1 else k
  }

  /** `/^\s*sut:\s*"?([A-Za-z0-9-_]+)"?/m` matches at `p`. */
  predicate NameAt(s: string, p: nat)
    requires p <= |s|
  {
    KeyAt(s, p) && NameEnd(s, ValueStart(s, p)) > ValueStart(s, p)
  }

  /** The first position from `i` on where the key matches. */
  function FirstKey(s: string, i: nat): (r: Option<nat>)
    requires i <= |s| + 1
    ensures r.Some? ==> i <= r.value <= |s| && KeyAt(s, r.value) &&
                        forall q :: i <= q < r.value ==> !KeyAt(s, q)
    ensures r.None? ==> forall q :: i <= q <= |s| ==> !KeyAt(s, q)
    decreases |s| + 1 - i
  {
    if i > |s| then None else if KeyAt(s, i) then Some(i) else FirstKey(s, i + 1)
  }

  /** The first position from `i` on where the name pattern matches. */
  function FirstName(s: string, i: nat): (r: Option<nat>)
    requires i <= |s| + 1
    ensures r.Some? ==> i <= r.value <= |s| && NameAt(s, r.value)
    decreases |s| + 1 - i
  {
    if i > |s| then None else if NameAt(s, i) then Some(i) else FirstName(s, i + 1)
  }

  /** When no match is found from `i` on, the pattern matches nowhere
      from `i` on. */
  lemma {:induction false} FirstNameNone(s: string, i: nat)
    requires i <= |s| + 1 && FirstName(s, i).None?
    ensures forall q :: i <= q <= |s| ==> !NameAt(s, q)
    decreases |s| + 1 - i
  {
    if i <= |s| {
      FirstNameNone(s, i + 1);
    }
  }

  /** The name `parseSutName` captures: the value of the first `sut:` line
      that starts with name characters, or None when no line does. */
  function ParseName(yaml: string): (r: Option<string>)
    ensures r.Some? <==> exists p :: 0 <= p <= |yaml| && NameAt(yaml, p)
    ensures r.Some? ==> r.value != [] && forall k :: 0 <= k < |r.value| ==> IsNameChar(r.value[k])
  {
    match FirstName(yaml, 0)
    case None => FirstNameNone(yaml, 0); None
    case Some(p) =>
      var v := ValueStart(yaml, p);
      Some(yaml[v..NameEnd(yaml, v)])
  }

  /** The page's state: the chosen file's name, the editor's text, the SUT
      name and the file name shown. */
  datatype Page = Page(file: Option<string>, content: string, sutName: string, displayName: string)

  const Initial: Page := Page(None, "", "", "")

  /** `name.endsWith(".yaml") ? name : name + ".yaml"`. */
  function WithSuffix(name: string): (r: string)
    ensures Text.EndsWith(r, ".yaml")
    ensures Text.EndsWith(name, ".yaml") ==> r == name
  {
    if Text.EndsWith(name, ".yaml") then name else name + ".yaml"
  }

  /** `name.replace(/\.yaml$/, "")`: one trailing ".yaml" goes. */
  function StripSuffix(name: string): (r: string)
    ensures Text.EndsWith(name, ".yaml") ==> r + ".yaml" == name
    ensures !Text.EndsWith(name, ".yaml") ==> r == name
  {
    if Text.EndsWith(name, ".yaml") then name[..|name| - 5] else name
  }

  /** Stripping undoes suffixing a name that had no suffix. */
  lemma StripUndoesSuffix(name: string)
    requires !Text.EndsWith(name, ".yaml")
    ensures StripSuffix(WithSuffix(name)) == name
  {
    var r := name + ".yaml";
    assert r[|r| - 5..] == ".yaml";
    assert r[..|r| - 5] == name;
  }

  /** `parseSutName`: a captured name becomes the SUT name and, suffixed,
      the file name; without a match both names stay. */
  function Parsed(pg: Page, yaml: string): (r: Page)
    ensures ParseName(yaml).None? ==> r == pg
    ensures ParseName(yaml).Some? ==>
              r == pg.(sutName := ParseName(yaml).value, displayName := WithSuffix(ParseName(yaml).value))
  {
    match ParseName(yaml)
    case None => pg
    case Some(name) => pg.(sutName := name, displayName := WithSuffix(name))
  }

  /** A captured name never has a '.', so its file name is always the name
      followed by ".yaml". */
  lemma ParsedNameGainsSuffix(pg: Page, yaml: string)
    requires ParseName(yaml).Some?
    ensures Parsed(pg, yaml).displayName == ParseName(yaml).value + ".yaml"
    ensures StripSuffix(Parsed(pg, yaml).displayName) == ParseName(yaml).value
  {
    var n := ParseName(yaml).value;
    assert !Text.EndsWith(n, ".yaml") by {
      if |n| >= 5 {
        var c := n[|n| - 5];
        assert IsNameChar(c);
        assert n[|n| - 5..][0] == c;
      }
    }
    StripUndoesSuffix(n);
  }

  /** The default config arrived: it fills the editor and is parsed. */
  function DefaultFetched(pg: Page, text: string): (r: Page)
    ensures r == Parsed(pg.(content := text), text)
    ensures r.content == text && r.file == pg.file
  {
    Parsed(pg.(content := text), text)
  }

  /** A file was chosen or dropped: its text fills the editor, the file is
      remembered, and the text is parsed. */
  function FileLoaded(pg: Page, fileName: string, text: string): (r: Page)
    ensures r == Parsed(pg.(content := text, file := Some(fileName)), text)
    ensures r.content == text && r.file == Some(fileName)
  {
    Parsed(pg.(content := text, file := Some(fileName)), text)
  }

  /** `handleNameChange`: the field shows what was typed; the SUT name is
      that without a trailing ".yaml". */
  function NameChanged(pg: Page, value: string): (r: Page)
    ensures r == pg.(displayName := value, sutName := StripSuffix(value))
  {
    pg.(displayName := value, sutName := StripSuffix(value))
  }

  /** Leaving the field: a non-empty name without ".yaml" gains it. */
  function Blurred(pg: Page, value: string): (r: Page)
    ensures value != [] && !Text.EndsWith(value, ".yaml") ==> r == pg.(displayName := value + ".yaml")
    ensures value == [] || Text.EndsWith(value, ".yaml") ==> r == pg
  {
    if value != [] && !Text.EndsWith(value, ".yaml") then pg.(displayName := value + ".yaml") else pg
  }

  /** The name written into the config: the SUT name, or else the file name
      without ".yaml". */
  function FinalName(pg: Page): (n: string)
    ensures pg.sutName != [] ==> n == pg.sutName
    ensures pg.sutName == [] ==> n == StripSuffix(pg.displayName)
  {
    if pg.sutName != [] then pg.sutName else StripSuffix(pg.displayName)
  }

  /** Whatever was typed last is, without ".yaml", the name written. */
  lemma TypedNameIsFinal(pg: Page, value: string)
    ensures FinalName(NameChanged(pg, value)) == StripSuffix(value)
  {
  }

  /** Leaving the field never changes the name written. */
  lemma BlurKeepsFinalName(pg: Page)
    ensures FinalName(Blurred(pg, pg.displayName)) == FinalName(pg)
  {
    var v := pg.displayName;
    if v != [] && !Text.EndsWith(v, ".yaml") {
      StripUndoesSuffix(v);
    }
  }

  /** `String.prototype.replace` expanding its replacement: `$$`, `$&`,
      `` $` `` and `$'`; with no capture groups any other `$` is literal. */
  function Expand(rep: string, matched: string, before: string, after: string): string
    decreases |rep|
  {
    if rep == [] then []
    else if rep[0] == '$' && |rep| >= 2 && rep[1] == '$' then "$" + Expand(rep[2..], matched, before, after)
    else if rep[0] == '$' && |rep| >= 2 && rep[1] == '&' then matched + Expand(rep[2..], matched, before, after)
    else if rep[0] == '$' && |rep| >= 2 && rep[1] == '`' then before + Expand(rep[2..], matched, before, after)
    else if rep[0] == '$' && |rep| >= 2 && rep[1] == '\'' then after + Expand(rep[2..], matched, before, after)
    else [rep[0]] + Expand(rep[1..], matched, before, after)
  }

  /** A replacement without `$` is inserted as it is. */
  lemma {:induction false} ExpandPlain(rep: string, matched: string, before: string, after: string)
    requires forall k :: 0 <= k < |rep| ==> rep[k] != '$'
    ensures Expand(rep, matched, before, after) == rep
    decreases |rep|
  {
    if rep != [] {
      ExpandPlain(rep[1..], matched, before, after);
    }
  }

  /** `  sut: "<name>"`. */
  function SutLine(name: string): (r: string)
    ensures |r| == |name| + 9
    ensures r[..8] == "  sut: \"" && r[8..8 + |name|] == name && r[8 + |name|] == '"'
  {
    "  sut: \"" + name + "\""
  }

  /** The text `addSut` uploads: with a non-empty final name and a `sut:`
      line, the first match of `/^\s*sut:\s*.*$/m` (from its line start,
      across any blank lines before the key, to the end of the line holding
      the value) is replaced by the new line; otherwise the text is sent as
      it is. */
  function Rewritten(yaml: string, name: string): (r: string)
    ensures name == [] || FirstKey(yaml, 0).None? ==> r == yaml
  {
    if name == [] then yaml
    else match FirstKey(yaml, 0)
      case None => yaml
      case Some(p) =>
        var e := LineEnd(yaml, SkipSpaces(yaml, SkipSpaces(yaml, p) + 4));
        yaml[..p] + Expand(SutLine(name), yaml[p..e], yaml[..p], yaml[e..]) + yaml[e..]
  }

  /** Greedy scans stop where the characters stop matching. */
  lemma {:induction false} SkipSpacesIs(s: string, i: nat, j: nat)
    requires i <= j <= |s|
    requires forall k :: i <= k < j ==> IsJsSpace(s[k])
    requires j == |s| || !IsJsSpace(s[j])
    ensures SkipSpaces(s, i) == j
    decreases j - i
  {
    if i < j {
      SkipSpacesIs(s, i + 1, j);
    }
  }

  lemma {:induction false} NameEndIs(s: string, i: nat, j: nat)
    requires i <= j <= |s|
    requires forall k :: i <= k < j ==> IsNameChar(s[k])
    requires j == |s| || !IsNameChar(s[j])
    ensures NameEnd(s, i) == j
    decreases j - i
  {
    if i < j {
      NameEndIs(s, i + 1, j);
    }
  }

  lemma {:induction false} FirstNameIs(s: string, i: nat, p: nat)
    requires i <= p <= |s| && NameAt(s, p)
    requires forall q :: i <= q < p ==> !NameAt(s, q)
    ensures FirstName(s, i) == Some(p)
    decreases p - i
  {
    if i < p {
      FirstNameIs(s, i + 1, p);
    }
  }

  /** No key is found before `p` in a text that agrees with `s` up to `p`,
      when `p` is the first key of `s`. */
  lemma NoEarlierKey(s: string, t: string, p: nat, q: nat)
    requires p <= |s| && p <= |t| && s[..p] == t[..p]
    requires KeyAt(s, p) && q < p && !KeyAt(s, q)
    ensures !KeyAt(t, q)
  {
    assert forall k :: 0 <= k < p ==> s[k] == t[k] by {
      forall k | 0 <= k < p ensures s[k] == t[k] {
        assert s[..p][k] == s[k] && t[..p][k] == t[k];
      }
    }
    var j := SkipSpaces(s, q);
    if j < p {
      SkipSpacesIs(t, q, j);
      // The word would have to reach the line terminator ending at `p`.
      assert IsLineTerminator(t[p - 1]);
    } else {
      SkipSpacesIs(s, q, SkipSpaces(s, p));
      assert !LineStart(s, q);
      assert t[q - 1] == s[q - 1];
    }
  }

  /** The new line, placed at a line start, is matched by the name pattern
      there and yields the name. */
  lemma SutLineParsed(t: string, p: nat, name: string)
    requires name != [] && forall k :: 0 <= k < |name| ==> IsNameChar(name[k])
    requires p + |name| + 9 <= |t| && t[p..p + |name| + 9] == SutLine(name)
    requires LineStart(t, p)
    ensures NameAt(t, p) && ValueStart(t, p) == p + 8 && NameEnd(t, p + 8) == p + 8 + |name|
    ensures t[p + 8..p + 8 + |name|] == name
  {
    SutLineChars(t, p, name);
    SutKeyAt(t, p);
    NameEndIs(t, p + 8, p + 8 + |name|);
  }

  /** `  sut: "` at a line start is a key whose value starts after the quote. */
  lemma SutKeyAt(t: string, p: nat)
    requires p + 8 <= |t| && LineStart(t, p)
    requires t[p] == ' ' && t[p + 1] == ' ' && t[p + 2] == 's' && t[p + 3] == 'u'
    requires t[p + 4] == 't' && t[p + 5] == ':' && t[p + 6] == ' ' && t[p + 7] == '"'
    ensures KeyAt(t, p) && ValueStart(t, p) == p + 8
  {
    SkipSpacesIs(t, p, p + 2);
    SkipSpacesIs(t, p + 6, p + 7);
  }

  /** Where the new line sits in `t`, character by character. */
  lemma SutLineChars(t: string, p: nat, name: string)
    requires p + |name| + 9 <= |t| && t[p..p + |name| + 9] == SutLine(name)
    ensures t[p] == ' ' && t[p + 1] == ' ' && t[p + 2] == 's' && t[p + 3] == 'u'
    ensures t[p + 4] == 't' && t[p + 5] == ':' && t[p + 6] == ' ' && t[p + 7] == '"'
    ensures forall k :: p + 8 <= k < p + 8 + |name| ==> t[k] == name[k - p - 8]
    ensures t[p + 8 + |name|] == '"'
    ensures t[p + 8..p + 8 + |name|] == name
  {
    var line := SutLine(name);
    forall k | 0 <= k < |line|
      ensures t[p + k] == line[k]
    {
      assert t[p..p + |name| + 9][k] == t[p + k];
    }
    assert line[0] == ' ' && line[1] == ' ' && line[2] == 's' && line[3] == 'u' by {
      assert line[..8][0] == ' ' && line[..8][1] == ' ' && line[..8][2] == 's' && line[..8][3] == 'u';
    }
    assert line[4] == 't' && line[5] == ':' && line[6] == ' ' && line[7] == '"' by {
      assert line[..8][4] == 't' && line[..8][5] == ':' && line[..8][6] == ' ' && line[..8][7] == '"';
    }
    forall k | p + 8 <= k < p + 8 + |name|
      ensures t[k] == name[k - p - 8]
    {
      assert line[8..8 + |name|][k - p - 8] == line[k - p];
    }
    assert t[p + 8..p + 8 + |name|] == name;
  }

  /** The first match of the name pattern decides what is parsed. */
  lemma ParsedAt(t: string, p: nat, name: string)
    requires p + 8 + |name| <= |t| && NameAt(t, p) && ValueStart(t, p) == p + 8
    requires NameEnd(t, p + 8) == p + 8 + |name| && t[p + 8..p + 8 + |name|] == name
    requires forall q :: 0 <= q < p ==> !NameAt(t, q)
    ensures ParseName(t) == Some(name)
  {
    FirstNameIs(t, 0, p);
    ParseNameAt(t, p, p + 8, p + 8 + |name|, name);
  }

  /** The name parsed is the one after the first match. */
  lemma ParseNameAt(t: string, p: nat, v: nat, e: nat, name: string)
    requires p <= |t| && FirstName(t, 0) == Some(p)
    requires v == ValueStart(t, p) && e == NameEnd(t, v) && e <= |t| && t[v..e] == name
    ensures ParseName(t) == Some(name)
  {
  }

  /** The rewrite replaces the first key's line, from its start to the end of
      its value, by the new line. */
  lemma RewrittenAt(yaml: string, name: string, p: nat, e: nat)
    requires name != [] && forall k :: 0 <= k < |name| ==> IsNameChar(name[k])
    requires FirstKey(yaml, 0) == Some(p)
    requires e == LineEnd(yaml, SkipSpaces(yaml, SkipSpaces(yaml, p) + 4))
    ensures p <= e <= |yaml|
    ensures Rewritten(yaml, name) == yaml[..p] + SutLine(name) + yaml[e..]
  {
    var line := SutLine(name);
    forall k | 0 <= k < |line|
      ensures line[k] != '$'
    {
      if k < 8 {
        assert line[..8][k] == line[k];
      } else if k < 8 + |name| {
        assert line[8..8 + |name|][k - 8] == line[k];
      }
    }
    ExpandPlain(line, yaml[p..e], yaml[..p], yaml[e..]);
  }

  /** Writing a name back and parsing the result gives that name: the
      rewritten line is the first `sut:` line and its value is the name,
      quoted. */
  lemma RewriteThenParse(yaml: string, name: string)
    requires name != [] && forall k :: 0 <= k < |name| ==> IsNameChar(name[k])
    requires FirstKey(yaml, 0).Some?
    ensures ParseName(Rewritten(yaml, name)) == Some(name)
  {
    var p := FirstKey(yaml, 0).value;
    var e := LineEnd(yaml, SkipSpaces(yaml, SkipSpaces(yaml, p) + 4));
    var line := SutLine(name);
    RewrittenAt(yaml, name, p, e);
    var t := yaml[..p] + line + yaml[e..];
    assert t[..p] == yaml[..p];
    assert t[p..p + |line|] == line;
    assert LineStart(t, p) by {
      if p > 0 {
        assert t[p - 1] == t[..p][p - 1];
      }
    }
    SutLineParsed(t, p, name);
    forall q | 0 <= q < p
      ensures !NameAt(t, q)
    {
      NoEarlierKey(yaml, t, p, q);
    }
    ParsedAt(t, p, name);
  }

  /** What pressing "Upload" leads to. */
  datatype Upload = NotSent | Sent(yaml: string, navigate: bool)

  /** `addSut`: the rewritten text is base64-encoded and posted, and an ok
      answer moves on to the experiment page.  `btoa` throws on a character
      above U+00FF, and then nothing is sent. */
  function AddSut(pg: Page, ok: bool): (r: Upload)
    ensures var yaml := Rewritten(pg.content, FinalName(pg));
            r == (if forall k :: 0 <= k < |yaml| ==> yaml[k] as int <= 0xFF then Sent(yaml, ok) else NotSent)
    ensures r.Sent? && r.navigate ==> ok
  {
    var yaml := Rewritten(pg.content, FinalName(pg));
    if forall k :: 0 <= k < |yaml| ==> yaml[k] as int <= 0xFF then Sent(yaml, ok) else NotSent
  }
}
