/** The results router: listing experiment results by searching the results
    directory for its deepest directories and reading the two JSON files each
    one holds. */
module ResultsRouter {
  import opened Wrappers
  import opened Json
  import opened Directories
  import Text
  import Seqs

  // ---------------------------------------------------------------- leaves

  /** The index paths of the deepest directories below `d` (those without a
      subdirectory), in the order the recursive search finds them. */
  function Leaves(d: Dir): seq<IndexPath>
    decreases d, |d.subdirs| + 1
  {
    if d.subdirs == [] then [[]] else ChildLeaves(d, |d.subdirs|)
  }

  /** The leaves below the first `k` subdirectories of `d`. */
  function ChildLeaves(d: Dir, k: nat): seq<IndexPath>
    requires k <= |d.subdirs|
    decreases d, k
  {
    if k == 0 then []
    else ChildLeaves(d, k - 1) + Below(k - 1, Leaves(d.subdirs[k - 1]))
  }

  /** The paths `ps`, each taken from subdirectory `i`. */
  function Below(i: nat, ps: seq<IndexPath>): (r: seq<IndexPath>)
    ensures |r| == |ps| && forall j :: 0 <= j < |ps| ==> r[j] == [i] + ps[j]
  {
    seq(|ps|, j requires 0 <= j < |ps| => [i] + ps[j])
  }

  /** The paths `ps`, each taken from the directory at `path`. */
  function Under(path: IndexPath, ps: seq<IndexPath>): (r: seq<IndexPath>)
    ensures |r| == |ps| && forall j :: 0 <= j < |ps| ==> r[j] == path + ps[j]
  {
    seq(|ps|, j requires 0 <= j < |ps| => path + ps[j])
  }

  predicate IsLeaf(d: Dir, p: IndexPath) {
    At(d, p).Some? && At(d, p).value.subdirs == []
  }

  predicate Distinct<T(==)>(s: seq<T>) {
    forall i, j :: 0 <= i < j < |s| ==> s[i] != s[j]
  }

  lemma {:induction false} ChildLeavesMembers(d: Dir, k: nat)
    requires k <= |d.subdirs|
    ensures forall q :: q in ChildLeaves(d, k) <==>
                        (q != [] && q[0] < k && q[1..] in Leaves(d.subdirs[q[0]]))
  {
    if k > 0 {
      ChildLeavesMembers(d, k - 1);
      var below := Below(k - 1, Leaves(d.subdirs[k - 1]));
      forall q
        ensures q in below <==> (q != [] && q[0] == k - 1 && q[1..] in Leaves(d.subdirs[k - 1]))
      {
        if q != [] && q[0] == k - 1 && q[1..] in Leaves(d.subdirs[k - 1]) {
          var j :| 0 <= j < |Leaves(d.subdirs[k - 1])| && Leaves(d.subdirs[k - 1])[j] == q[1..];
          assert below[j] == q;
        }
      }
    }
  }

  /** `find_deepest_directories` finds exactly the directories that have no
      subdirectory: the base itself when it has none. */
  lemma {:induction false} LeavesAreTheLeafDirectories(d: Dir, p: IndexPath)
    ensures p in Leaves(d) <==> IsLeaf(d, p)
    decreases |p|
  {
    if d.subdirs != [] {
      ChildLeavesMembers(d, |d.subdirs|);
      if p != [] && p[0] < |d.subdirs| {
        LeavesAreTheLeafDirectories(d.subdirs[p[0]], p[1..]);
      }
    }
  }

  /** The search finds each leaf once. */
  lemma {:induction false} LeavesDistinct(d: Dir)
    ensures Distinct(Leaves(d))
    decreases d, |d.subdirs| + 1
  {
    if d.subdirs != [] {
      ChildLeavesDistinct(d, |d.subdirs|);
    }
  }

  lemma {:induction false} ChildLeavesDistinct(d: Dir, k: nat)
    requires k <= |d.subdirs|
    ensures Distinct(ChildLeaves(d, k))
    decreases d, k
  {
    if k > 0 {
      ChildLeavesDistinct(d, k - 1);
      LeavesDistinct(d.subdirs[k - 1]);
      ChildLeavesMembers(d, k - 1);
      var front: seq<IndexPath> := ChildLeaves(d, k - 1);
      var below: seq<IndexPath> := Below(k - 1, Leaves(d.subdirs[k - 1]));
      forall i, j | 0 <= i < j < |front + below|
        ensures (front + below)[i] != (front + below)[j]
      {
        if j >= |front| {
          if i >= |front| {
            assert below[i - |front|][1..] == Leaves(d.subdirs[k - 1])[i - |front|];
            assert below[j - |front|][1..] == Leaves(d.subdirs[k - 1])[j - |front|];
          } else {
            assert front[i] in front;
            assert front[i][0] < k - 1;
          }
        }
      }
    }
  }

  lemma UnderAppend(path: IndexPath, a: seq<IndexPath>, b: seq<IndexPath>)
    ensures Under(path, a + b) == Under(path, a) + Under(path, b)
  {
  }

  lemma UnderBelow(path: IndexPath, i: nat, ps: seq<IndexPath>)
    ensures Under(path, Below(i, ps)) == Under(path + [i], ps)
  {
    forall j | 0 <= j < |ps|
      ensures path + ([i] + ps[j]) == (path + [i]) + ps[j]
    {
    }
  }

  lemma UnderRoot(ps: seq<IndexPath>)
    ensures Under([], ps) == ps
  {
    forall j | 0 <= j < |ps|
      ensures [] + ps[j] == ps[j]
    {
    }
  }

  /** `_explore_directory`: the leaves below `d` are appended to `acc`. */
  method Explore(d: Dir, path: IndexPath, acc: seq<IndexPath>) returns (r: seq<IndexPath>)
    ensures r == acc + Under(path, Leaves(d))
    decreases d
  {
    if d.subdirs == [] {
      r := acc + [path];
      UnderLeaf(d, path);
    } else {
      r := acc;
      for i := 0 to |d.subdirs|
        invariant r == acc + Under(path, ChildLeaves(d, i))
      {
        ExploreStep(d, path, acc, i);
        r := Explore(d.subdirs[i], path + [i], r);
      }
    }
  }

  lemma UnderLeaf(d: Dir, path: IndexPath)
    requires d.subdirs == []
    ensures Under(path, Leaves(d)) == [path]
  {
    assert path + [] == path;
  }

  /** Exploring subdirectory `i` extends the leaves found so far by its own. */
  lemma ExploreStep(d: Dir, path: IndexPath, acc: seq<IndexPath>, i: nat)
    requires i < |d.subdirs|
    ensures acc + Under(path, ChildLeaves(d, i)) + Under(path + [i], Leaves(d.subdirs[i])) ==
            acc + Under(path, ChildLeaves(d, i + 1))
    ensures i + 1 == |d.subdirs| ==> Leaves(d) == ChildLeaves(d, i + 1)
  {
    var sub := Leaves(d.subdirs[i]);
    UnderAppend(path, ChildLeaves(d, i), Below(i, sub));
    UnderBelow(path, i, sub);
  }

  /** `find_deepest_directories`. */
  method FindDeepestDirectories(base: Dir) returns (deepest: seq<IndexPath>)
    ensures deepest == Leaves(base)
  {
    deepest := Explore(base, [], []);
    UnderRoot(Leaves(base));
  }

  // ---------------------------------------------------------------- entries

  datatype ResultsEntry = ResultsEntry(uuid: string, status: string, sut: string, timestamp: string,
                                       workloads: string, variants: string, nIterations: int)

  /** Python's `x.get(key, default)`: None when `x` is not a dictionary, whose
      lack of a `get` method raises. */
  function DictGet(x: Value, key: string, default: Value): (r: Option<Value>)
    ensures r.Some? <==> x.Object?
    ensures x.Object? && Field(x, key).Some? ==> r == Field(x, key)
    ensures x.Object? && Field(x, key).None? ==> r == Some(default)
  {
    if !x.Object? then None else Some(Field(x, key).GetOr(default))
  }

  /** The `name` of one listed workload or variant; None when the item is not
      a dictionary or its name is not a string, either of which raises. */
  function ItemName(item: Value): (r: Option<string>)
    ensures r.Some? <==> item.Object? && (Field(item, "name").None? || Field(item, "name").value.Str?)
    ensures r.Some? && Field(item, "name").None? ==> r.value == ""
  {
    match DictGet(item, "name", Str(""))
    case None => None
    case Some(n) => if n.Str? then Some(n.s) else None
  }

  function ItemNames(items: seq<Value>): (r: Option<seq<string>>)
    ensures r.Some? <==> forall i :: 0 <= i < |items| ==> ItemName(items[i]).Some?
    ensures r.Some? ==> |r.value| == |items| &&
                        forall i :: 0 <= i < |items| ==> r.value[i] == ItemName(items[i]).value
  {
    if items == [] then Some([])
    else
      match (ItemNames(items[..|items| - 1]), ItemName(items[|items| - 1]))
      case (Some(front), Some(last)) => Some(front + [last])
      case _ => None
  }

  /** `",".join(x.get("name", "") for x in value)`: a list of dictionaries
      gives their names joined with ","; an empty string or dictionary
      iterates nothing and gives ""; anything else raises. */
  function NamesJoined(value: Value): (r: Option<string>)
    ensures value.List? ==> (r.Some? <==> ItemNames(value.items).Some?)
    ensures value.List? && r.Some? ==> r.value == Text.Join(ItemNames(value.items).value, ",")
    ensures value == Str("") || value == Object([]) ==> r == Some("")
    ensures value.Null? || value.Int? || value.Bool? ==> r.None?
  {
    match value
    case List(items) =>
      (match ItemNames(items) case Some(names) => Some(Text.Join(names, ",")) case None => None)
    case Str(s) => if s == [] then Some("") else None
    case Object(fields) => if fields == [] then Some("") else None
    case _ => None
  }

  /** A string field read with a default; None when it is not a string. */
  function StrField(x: Value, key: string, default: string): Option<string>
    requires x.Object?
  {
    var v := Field(x, key).GetOr(Str(default));
    if v.Str? then Some(v.s) else None
  }

  /** `extract_results_entry`: the entry described by `experiment.json` and
      `status.json` in `d`; None when either is missing, invalid or `null`, or
      when a field is of the wrong kind (a raised exception or a rejected
      model field). */
  function ExtractEntry(d: Dir): (r: Option<ResultsEntry>)
    ensures r.Some? ==> var exp := ReadJson(d, "experiment.json");
                        var st := ReadJson(d, "status.json");
                        exp.Some? && st.Some? && exp.value.Object? && st.value.Object?
    ensures ReadJson(d, "experiment.json").None? || ReadJson(d, "status.json").None? ==> r.None?
    ensures ReadJson(d, "experiment.json") == Some(Null) || ReadJson(d, "status.json") == Some(Null) ==> r.None?
  {
    var exp := ReadJson(d, "experiment.json");
    var st := ReadJson(d, "status.json");
    if exp.None? || st.None? || exp.value.Null? || st.value.Null? then None
    else if !exp.value.Object? || !st.value.Object? then None
    else
      var e := exp.value;
      var n := Field(e, "n_iterations").GetOr(Int(0));
      match (StrField(e, "id", ""), StrField(e, "sut", ""), StrField(e, "timestamp", ""),
             NamesJoined(Field(e, "workloads").GetOr(List([]))),
             NamesJoined(Field(e, "variants").GetOr(List([]))),
             StrField(st.value, "status", ""))
      case (Some(uuid), Some(sut), Some(timestamp), Some(workloads), Some(variants), Some(status)) =>
        if n.Int? then Some(ResultsEntry(uuid, status, sut, timestamp, workloads, variants, n.i)) else None
      case _ => None
  }

  /** Fields missing from both files take their defaults: uuid, sut,
      timestamp and status "", no workloads or variants, and 0 iterations. */
  lemma DefaultsWhenFieldsMissing(d: Dir)
    requires ReadJson(d, "experiment.json") == Some(Object([]))
    requires ReadJson(d, "status.json") == Some(Object([]))
    ensures ExtractEntry(d) == Some(ResultsEntry("", "", "", "", "", "", 0))
  {
  }

  /** The workloads and variants are their names joined with ","; an item
      without a name contributes "". */
  lemma WorkloadNamesJoined(d: Dir)
    requires ExtractEntry(d).Some?
    ensures var e := ReadJson(d, "experiment.json").value;
            var ws := Field(e, "workloads");
            ws.Some? && ws.value.List? ==>
              ItemNames(ws.value.items).Some? &&
              ExtractEntry(d).value.workloads == Text.Join(ItemNames(ws.value.items).value, ",")
  {
  }

  /** The entry the directory at `p` yields, if it exists and yields one. */
  function EntryAt(base: Dir, p: IndexPath): Option<ResultsEntry> {
    match At(base, p)
    case None => None
    case Some(d) => ExtractEntry(d)
  }

  /** What each leaf yields, in leaf order. */
  function Found(base: Dir, leaves: seq<IndexPath>): (r: seq<Option<ResultsEntry>>)
    ensures |r| == |leaves| && forall i :: 0 <= i < |leaves| ==> r[i] == EntryAt(base, leaves[i])
  {
    seq(|leaves|, i requires 0 <= i < |leaves| => EntryAt(base, leaves[i]))
  }

  /** The entries of the leaves, in leaf order, skipping the leaves that do not
      yield one. */
  function Collected(base: Dir, leaves: seq<IndexPath>): seq<ResultsEntry> {
    Seqs.Somes(Found(base, leaves))
  }

  /** Every collected entry comes from one of the leaves, and every leaf that
      yields an entry contributes it. */
  lemma CollectedMembers(base: Dir, leaves: seq<IndexPath>, e: ResultsEntry)
    ensures e in Collected(base, leaves) <==> exists i :: 0 <= i < |leaves| && EntryAt(base, leaves[i]) == Some(e)
  {
    Seqs.SomesMembers(Found(base, leaves), e);
  }

  /** One more leaf adds its entry, if it yields one. */
  lemma CollectedSnoc(base: Dir, leaves: seq<IndexPath>, i: nat)
    requires i < |leaves|
    ensures Collected(base, leaves[..i + 1]) ==
            Collected(base, leaves[..i]) + (if EntryAt(base, leaves[i]).Some? then [EntryAt(base, leaves[i]).value] else [])
  {
    var found := Found(base, leaves[..i + 1]);
    assert found[..i] == Found(base, leaves[..i]);
    assert found[i] == EntryAt(base, leaves[i]);
  }

  /** `list_all_results`: 404 when the results directory is missing;
      otherwise the entry of every deepest directory that yields one, in the
      order the search found them. */
  method ListAllResults(results: Option<Dir>) returns (r: Result<seq<ResultsEntry>, int>)
    ensures results.None? <==> r == Err(404)
    ensures results.Some? ==> r == Ok(Collected(results.value, Leaves(results.value)))
  {
    if results.None? {
      return Err(404);
    }
    var base := results.value;
    var deepest := FindDeepestDirectories(base);
    var processed: seq<ResultsEntry> := [];
    for i := 0 to |deepest|
      invariant processed == Collected(base, deepest[..i])
    {
      CollectedSnoc(base, deepest, i);
      var directory := At(base, deepest[i]);
      if directory.Some? {
        var entry := ExtractEntry(directory.value);
        if entry.Some? {
          processed := processed + [entry.value];
        }
      }
    }
    assert deepest[..|deepest|] == deepest;
    return Ok(processed);
  }

  /** The listing holds exactly the entries of the leaf directories. */
  lemma ListedEntries(base: Dir, e: ResultsEntry)
    ensures e in Collected(base, Leaves(base)) <==>
            exists p :: IsLeaf(base, p) && ExtractEntry(At(base, p).value) == Some(e)
  {
    var leaves := Leaves(base);
    CollectedMembers(base, leaves, e);
    if e in Collected(base, leaves) {
      var i :| 0 <= i < |leaves| && EntryAt(base, leaves[i]) == Some(e);
      LeavesAreTheLeafDirectories(base, leaves[i]);
    }
    if p :| IsLeaf(base, p) && ExtractEntry(At(base, p).value) == Some(e) {
      LeavesAreTheLeafDirectories(base, p);
      var i :| 0 <= i < |leaves| && leaves[i] == p;
      assert EntryAt(base, leaves[i]) == Some(e);
    }
  }
}
