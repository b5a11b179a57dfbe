/** The service's result endpoints.  A result is a branch directory at depth
    three of the results directory (timestamp / workload / branch); its id is
    the three stripped names joined with '_', and its iterations are its
    subdirectories. */
module ResultsService {
  import opened Wrappers
  import opened Directories
  import Text
  import Seqs

  datatype ResultEntry = ResultEntry(id: string, workload: string, branchName: string,
                                     timestamp: string, iterations: nat)

  /** `f"{timestamp}_{workload_name}_{branch_name_str}"`. */
  function ResultId(timestamp: string, workload: string, branch: string): string {
    timestamp + "_" + workload + "_" + branch
  }

  /** The entry of one branch directory. */
  function EntryOf(timestamp: string, workload: string, branch: Dir): (e: ResultEntry)
    ensures e.iterations == |branch.subdirs|
    ensures e.id == ResultId(timestamp, workload, Text.Strip(branch.name))
  {
    var name := Text.Strip(branch.name);
    ResultEntry(ResultId(timestamp, workload, name), workload, name, timestamp, |branch.subdirs|)
  }

  /** The entries of the branch directories of one workload. */
  function BranchEntries(timestamp: string, workload: string, branches: seq<Dir>): (r: seq<ResultEntry>)
    ensures |r| == |branches|
    ensures forall b :: 0 <= b < |branches| ==> r[b] == EntryOf(timestamp, workload, branches[b])
  {
    seq(|branches|, b requires 0 <= b < |branches| => EntryOf(timestamp, workload, branches[b]))
  }

  /** The entries below the workload directories of one timestamp. */
  function WorkloadEntries(timestamp: string, workloads: seq<Dir>): seq<ResultEntry>
    decreases |workloads|
  {
    if workloads == [] then []
    else
      var last := workloads[|workloads| - 1];
      WorkloadEntries(timestamp, workloads[..|workloads| - 1]) +
        BranchEntries(timestamp, Text.Strip(last.name), last.subdirs)
  }

  /** The entries below the timestamp directories, in `iterdir` order. */
  function Listing(timestamps: seq<Dir>): seq<ResultEntry>
    decreases |timestamps|
  {
    if timestamps == [] then []
    else
      var last := timestamps[|timestamps| - 1];
      Listing(timestamps[..|timestamps| - 1]) + WorkloadEntries(Text.Strip(last.name), last.subdirs)
  }

  lemma {:induction false} WorkloadEntriesAppend(timestamp: string, a: seq<Dir>, b: seq<Dir>)
    ensures WorkloadEntries(timestamp, a + b) == WorkloadEntries(timestamp, a) + WorkloadEntries(timestamp, b)
    decreases |b|
  {
    if b != [] {
      assert (a + b)[..|a + b| - 1] == a + b[..|b| - 1];
      assert (a + b)[|a + b| - 1] == b[|b| - 1];
      WorkloadEntriesAppend(timestamp, a, b[..|b| - 1]);
    } else {
      assert a + b == a;
    }
  }

  lemma {:induction false} ListingAppend(a: seq<Dir>, b: seq<Dir>)
    ensures Listing(a + b) == Listing(a) + Listing(b)
    decreases |b|
  {
    if b != [] {
      assert (a + b)[..|a + b| - 1] == a + b[..|b| - 1];
      ListingAppend(a, b[..|b| - 1]);
    } else {
      assert a + b == a;
    }
  }

  lemma WorkloadEntriesSingle(timestamp: string, d: Dir)
    ensures WorkloadEntries(timestamp, [d]) == BranchEntries(timestamp, Text.Strip(d.name), d.subdirs)
  {
    assert [d][..0] == [];
  }

  lemma ListingSingle(d: Dir)
    ensures Listing([d]) == WorkloadEntries(Text.Strip(d.name), d.subdirs)
  {
    assert [d][..0] == [];
  }

  /** No entry with this id. */
  predicate NoneWithId(es: seq<ResultEntry>, id: string) {
    forall i :: 0 <= i < |es| ==> es[i].id != id
  }

  /** The first entry with this id. */
  function Lookup(es: seq<ResultEntry>, id: string): (r: Option<ResultEntry>)
    ensures r.None? <==> NoneWithId(es, id)
    ensures r.Some? ==> r.value.id == id && r.value in es
  {
    if es == [] then None
    else if es[0].id == id then Some(es[0])
    else
      var rest := Lookup(es[1..], id);
      assert rest.Some? ==> rest.value in es;
      rest
  }

  lemma {:induction false} LookupAfter(front: seq<ResultEntry>, e: ResultEntry, back: seq<ResultEntry>, id: string)
    requires NoneWithId(front, id) && e.id == id
    ensures Lookup(front + [e] + back, id) == Some(e)
    decreases |front|
  {
    if front != [] {
      assert (front + [e] + back)[1..] == front[1..] + [e] + back;
      LookupAfter(front[1..], e, back, id);
    }
  }

  // ---------------------------------------------------------------- listing

  /** The entries found so far by the three nested loops. */
  function Visited(root: Dir, t: nat, w: nat, b: nat): seq<ResultEntry>
    requires t < |root.subdirs| && w < |root.subdirs[t].subdirs|
    requires b <= |root.subdirs[t].subdirs[w].subdirs|
  {
    var ts := root.subdirs[t];
    var timestamp := Text.Strip(ts.name);
    var wl := ts.subdirs[w];
    Listing(root.subdirs[..t]) + WorkloadEntries(timestamp, ts.subdirs[..w]) +
      BranchEntries(timestamp, Text.Strip(wl.name), wl.subdirs)[..b]
  }

  /** The listing splits around any one timestamp directory. */
  lemma ListingSplit(ds: seq<Dir>, t: nat)
    requires t < |ds|
    ensures Listing(ds) == Listing(ds[..t]) + WorkloadEntries(Text.Strip(ds[t].name), ds[t].subdirs) +
                           Listing(ds[t + 1..])
  {
    Seqs.AroundIndex(ds, t);
    ListingAppend(ds[..t] + [ds[t]], ds[t + 1..]);
    ListingAppend(ds[..t], [ds[t]]);
    ListingSingle(ds[t]);
  }

  /** The entries of a timestamp split around any one workload directory. */
  lemma WorkloadSplit(timestamp: string, ws: seq<Dir>, w: nat)
    requires w < |ws|
    ensures WorkloadEntries(timestamp, ws) ==
              WorkloadEntries(timestamp, ws[..w]) + BranchEntries(timestamp, Text.Strip(ws[w].name), ws[w].subdirs) +
              WorkloadEntries(timestamp, ws[w + 1..])
  {
    Seqs.AroundIndex(ws, w);
    WorkloadEntriesAppend(timestamp, ws[..w] + [ws[w]], ws[w + 1..]);
    WorkloadEntriesAppend(timestamp, ws[..w], [ws[w]]);
    WorkloadEntriesSingle(timestamp, ws[w]);
  }

  /** The listing splits at every branch directory: what the loops visited
      before it, its own entry, and the rest. */
  lemma ListingAt(root: Dir, t: nat, w: nat, b: nat)
    requires t < |root.subdirs| && w < |root.subdirs[t].subdirs|
    requires b < |root.subdirs[t].subdirs[w].subdirs|
    ensures var ts := root.subdirs[t];
            var wl := ts.subdirs[w];
            var e := EntryOf(Text.Strip(ts.name), Text.Strip(wl.name), wl.subdirs[b]);
            exists back :: Listing(root.subdirs) == Visited(root, t, w, b) + [e] + back
  {
    var ts := root.subdirs[t];
    var timestamp := Text.Strip(ts.name);
    var wl := ts.subdirs[w];
    var branches := BranchEntries(timestamp, Text.Strip(wl.name), wl.subdirs);
    var e := branches[b];
    ListingSplit(root.subdirs, t);
    WorkloadSplit(timestamp, ts.subdirs, w);
    Seqs.AroundIndex(branches, b);
    var back := branches[b + 1..] + WorkloadEntries(timestamp, ts.subdirs[w + 1..]) + Listing(root.subdirs[t + 1..]);
    Seqs.RegroupAround(Listing(root.subdirs[..t]), WorkloadEntries(timestamp, ts.subdirs[..w]), branches[..b], e,
                       branches[b + 1..], WorkloadEntries(timestamp, ts.subdirs[w + 1..]), Listing(root.subdirs[t + 1..]));
    assert Listing(root.subdirs) == Visited(root, t, w, b) + [e] + back;
  }

  /** The loops' state after the last branch of a workload equals the state
      before the next workload. */
  lemma NextWorkload(root: Dir, t: nat, w: nat)
    requires t < |root.subdirs| && w < |root.subdirs[t].subdirs|
    ensures var ts := root.subdirs[t];
            Visited(root, t, w, |ts.subdirs[w].subdirs|) ==
              Listing(root.subdirs[..t]) + WorkloadEntries(Text.Strip(ts.name), ts.subdirs[..w + 1])
  {
    var ts := root.subdirs[t];
    var wl := ts.subdirs[w];
    Seqs.PrefixExtends(ts.subdirs, w);
    WorkloadEntriesAppend(Text.Strip(ts.name), ts.subdirs[..w], [wl]);
    WorkloadEntriesSingle(Text.Strip(ts.name), wl);
  }

  lemma NextTimestamp(root: Dir, t: nat)
    requires t < |root.subdirs|
    ensures var ts := root.subdirs[t];
            Listing(root.subdirs[..t]) + WorkloadEntries(Text.Strip(ts.name), ts.subdirs) ==
              Listing(root.subdirs[..t + 1])
  {
    var ts := root.subdirs[t];
    Seqs.PrefixExtends(root.subdirs, t);
    ListingAppend(root.subdirs[..t], [ts]);
    ListingSingle(ts);
  }

  /** Counts the subdirectories of a branch directory, skipping its files. */
  method CountIterations(branch: Dir) returns (n: nat)
    ensures n == |branch.subdirs|
  {
    n := 0;
    for i := 0 to |branch.subdirs|
      invariant n == i
    {
      n := n + 1;
    }
  }

  /** `list_all_results`: 404 without a results directory; otherwise one entry
      per branch directory, timestamp by timestamp and workload by workload. */
  method ListAllResults(results: Option<Dir>) returns (r: Result<seq<ResultEntry>, int>)
    ensures results.None? <==> r == Err(404)
    ensures results.Some? ==> r == Ok(Listing(results.value.subdirs))
  {
    if results.None? {
      return Err(404);
    }
    var root := results.value;
    var processed: seq<ResultEntry> := [];
    for t := 0 to |root.subdirs|
      invariant processed == Listing(root.subdirs[..t])
    {
      var ts := root.subdirs[t];
      var timestamp := Text.Strip(ts.name);
      for w := 0 to |ts.subdirs|
        invariant processed == Listing(root.subdirs[..t]) + WorkloadEntries(timestamp, ts.subdirs[..w])
      {
        var wl := ts.subdirs[w];
        var workload := Text.Strip(wl.name);
        for b := 0 to |wl.subdirs|
          invariant processed == Visited(root, t, w, b)
        {
          var branchName := Text.Strip(wl.subdirs[b].name);
          var iterations := CountIterations(wl.subdirs[b]);
          var entry := ResultEntry(timestamp + "_" + workload + "_" + branchName, workload, branchName,
                                   timestamp, iterations);
          assert BranchEntries(timestamp, workload, wl.subdirs)[..b + 1] ==
                 BranchEntries(timestamp, workload, wl.subdirs)[..b] + [entry];
          processed := processed + [entry];
        }
        NextWorkload(root, t, w);
      }
      Seqs.WholePrefix(ts.subdirs);
      NextTimestamp(root, t);
    }
    Seqs.WholePrefix(root.subdirs);
    return Ok(processed);
  }

  // ---------------------------------------------------------------- lookup

  /** The id check shared by `get_single_result` and the assets endpoint:
      fewer than four '_'-separated parts is a bad request. */
  predicate WellFormedId(id: string) {
    |Text.Split(id, "_")| >= 4
  }

  /** `get_single_result`: 404 without a results directory, 400 for a
      malformed id, then the first listed entry with that id, or 404. */
  function GetSingleResult(results: Option<Dir>, id: string): (r: Result<ResultEntry, int>)
    ensures r.Ok? ==> results.Some? && WellFormedId(id) && r.value.id == id &&
                      r.value in Listing(results.value.subdirs)
    ensures r == Err(400) <==> results.Some? && !WellFormedId(id)
    ensures results.Some? && WellFormedId(id) ==>
              (r == Err(404) <==> NoneWithId(Listing(results.value.subdirs), id))
  {
    if results.None? then Err(404)
    else if !WellFormedId(id) then Err(400)
    else
      match Lookup(Listing(results.value.subdirs), id)
      case Some(e) => Ok(e)
      case None => Err(404)
  }

  /** The lookup's nested loops, returning at the first branch directory
      whose id matches. */
  method FindResult(results: Option<Dir>, id: string) returns (r: Result<ResultEntry, int>)
    ensures r == GetSingleResult(results, id)
  {
    if results.None? {
      return Err(404);
    }
    if |Text.Split(id, "_")| < 4 {
      return Err(400);
    }
    var root := results.value;
    for t := 0 to |root.subdirs|
      invariant NoneWithId(Listing(root.subdirs[..t]), id)
    {
      var ts := root.subdirs[t];
      var timestamp := Text.Strip(ts.name);
      for w := 0 to |ts.subdirs|
        invariant NoneWithId(Listing(root.subdirs[..t]) + WorkloadEntries(timestamp, ts.subdirs[..w]), id)
      {
        assert Visited(root, t, w, 0) == Listing(root.subdirs[..t]) + WorkloadEntries(timestamp, ts.subdirs[..w]);
        var found := ScanWorkload(root, id, t, w);
        if found.Some? {
          var b := found.value;
          var wl := ts.subdirs[w];
          var entry := EntryOf(timestamp, Text.Strip(wl.name), wl.subdirs[b]);
          var iterations := CountIterations(wl.subdirs[b]);
          ListingAt(root, t, w, b);
          var back :| Listing(root.subdirs) == Visited(root, t, w, b) + [entry] + back;
          LookupAfter(Visited(root, t, w, b), entry, back, id);
          return Ok(ResultEntry(id, Text.Strip(wl.name), Text.Strip(wl.subdirs[b].name), timestamp, iterations));
        }
        NextWorkload(root, t, w);
      }
      Seqs.WholePrefix(ts.subdirs);
      NextTimestamp(root, t);
    }
    Seqs.WholePrefix(root.subdirs);
    return Err(404);
  }

  /** A timestamp as the runner writes it (`%Y-%m-%d_%H-%M-%S`): a date and a
      time without '_', joined by one '_'. */
  ghost predicate RunnerTimestamp(timestamp: string) {
    exists date, time :: '_' !in date && '_' !in time && timestamp == date + "_" + time
  }

  /** Every result listed under such a timestamp has an id that passes the
      four-part check, however its workload and branch are named. */
  lemma ListedIdsAreWellFormed(date: string, time: string, workload: string, branch: string)
    requires '_' !in date && '_' !in time
    ensures WellFormedId(ResultId(date + "_" + time, workload, branch))
  {
    var rest := workload + "_" + branch;
    assert ResultId(date + "_" + time, workload, branch) == date + "_" + (time + "_" + rest);
    Text.SplitAtFirstSeparator(date, '_', time + "_" + rest);
    Text.SplitAtFirstSeparator(time, '_', rest);
    assert rest[|workload|] == '_';
    SplitPartsAtLeastTwo(rest);
  }

  /** A string holding a '_' splits into at least two parts. */
  lemma {:induction false} SplitPartsAtLeastTwo(s: string)
    requires '_' in s
    ensures |Text.Split(s, "_")| >= 2
    decreases |s|
  {
    if s[0] != '_' {
      assert s[..1] != "_";
      assert '_' in s[1..] by {
        var i :| 0 <= i < |s| && s[i] == '_';
        assert s[1..][i - 1] == '_';
      }
      SplitPartsAtLeastTwo(s[1..]);
    } else {
      assert s[..1] == "_";
    }
  }

  /** An id whose three names contain no '_' fails the four-part check. */
  lemma PlainIdsAreRejected(timestamp: string, workload: string, branch: string)
    requires '_' !in timestamp && '_' !in workload && '_' !in branch
    ensures !WellFormedId(ResultId(timestamp, workload, branch))
  {
    Text.SplitJoin([timestamp, workload, branch], '_');
    assert Text.Join([timestamp, workload, branch], "_") == ResultId(timestamp, workload, branch) by {
      assert Text.Join([branch], "_") == branch;
      assert [timestamp, workload, branch][1..] == [workload, branch];
      assert [workload, branch][1..] == [branch];
    }
  }

  // ---------------------------------------------------------------- download

  /** `download_results`' folder: the first two '_' parts of the id; an id
      without a '_' raises (500). */
  function DownloadFolder(id: string): (r: Result<string, int>)
    ensures r.Err? <==> |Text.Split(id, "_")| < 2
    ensures r.Ok? ==> r.value == Text.Split(id, "_")[0] + "_" + Text.Split(id, "_")[1]
  {
    var parts := Text.Split(id, "_");
    if |parts| < 2 then Err(500) else Ok(parts[0] + "_" + parts[1])
  }

  /** For a result under a runner timestamp, the download folder is that
      timestamp. */
  lemma DownloadFolderIsTimestamp(date: string, time: string, workload: string, branch: string)
    requires '_' !in date && '_' !in time
    ensures DownloadFolder(ResultId(date + "_" + time, workload, branch)) == Ok(date + "_" + time)
  {
    var rest := workload + "_" + branch;
    assert ResultId(date + "_" + time, workload, branch) == date + "_" + (time + "_" + rest);
    Text.SplitAtFirstSeparator(date, '_', time + "_" + rest);
    Text.SplitAtFirstSeparator(time, '_', rest);
  }

  // ---------------------------------------------------------------- delete

  /** A workload directory after `rmtree` of its branch directory `b`. */
  function WithoutBranch(wl: Dir, b: nat): Dir
    requires b < |wl.subdirs|
  {
    wl.(subdirs := Seqs.RemoveAt(wl.subdirs, b))
  }

  /** A parent directory after its child `i` became `child`: the child is
      removed (`rmdir`) when it is empty, and kept otherwise. */
  function Pruned(parent: Dir, i: nat, child: Dir): Dir
    requires i < |parent.subdirs|
  {
    if IsEmpty(child) then parent.(subdirs := Seqs.RemoveAt(parent.subdirs, i))
    else parent.(subdirs := Seqs.ReplaceAt(parent.subdirs, i, child))
  }

  /** The results directory after `rmtree` of branch `b` of workload `w` of
      timestamp `t`: the workload directory goes when it is then empty, and
      only then is the timestamp directory checked and removed when empty. */
  function Deleted(root: Dir, t: nat, w: nat, b: nat): Dir
    requires t < |root.subdirs| && w < |root.subdirs[t].subdirs|
    requires b < |root.subdirs[t].subdirs[w].subdirs|
  {
    var ts := root.subdirs[t];
    var wl' := WithoutBranch(ts.subdirs[w], b);
    var ts' := Pruned(ts, w, wl');
    if IsEmpty(wl') then Pruned(root, t, ts')
    else root.(subdirs := Seqs.ReplaceAt(root.subdirs, t, ts'))
  }

  /** Branch `b` of workload `w` of timestamp `t` is the first branch
      directory, in scan order, whose id is `id`. */
  predicate FirstMatch(root: Dir, id: string, t: nat, w: nat, b: nat) {
    t < |root.subdirs| && w < |root.subdirs[t].subdirs| && b < |root.subdirs[t].subdirs[w].subdirs| &&
    var ts := root.subdirs[t];
    var wl := ts.subdirs[w];
    EntryOf(Text.Strip(ts.name), Text.Strip(wl.name), wl.subdirs[b]).id == id &&
    NoneWithId(Visited(root, t, w, b), id)
  }

  /** A parent goes exactly when the removal empties it: the workload
      directory when branch `b` was all it held, and the timestamp directory
      only when, besides, that workload was all it held.  Everything else
      stays in place. */
  lemma DeletedPrunesEmptiedParents(root: Dir, t: nat, w: nat, b: nat)
    requires t < |root.subdirs| && w < |root.subdirs[t].subdirs|
    requires b < |root.subdirs[t].subdirs[w].subdirs|
    ensures var ts := root.subdirs[t];
            var wl := ts.subdirs[w];
            var workloadGoes := |wl.subdirs| == 1 && wl.files == [];
            var timestampGoes := workloadGoes && |ts.subdirs| == 1 && ts.files == [];
            var r := Deleted(root, t, w, b);
            r.name == root.name && r.files == root.files &&
            (timestampGoes ==> r.subdirs == Seqs.RemoveAt(root.subdirs, t)) &&
            (!timestampGoes ==>
               r.subdirs == Seqs.ReplaceAt(root.subdirs, t, ts.(subdirs :=
                 if workloadGoes then Seqs.RemoveAt(ts.subdirs, w)
                 else Seqs.ReplaceAt(ts.subdirs, w, wl.(subdirs := Seqs.RemoveAt(wl.subdirs, b))))))
  {
  }

  /** What is left of a workload lists its branches without `b`. */
  lemma WithoutBranchEntries(timestamp: string, workload: string, wl: Dir, b: nat)
    requires b < |wl.subdirs|
    ensures var branches := BranchEntries(timestamp, workload, wl.subdirs);
            BranchEntries(timestamp, workload, WithoutBranch(wl, b).subdirs) == branches[..b] + branches[b + 1..]
  {
  }

  /** Pruning a workload keeps the timestamp's other entries in place. */
  lemma PrunedWorkloadEntries(timestamp: string, ts: Dir, w: nat, child: Dir)
    requires w < |ts.subdirs| && child.name == ts.subdirs[w].name
    ensures WorkloadEntries(timestamp, Pruned(ts, w, child).subdirs) ==
              WorkloadEntries(timestamp, ts.subdirs[..w]) +
              BranchEntries(timestamp, Text.Strip(child.name), child.subdirs) +
              WorkloadEntries(timestamp, ts.subdirs[w + 1..])
  {
    var ws := ts.subdirs;
    if IsEmpty(child) {
      WorkloadEntriesAppend(timestamp, ws[..w], ws[w + 1..]);
    } else {
      WorkloadEntriesAppend(timestamp, ws[..w] + [child], ws[w + 1..]);
      WorkloadEntriesAppend(timestamp, ws[..w], [child]);
      WorkloadEntriesSingle(timestamp, child);
    }
  }

  /** Replacing or pruning a timestamp keeps the other entries in place. */
  lemma PrunedListing(root: Dir, t: nat, child: Dir, prune: bool)
    requires t < |root.subdirs| && child.name == root.subdirs[t].name
    ensures var r := if prune then Pruned(root, t, child)
                     else root.(subdirs := Seqs.ReplaceAt(root.subdirs, t, child));
            Listing(r.subdirs) ==
              Listing(root.subdirs[..t]) + WorkloadEntries(Text.Strip(child.name), child.subdirs) +
              Listing(root.subdirs[t + 1..])
  {
    var ds := root.subdirs;
    if prune && IsEmpty(child) {
      ListingAppend(ds[..t], ds[t + 1..]);
    } else {
      ListingAppend(ds[..t] + [child], ds[t + 1..]);
      ListingAppend(ds[..t], [child]);
      ListingSingle(child);
    }
  }

  /** Deleting a branch directory removes exactly its entry from the listing:
      the directories removed with it were empty and listed nothing. */
  lemma DeletedListing(root: Dir, t: nat, w: nat, b: nat)
    requires t < |root.subdirs| && w < |root.subdirs[t].subdirs|
    requires b < |root.subdirs[t].subdirs[w].subdirs|
    ensures var k := |Visited(root, t, w, b)|;
            k < |Listing(root.subdirs)| &&
            Listing(Deleted(root, t, w, b).subdirs) == Listing(root.subdirs)[..k] + Listing(root.subdirs)[k + 1..]
  {
    var ts := root.subdirs[t];
    var timestamp := Text.Strip(ts.name);
    var wl := ts.subdirs[w];
    var workload := Text.Strip(wl.name);
    var branches := BranchEntries(timestamp, workload, wl.subdirs);
    var e := branches[b];
    var A, B := Listing(root.subdirs[..t]), WorkloadEntries(timestamp, ts.subdirs[..w]);
    var P, Q := branches[..b], branches[b + 1..];
    var C, D := WorkloadEntries(timestamp, ts.subdirs[w + 1..]), Listing(root.subdirs[t + 1..]);
    ListingSplit(root.subdirs, t);
    WorkloadSplit(timestamp, ts.subdirs, w);
    Seqs.AroundIndex(branches, b);
    Seqs.RegroupAround(A, B, P, e, Q, C, D);
    Seqs.SliceAround(A + B + P, e, Q + C + D);
    assert Visited(root, t, w, b) == A + B + P;
    var wl' := WithoutBranch(wl, b);
    WithoutBranchEntries(timestamp, workload, wl, b);
    var ts' := Pruned(ts, w, wl');
    PrunedWorkloadEntries(timestamp, ts, w, wl');
    assert WorkloadEntries(timestamp, ts'.subdirs) == B + (P + Q) + C;
    PrunedListing(root, t, ts', IsEmpty(wl'));
    assert Listing(Deleted(root, t, w, b).subdirs) == A + (B + (P + Q) + C) + D;
    Seqs.RegroupWithout(A, B, P, Q, C, D);
  }

  /** Removing the first match takes exactly its entry out of the listing,
      and it is the first entry with that id. */
  lemma FirstMatchDeleted(root: Dir, id: string, t: nat, w: nat, b: nat)
    requires FirstMatch(root, id, t, w, b)
    ensures var before := Listing(root.subdirs);
            exists k :: 0 <= k < |before| && before[k].id == id && NoneWithId(before[..k], id) &&
                        Listing(Deleted(root, t, w, b).subdirs) == before[..k] + before[k + 1..]
  {
    var ts := root.subdirs[t];
    var wl := ts.subdirs[w];
    var entry := EntryOf(Text.Strip(ts.name), Text.Strip(wl.name), wl.subdirs[b]);
    ListingAt(root, t, w, b);
    DeletedListing(root, t, w, b);
    var k := |Visited(root, t, w, b)|;
    var back :| Listing(root.subdirs) == Visited(root, t, w, b) + [entry] + back;
    assert Listing(root.subdirs)[..k] == Visited(root, t, w, b);
    assert Listing(root.subdirs)[k] == entry;
  }

  /** The innermost loop of `get_single_result` and `delete_result`, over
      the branch directories of workload `w` of timestamp `t`: the first
      whose id matches, when the entries before the workload have none. */
  method ScanWorkload(root: Dir, id: string, t: nat, w: nat) returns (found: Option<nat>)
    requires t < |root.subdirs| && w < |root.subdirs[t].subdirs|
    requires NoneWithId(Visited(root, t, w, 0), id)
    ensures found.Some? ==> FirstMatch(root, id, t, w, found.value)
    ensures found.None? ==> NoneWithId(Visited(root, t, w, |root.subdirs[t].subdirs[w].subdirs|), id)
  {
    var ts := root.subdirs[t];
    var timestamp := Text.Strip(ts.name);
    var wl := ts.subdirs[w];
    var workload := Text.Strip(wl.name);
    for b := 0 to |wl.subdirs|
      invariant NoneWithId(Visited(root, t, w, b), id)
    {
      var branchName := Text.Strip(wl.subdirs[b].name);
      var entry := EntryOf(timestamp, workload, wl.subdirs[b]);
      if timestamp + "_" + workload + "_" + branchName == id {
        return Some(b);
      }
      assert BranchEntries(timestamp, workload, wl.subdirs)[..b + 1] ==
             BranchEntries(timestamp, workload, wl.subdirs)[..b] + [entry];
      assert Visited(root, t, w, b + 1) == Visited(root, t, w, b) + [entry];
    }
    return None;
  }

  /** `delete_result`: 404 without a results directory or without a match;
      otherwise the first matching branch directory is removed with the
      empty parents it leaves. */
  method DeleteResult(results: Option<Dir>, id: string) returns (r: Result<Dir, int>)
    ensures results.None? ==> r == Err(404)
    ensures results.Some? ==> (r.Err? <==> NoneWithId(Listing(results.value.subdirs), id))
    ensures r.Ok? ==> (results.Some? &&
              var before := Listing(results.value.subdirs);
              exists k :: 0 <= k < |before| && before[k].id == id && NoneWithId(before[..k], id) &&
                          Listing(r.value.subdirs) == before[..k] + before[k + 1..])
    ensures r.Ok? ==> (results.Some? &&
              exists t, w, b :: FirstMatch(results.value, id, t, w, b) && r.value == Deleted(results.value, t, w, b))
  {
    if results.None? {
      return Err(404);
    }
    var root := results.value;
    for t := 0 to |root.subdirs|
      invariant NoneWithId(Listing(root.subdirs[..t]), id)
    {
      var ts := root.subdirs[t];
      var timestamp := Text.Strip(ts.name);
      for w := 0 to |ts.subdirs|
        invariant NoneWithId(Listing(root.subdirs[..t]) + WorkloadEntries(timestamp, ts.subdirs[..w]), id)
      {
        assert Visited(root, t, w, 0) == Listing(root.subdirs[..t]) + WorkloadEntries(timestamp, ts.subdirs[..w]);
        var found := ScanWorkload(root, id, t, w);
        if found.Some? {
          FirstMatchDeleted(root, id, t, w, found.value);
          return Ok(Deleted(root, t, w, found.value));
        }
        NextWorkload(root, t, w);
      }
      Seqs.WholePrefix(ts.subdirs);
      NextTimestamp(root, t);
    }
    Seqs.WholePrefix(root.subdirs);
    return Err(404);
  }
}
