/** The kubeconfig rewrite shared by the service's cluster router and the two
    container start-up scripts: a cluster whose server address points at the
    local machine is redirected to the kind control-plane container and its
    certificate checks are switched off.  A kubeconfig is modelled by its
    list of clusters (each entry's name and its `cluster` mapping) and the
    rest of its top-level mapping, which no operation touches. */
module Kubeconfig {
  import opened Wrappers
  import opened Json
  import opened PyDict
  import Text
  import Seqs

  const Loopback: string := "127.0.0.1"
  const Localhost: string := "localhost"
  const ControlPlane: string := "clue-cluster-control-plane"

  datatype ClusterEntry = ClusterEntry(name: Value, cluster: Dict<Value>)

  /** `clusters` is None when the key is absent. */
  datatype Config = Config(clusters: Option<seq<ClusterEntry>>, rest: Dict<Value>)

  /** `cluster.get("server", "")`, as far as the two `in` tests see it: a
      list or a mapping that holds neither local name answers both tests
      false, as "" does.  The servers for which the tests raise are
      `ServerRaises`. */
  function Server(cluster: Dict<Value>): string {
    match Get<Value>(cluster, "server")
    case Some(Str(s)) => s
    case _ => ""
  }

  /** The loop body raises on this cluster: `"127.0.0.1" in server` is a
      TypeError for null, a boolean or a number, and a list or a mapping
      answers `in` by membership, so one holding either local name reaches
      `server.replace`, an AttributeError. */
  predicate ServerRaises(cluster: Dict<Value>) {
    match Get<Value>(cluster, "server")
    case None => false
    case Some(Str(_)) => false
    case Some(List(items)) => Str(Loopback) in items || Str(Localhost) in items
    case Some(Object(fields)) => HasKey(fields, Loopback) || HasKey(fields, Localhost)
    case Some(_) => true
  }

  /** Only a string server can be local; any other value that gets through
      the tests leaves the cluster as it is. */
  lemma OnlyTextServersRewritten(cluster: Dict<Value>)
    requires !ServerRaises(cluster)
    ensures IsLocal(Server(cluster)) ==> exists s :: Get(cluster, "server") == Some(Str(s)) && IsLocal(s)
    ensures (Get(cluster, "server").None? || !Get(cluster, "server").value.Str?) ==> PatchCluster(cluster) == cluster
  {
    EmptyHasNoName(Loopback);
    EmptyHasNoName(Localhost);
  }

  lemma EmptyHasNoName(q: string)
    requires q != []
    ensures !Text.Contains("", q)
  {
  }

  /** Some cluster of the list makes the loop raise. */
  predicate Raises(config: Config) {
    config.clusters.Some? && exists i :: 0 <= i < |config.clusters.value| && ServerRaises(config.clusters.value[i].cluster)
  }

  predicate IsLocal(server: string) {
    Text.Contains(server, Loopback) || Text.Contains(server, Localhost)
  }

  /** Both local spellings replaced by the control-plane host. */
  function RedirectedServer(server: string): string {
    Text.Replace(Text.Replace(server, Loopback, ControlPlane), Localhost, ControlPlane)
  }

  /** The rewrite of one `cluster` mapping. */
  function PatchCluster(cluster: Dict<Value>): (r: Dict<Value>)
    ensures !IsLocal(Server(cluster)) ==> r == cluster
  {
    var server := Server(cluster);
    if IsLocal(server) then
      var c1 := Set(cluster, "server", Str(RedirectedServer(server)));
      var c2 := Pop(c1, "certificate-authority");
      var c3 := Pop(c2, "certificate-authority-data");
      Set(c3, "insecure-skip-tls-verify", Bool(true))
    else cluster
  }

  /** A local cluster gets the redirected server, loses both certificate
      authority fields and skips TLS verification; every other field keeps
      its value. */
  lemma PatchClusterRewrites(cluster: Dict<Value>)
    requires IsLocal(Server(cluster))
    ensures var r := PatchCluster(cluster);
            Get(r, "server") == Some(Str(RedirectedServer(Server(cluster)))) &&
            Get(r, "certificate-authority") == None && Get(r, "certificate-authority-data") == None &&
            Get(r, "insecure-skip-tls-verify") == Some(Bool(true)) &&
            forall k :: k !in {"server", "certificate-authority", "certificate-authority-data", "insecure-skip-tls-verify"} ==>
              Get(r, k) == Get(cluster, k)
  {
  }

  function PatchEntry(e: ClusterEntry): ClusterEntry {
    e.(cluster := PatchCluster(e.cluster))
  }

  /** Every cluster of the list rewritten. */
  function PatchedClusters(clusters: seq<ClusterEntry>): (r: seq<ClusterEntry>)
    ensures |r| == |clusters|
    ensures forall i :: 0 <= i < |clusters| ==> r[i] == PatchEntry(clusters[i])
  {
    seq(|clusters|, i requires 0 <= i < |clusters| => PatchEntry(clusters[i]))
  }

  /** The whole configuration rewritten; a missing cluster list stays missing. */
  function Patched(config: Config): Config {
    match config.clusters
    case None => config
    case Some(cs) => config.(clusters := Some(PatchedClusters(cs)))
  }

  /** Some cluster of the configuration points at the local machine. */
  predicate HasLocalCluster(config: Config) {
    config.clusters.Some? && exists i :: 0 <= i < |config.clusters.value| && IsLocal(Server(config.clusters.value[i].cluster))
  }

  /** Some cluster of the list is local, scanning from the back. */
  predicate AnyLocal(clusters: seq<ClusterEntry>) {
    clusters != [] &&
    (AnyLocal(clusters[..|clusters| - 1]) || IsLocal(Server(clusters[|clusters| - 1].cluster)))
  }

  lemma AnyLocalFinds(clusters: seq<ClusterEntry>)
    ensures AnyLocal(clusters) <==> exists i :: 0 <= i < |clusters| && IsLocal(Server(clusters[i].cluster))
  {
    if AnyLocal(clusters) {
      var i := AnyLocalWitness(clusters);
    }
    if i :| 0 <= i < |clusters| && IsLocal(Server(clusters[i].cluster)) {
      LocalEntryFound(clusters, i);
    }
  }

  lemma {:induction false} AnyLocalWitness(clusters: seq<ClusterEntry>) returns (i: nat)
    requires AnyLocal(clusters)
    ensures i < |clusters| && IsLocal(Server(clusters[i].cluster))
  {
    var front := clusters[..|clusters| - 1];
    if AnyLocal(front) {
      i := AnyLocalWitness(front);
      assert front[i] == clusters[i];
    } else {
      i := |clusters| - 1;
    }
  }

  lemma {:induction false} LocalEntryFound(clusters: seq<ClusterEntry>, i: nat)
    requires i < |clusters| && IsLocal(Server(clusters[i].cluster))
    ensures AnyLocal(clusters)
  {
    var front := clusters[..|clusters| - 1];
    if i < |clusters| - 1 {
      assert front[i] == clusters[i];
      LocalEntryFound(front, i);
    }
  }

  /** The body of the loop: a local cluster is rewritten, any other entry is
      kept as it is. */
  method PatchOne(entry: ClusterEntry) returns (next: ClusterEntry, local: bool)
    ensures next == PatchEntry(entry)
    ensures local == IsLocal(Server(entry.cluster))
  {
    next := entry;
    local := IsLocal(Server(entry.cluster));
    if local {
      next := PatchEntry(entry);
    }
  }

  /** The loop over `config.get("clusters", [])`: each entry is rewritten in
      place, and `changed` records whether any was local.  `raised` is the
      exception of `ServerRaises`, which ends the loop; the callers let it
      propagate, so nothing of `patched` is then used. */
  method PatchConfig(config: Config) returns (patched: Config, changed: bool, raised: bool)
    ensures raised <==> Raises(config)
    ensures !raised ==> patched == Patched(config)
    ensures !raised ==> (changed <==> HasLocalCluster(config))
  {
    raised := false;
    if config.clusters.None? {
      return config, false, false;
    }
    var clusters := config.clusters.value;
    var done: seq<ClusterEntry> := [];
    changed := false;
    for i := 0 to |clusters|
      invariant |done| == i && forall j :: 0 <= j < i ==> done[j] == PatchEntry(clusters[j])
      invariant changed == AnyLocal(clusters[..i])
      invariant forall j :: 0 <= j < i ==> !ServerRaises(clusters[j].cluster)
    {
      if ServerRaises(clusters[i].cluster) {
        return config, changed, true;
      }
      AnyLocalSnoc(clusters, i);
      var entry, local := PatchOne(clusters[i]);
      changed := changed || local;
      PatchedSnoc(done, clusters, i, entry);
      done := done + [entry];
    }
    assert clusters[..|clusters|] == clusters;
    AnyLocalFinds(clusters);
    Seqs.Pointwise(done, PatchedClusters(clusters));
    patched := config.(clusters := Some(done));
  }

  /** Scanning one more entry. */
  lemma AnyLocalSnoc(clusters: seq<ClusterEntry>, i: nat)
    requires i < |clusters|
    ensures AnyLocal(clusters[..i + 1]) == (AnyLocal(clusters[..i]) || IsLocal(Server(clusters[i].cluster)))
  {
    assert clusters[..i + 1][..i] == clusters[..i];
  }

  /** One more entry rewritten after the first `i`. */
  lemma PatchedSnoc(done: seq<ClusterEntry>, clusters: seq<ClusterEntry>, i: nat, entry: ClusterEntry)
    requires i < |clusters| && |done| == i && entry == PatchEntry(clusters[i])
    requires forall j :: 0 <= j < i ==> done[j] == PatchEntry(clusters[j])
    ensures forall j :: 0 <= j < i + 1 ==> (done + [entry])[j] == PatchEntry(clusters[j])
  {
    forall j | 0 <= j < i + 1
      ensures (done + [entry])[j] == PatchEntry(clusters[j])
    {
      if j < i {
        assert (done + [entry])[j] == done[j];
      }
    }
  }

  /** Two strings differing at a position both reach are not overlapping. */
  lemma DifferAt(a: string, b: string, i: nat)
    requires i < |a| && i < |b| && a[i] != b[i]
    ensures !Text.Overlapping(a, b)
  {
  }

  /** Strings without a common character cannot overlap unless one is empty. */
  lemma DisjointNoBoundary(pat: string, rep: string)
    requires pat != [] && rep != [] && Avoids(pat, rep)
    ensures Text.NoBoundary(pat, rep)
  {
    forall k: nat | k < |pat| ensures !Text.Overlapping(pat[k..], rep) {
      DifferAt(pat[k..], rep, 0);
    }
    forall j: nat | 0 < j < |rep| ensures !Text.Overlapping(rep[j..], pat) {
      DifferAt(rep[j..], pat, 0);
    }
  }

  /** Redirecting `localhost` cannot create a new `localhost`. */
  lemma LocalhostNoBoundary()
    ensures Text.NoBoundary(Localhost, ControlPlane)
  {
    forall k: nat | k < |Localhost| ensures !Text.Overlapping(Localhost[k..], ControlPlane) {
      if k == 2 {
        DifferAt(Localhost[k..], ControlPlane, 1);
      } else {
        DifferAt(Localhost[k..], ControlPlane, 0);
      }
    }
    forall j: nat | 0 < j < |ControlPlane| ensures !Text.Overlapping(ControlPlane[j..], Localhost) {
      if ControlPlane[j] == 'l' {
        DifferAt(ControlPlane[j..], Localhost, 1);
      } else {
        DifferAt(ControlPlane[j..], Localhost, 0);
      }
    }
  }

  /** No character of `x` occurs in `y`. */
  predicate Avoids(x: string, y: string) {
    forall i, j :: 0 <= i < |x| && 0 <= j < |y| ==> x[i] != y[j]
  }

  /** A prefix of the output made of characters `rep` does not contain was
      copied from the input. */
  lemma {:induction false} CopiedPrefix(t: string, pat: string, rep: string, x: string)
    requires pat != [] && rep != []
    ensures Avoids(x, rep) && Text.StartsWith(Text.Replace(t, pat, rep), x) ==> Text.StartsWith(t, x)
    decreases |t|
  {
    var r := Text.Replace(t, pat, rep);
    if x == [] || |t| < |pat| {
    } else if t[..|pat|] == pat {
      Text.ReplaceAtMatch(t, pat, rep);
      if Text.StartsWith(r, x) {
        HeadOfPrefix(r, x);
        assert r[0] == rep[0];
      }
    } else {
      var r' := Text.Replace(t[1..], pat, rep);
      Text.ReplaceCopiesHead(t, pat, rep);
      CopiedPrefix(t[1..], pat, rep, x[1..]);
      if Avoids(x, rep) && Text.StartsWith(r, x) {
        AvoidsTail(x, rep);
        ConsPrefix(t[0], r', x);
        ConsPrefix(t[0], t[1..], x);
        assert [t[0]] + t[1..] == t;
      }
    }
  }

  lemma HeadOfPrefix(r: string, x: string)
    requires x != [] && Text.StartsWith(r, x)
    ensures r != [] && x[0] == r[0]
  {
    assert x[0] == r[..|x|][0];
  }

  lemma AvoidsTail(x: string, y: string)
    requires x != [] && Avoids(x, y)
    ensures Avoids(x[1..], y)
  {
    forall i, j | 0 <= i < |x| - 1 && 0 <= j < |y|
      ensures x[1..][i] != y[j]
    {
      assert x[1..][i] == x[i + 1];
    }
  }

  /** `x` starts `[c] + s` exactly when its head is `c` and its tail starts `s`. */
  lemma ConsPrefix(c: char, s: string, x: string)
    requires x != []
    ensures Text.StartsWith([c] + s, x) <==> x[0] == c && Text.StartsWith(s, x[1..])
  {
    var w := [c] + s;
    if |x| <= |w| {
      assert w[..|x|] == [c] + s[..|x| - 1];
      assert x == [x[0]] + x[1..];
    }
  }

  /** An occurrence in a suffix is an occurrence in the whole. */
  lemma OccursInSuffix(t: string, q: string, k: nat, j: nat)
    requires k <= |t|
    ensures Text.OccursAt(t[k..], q, j) ==> Text.OccursAt(t, q, k + j)
  {
    if Text.OccursAt(t[k..], q, j) {
      assert t[k + j..k + j + |q|] == t[k..][j..j + |q|];
    }
  }

  /** A string without `q` has no `q` in any suffix. */
  lemma SuffixLacks(t: string, q: string, k: nat)
    requires k <= |t| && !Text.Contains(t, q)
    ensures !Text.Contains(t[k..], q)
  {
    forall j: nat | j <= |t[k..]| ensures !Text.OccursAt(t[k..], q, j) {
      OccursInSuffix(t, q, k, j);
    }
  }

  /** An occurrence of `q` at `j` starts with `q`'s first character. */
  lemma OccurrenceStarts(s: string, q: string, j: nat)
    requires q != [] && j < |s|
    ensures Text.OccursAt(s, q, j) ==> s[j] == q[0]
  {
    if Text.OccursAt(s, q, j) {
      assert s[j..j + |q|][0] == s[j];
    }
  }

  /** A match at the start of `[c] + s`. */
  lemma OccursAtHead(c: char, s: string, q: string)
    requires q != []
    ensures Text.OccursAt([c] + s, q, 0) <==> c == q[0] && Text.StartsWith(s, q[1..])
  {
    Text.MatchAtHead(c, s, q);
    if c == q[0] && Text.StartsWith(s, q[1..]) {
      assert ([c] + s)[..|q|] == [c] + s[..|q| - 1];
      assert q == [q[0]] + q[1..];
    }
  }

  /** No match can start inside a replacement that avoids `q`'s characters. */
  lemma NoMatchFromReplacement(rep: string, r': string, q: string)
    requires q != [] && Avoids(q, rep) && !Text.Contains(r', q)
    ensures !Text.Contains(rep + r', q)
  {
    var r := rep + r';
    forall j: nat | j < |rep| ensures !Text.OccursAt(r, q, j) {
      OccurrenceStarts(r, q, j);
      assert r[j] == rep[j];
    }
    assert r[|rep|..] == r';
    forall j: nat | |rep| <= j <= |r| ensures !Text.OccursAt(r, q, j) {
      OccursInSuffix(r, q, |rep|, j - |rep|);
    }
  }

  /** A copied first character starts a match only if it did in the input. */
  lemma NoMatchFromCopied(c: char, rest: string, r': string, q: string)
    requires q != [] && !Text.Contains([c] + rest, q) && !Text.Contains(r', q)
    requires Text.StartsWith(r', q[1..]) ==> Text.StartsWith(rest, q[1..])
    ensures !Text.Contains([c] + r', q)
  {
    var r := [c] + r';
    forall j: nat | j <= |r| ensures !Text.OccursAt(r, q, j) {
      if j == 0 {
        OccursAtHead(c, r', q);
        OccursAtHead(c, rest, q);
      } else {
        Text.MatchAfterHead(c, r', q, j);
      }
    }
  }

  /** Replacing with a string none of whose characters occur in `q` does not
      create an occurrence of `q`. */
  lemma {:induction false} ReplaceKeepsAbsent(t: string, pat: string, rep: string, q: string)
    requires pat != [] && rep != [] && q != []
    requires Avoids(q, rep)
    requires !Text.Contains(t, q)
    ensures !Text.Contains(Text.Replace(t, pat, rep), q)
    decreases |t|
  {
    if |t| < |pat| {
    } else if t[..|pat|] == pat {
      SuffixLacks(t, q, |pat|);
      ReplaceKeepsAbsent(t[|pat|..], pat, rep, q);
      NoMatchFromReplacement(rep, Text.Replace(t[|pat|..], pat, rep), q);
    } else {
      SuffixLacks(t, q, 1);
      ReplaceKeepsAbsent(t[1..], pat, rep, q);
      assert Avoids(q[1..], rep);
      CopiedPrefix(t[1..], pat, rep, q[1..]);
      assert t == [t[0]] + t[1..];
      NoMatchFromCopied(t[0], t[1..], Text.Replace(t[1..], pat, rep), q);
    }
  }

  /** A redirected server no longer points at the local machine. */
  lemma RedirectedIsRemote(server: string)
    ensures !IsLocal(RedirectedServer(server))
  {
    var s1 := Text.Replace(server, Loopback, ControlPlane);
    DisjointNoBoundary(Loopback, ControlPlane);
    Text.ReplaceRemovesPattern(server, Loopback, ControlPlane);
    ReplaceKeepsAbsent(s1, Localhost, ControlPlane, Loopback);
    LocalhostNoBoundary();
    Text.ReplaceRemovesPattern(s1, Localhost, ControlPlane);
  }

  /** Rewriting a cluster twice is rewriting it once. */
  lemma PatchClusterIdempotent(cluster: Dict<Value>)
    ensures PatchCluster(PatchCluster(cluster)) == PatchCluster(cluster)
  {
    if IsLocal(Server(cluster)) {
      PatchClusterRewrites(cluster);
      RedirectedIsRemote(Server(cluster));
    }
  }

  /** Patching twice is patching once: a patched server no longer matches. */
  lemma PatchIdempotent(config: Config)
    ensures Patched(Patched(config)) == Patched(config)
  {
    if config.clusters.Some? {
      var cs := config.clusters.value;
      var once := PatchedClusters(cs);
      forall i | 0 <= i < |cs| ensures PatchedClusters(once)[i] == once[i] {
        PatchClusterIdempotent(cs[i].cluster);
      }
      Seqs.Pointwise(PatchedClusters(once), once);
    }
  }

  /** The cluster list after patching has no local server left. */
  lemma PatchedHasNoLocalCluster(config: Config)
    ensures !HasLocalCluster(Patched(config))
  {
    if config.clusters.Some? {
      var cs := config.clusters.value;
      var ps := PatchedClusters(cs);
      forall i | 0 <= i < |ps| ensures !IsLocal(Server(ps[i].cluster)) {
        PatchedEntryRemote(cs[i]);
      }
    }
  }

  lemma PatchedEntryRemote(e: ClusterEntry)
    ensures !IsLocal(Server(PatchEntry(e).cluster))
  {
    if IsLocal(Server(e.cluster)) {
      PatchClusterRewrites(e.cluster);
      RedirectedIsRemote(Server(e.cluster));
    }
  }

  /** `load_config` of the two scripts: a non-empty base64 configuration
      takes precedence over the file, and failing to decode it exits with
      status 1; otherwise a missing file exits with status 1.  `decode`
      stands for base64 decoding and YAML parsing, None when either fails;
      `file` is the parsed file at the script's path, None when it does not
      exist. */
  function LoadConfig(b64: Option<string>, decode: string -> Option<Config>, file: Option<Config>)
    : (r: Result<Config, int>)
    ensures b64.Some? && b64.value != [] ==>
              r == (if decode(b64.value).Some? then Ok(decode(b64.value).value) else Err(1))
    ensures (b64.None? || b64.value == []) ==> r == (if file.Some? then Ok(file.value) else Err(1))
  {
    if b64.Some? && b64.value != [] then
      match decode(b64.value)
      case Some(config) => Ok(config)
      case None => Err(1)
    else if file.None? then Err(1)
    else Ok(file.value)
  }
}
