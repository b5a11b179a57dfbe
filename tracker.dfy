/** The resource tracker's data handling: the usage records and their
    dictionaries, the conversion of Prometheus query results into readings
    keyed by node or pod, the pod index built from the Kubernetes pod list,
    and the merging of several queries into one record per node or pod.
    Prometheus, the Kubernetes API and the clock are parameters: query
    results arrive as sequences of samples, the pod list as a sequence of
    pods, and the current time as a number of seconds. */
module Tracker {
  import opened Wrappers
  import opened Text
  import PyDict

  /** The Python exceptions the tracker's data handling can raise. */
  datatype TrackerError = KeyError | ValueError | IndexError | TypeError | AssertionError

  /** A value stored in a usage record: `None`, a number, a text, or a time
      truncated to whole seconds. */
  datatype Value = Null | Int(i: int) | Real(r: real) | Str(s: string) | Time(seconds: int)

  /** `.replace(microsecond=0)` on a point in time given in seconds. */
  function WholeSecond(t: real): (s: int)
    ensures s as real <= t < s as real + 1.0
  {
    t.Floor
  }

  /** Truncating to whole seconds keeps the order of two times. */
  lemma WholeSecondMonotonic(a: real, b: real)
    requires a <= b
    ensures WholeSecond(a) <= WholeSecond(b)
  {
  }

  // ---------------------------------------------------------------------
  // Usage records

  const NodeFields: seq<string> := ["instance", "observation_time", "collection_time", "cpu_usage", "memory_usage", "network_usage", "wattage", "num_processes", "wattage_kepler", "wattage_scaph", "wattage_auxilary", "temperture"]

  /** `NodeUsage`; the `temp` attribute is reported under "temperture". */
  datatype NodeUsage = NodeUsage(
    instance: string,
    observationTime: Value,
    collectionTime: Value,
    cpuUsage: Value,
    memoryUsage: Value,
    networkUsage: Value,
    wattage: Value,
    numProcesses: Value,
    wattageKepler: Value,
    wattageScaph: Value,
    wattageAuxilary: Value,
    temp: Value)

  /** `NodeUsage.to_dict`: one entry per name of `_fields`, in that order. */
  function NodeToDict(n: NodeUsage): (d: PyDict.Dict<Value>)
    ensures PyDict.Keys(d) == NodeFields
  {
    var d := [("instance", Str(n.instance)),
     ("observation_time", n.observationTime),
     ("collection_time", n.collectionTime),
     ("cpu_usage", n.cpuUsage),
     ("memory_usage", n.memoryUsage),
     ("network_usage", n.networkUsage),
     ("wattage", n.wattage),
     ("num_processes", n.numProcesses),
     ("wattage_kepler", n.wattageKepler),
     ("wattage_scaph", n.wattageScaph),
     ("wattage_auxilary", n.wattageAuxilary),
     ("temperture", n.temp)];
    PyDict.KeysIndex(d);
    d
  }

  /** The dictionary reports the instance under "instance" and the `temp`
      attribute under "temperture". */
  lemma NodeDictValues(n: NodeUsage)
    ensures PyDict.Get(NodeToDict(n), "instance") == Some(Str(n.instance))
    ensures PyDict.Get(NodeToDict(n), "temperture") == Some(n.temp)
  {
    var d := NodeToDict(n);
    assert forall j :: 0 <= j < 11 ==> d[j].0 == NodeFields[j] != "temperture";
    PyDict.GetAt(d, 0);
    PyDict.GetAt(d, 11);
  }

  const PodFields: seq<string> := ["collection_time", "observation_time", "name", "namespace", "cpu_usage", "memory_usage", "network_usage", "instance", "wattage_kepler", "wattage_scaph"]

  /** `PodUsage`; the consumption attributes are reported as "wattage_kepler"
      and "wattage_scaph". */
  datatype PodUsage = PodUsage(
    collectionTime: Value,
    observationTime: Value,
    name: Value,
    namespace: Value,
    cpuUsage: Value,
    memoryUsage: Value,
    networkUsage: Value,
    instance: Value,
    keplerConsumption: Value,
    scaphandreConsumption: Value)

  /** `PodUsage.to_dict`: one entry per name of `_fields`, in that order. */
  function PodToDict(p: PodUsage): (d: PyDict.Dict<Value>)
    ensures PyDict.Keys(d) == PodFields
  {
    var d := [("collection_time", p.collectionTime),
     ("observation_time", p.observationTime),
     ("name", p.name),
     ("namespace", p.namespace),
     ("cpu_usage", p.cpuUsage),
     ("memory_usage", p.memoryUsage),
     ("network_usage", p.networkUsage),
     ("instance", p.instance),
     ("wattage_kepler", p.keplerConsumption),
     ("wattage_scaph", p.scaphandreConsumption)];
    PyDict.KeysIndex(d);
    d
  }

  /** The dictionary reports the Kepler and Scaphandre consumptions under
      "wattage_kepler" and "wattage_scaph". */
  lemma PodDictValues(p: PodUsage)
    ensures PyDict.Get(PodToDict(p), "wattage_kepler") == Some(p.keplerConsumption)
    ensures PyDict.Get(PodToDict(p), "wattage_scaph") == Some(p.scaphandreConsumption)
  {
    var d := PodToDict(p);
    assert forall j :: 0 <= j < 9 ==> d[j].0 == PodFields[j];
    PyDict.GetAt(d, 8);
    PyDict.GetAt(d, 9);
  }

  // ---------------------------------------------------------------------
  // Query results

  /** One sample of an instant-vector query: its labels, and the time and the
      text of its value. */
  datatype Sample = Sample(metric: PyDict.Dict<string>, time: real, value: string)

  /** What a node query reports for one node. */
  datatype NodeReading = NodeReading(timestamp: real, value: string)

  /** What a pod query reports for one pod, and on which node. */
  datatype PodReading = PodReading(timestamp: real, value: Value, instance: string)

  /** What one item contributes to a dictionary being filled: an entry,
      nothing (the item is skipped), or an exception. */
  type Entry<R> = Result<Option<(string, R)>, TrackerError>

  /** Whether `entry` makes item `x` an entry for key `k`. */
  predicate Yields<T, R>(entry: T -> Entry<R>, x: T, k: string) {
    entry(x).Ok? && entry(x).value.Some? && entry(x).value.value.0 == k
  }

  /** The loop shared by `get_node_metrics`, `get_pod_metrics`,
      `get_scaphandre_metrics` and `fetch_pods`' loop over container
      statuses: starting from `d`, each item's entry is assigned in turn, so
      a later item for the same key overwrites an earlier one, and the first
      exception ends the loop. */
  function Assigned<T, R>(d: PyDict.Dict<R>, xs: seq<T>, entry: T -> Entry<R>): Result<PyDict.Dict<R>, TrackerError>
    decreases |xs|
  {
    if xs == [] then Ok(d)
    else
      var prior := Assigned(d, xs[..|xs| - 1], entry);
      if prior.Err? then prior
      else match entry(xs[|xs| - 1])
        case Err(e) => Err(e)
        case Ok(None) => prior
        case Ok(Some((k, v))) => Ok(PyDict.Set(prior.value, k, v))
  }

  /** The value of the latest item that is an entry for `k`. */
  function Latest<T, R>(xs: seq<T>, entry: T -> Entry<R>, k: string): Option<R>
    decreases |xs|
  {
    if xs == [] then None
    else if Yields(entry, xs[|xs| - 1], k) then Some(entry(xs[|xs| - 1]).value.value.1)
    else Latest(xs[..|xs| - 1], entry, k)
  }

  /** Whether no item raises. */
  predicate NoneRaises<T, R>(xs: seq<T>, entry: T -> Entry<R>) {
    forall i :: 0 <= i < |xs| ==> entry(xs[i]).Ok?
  }

  /** The loop ends normally exactly when no item raises. */
  lemma {:induction false} AssignedRaises<T, R>(d: PyDict.Dict<R>, xs: seq<T>, entry: T -> Entry<R>)
    ensures Assigned(d, xs, entry).Ok? <==> NoneRaises(xs, entry)
    decreases |xs|
  {
    if xs != [] {
      var n := |xs| - 1;
      var prefix := xs[..n];
      AssignedRaises(d, prefix, entry);
      if NoneRaises(prefix, entry) && entry(xs[n]).Ok? {
        forall i | 0 <= i < |xs| ensures entry(xs[i]).Ok? {
          if i < n {
            assert prefix[i] == xs[i];
          }
        }
      }
      if NoneRaises(xs, entry) {
        forall i | 0 <= i < n ensures entry(prefix[i]).Ok? {
          assert prefix[i] == xs[i];
        }
      }
    }
  }

  /** When the loop ends normally, every key some item yields holds the value
      of the latest such item, and every other key keeps its value. */
  lemma {:induction false} AssignedLatest<T, R>(d: PyDict.Dict<R>, xs: seq<T>, entry: T -> Entry<R>)
    requires Assigned(d, xs, entry).Ok?
    ensures forall k ::
      PyDict.Get(Assigned(d, xs, entry).value, k) == (if Latest(xs, entry, k).Some? then Latest(xs, entry, k) else PyDict.Get(d, k))
    decreases |xs|
  {
    if xs != [] {
      var n := |xs| - 1;
      var prefix := xs[..n];
      var prior := Assigned(d, prefix, entry);
      assert prior.Ok?;
      AssignedLatest(d, prefix, entry);
      match entry(xs[n]) {
        case Err(_) =>
          assert false;
        case Ok(None) =>
          forall k ensures !Yields(entry, xs[n], k) {
          }
        case Ok(Some((key, v))) =>
          assert Assigned(d, xs, entry).value == PyDict.Set(prior.value, key, v);
      }
    }
  }

  /** The latest entry for `k` is the one at the last index `i` that yields `k`. */
  lemma {:induction false} LatestAt<T, R>(xs: seq<T>, entry: T -> Entry<R>, k: string, i: nat)
    requires i < |xs| && Yields(entry, xs[i], k)
    requires forall j :: i < j < |xs| ==> !Yields(entry, xs[j], k)
    ensures Latest(xs, entry, k) == Some(entry(xs[i]).value.value.1)
    decreases |xs|
  {
    if i < |xs| - 1 {
      var prefix := xs[..|xs| - 1];
      assert prefix[i] == xs[i];
      LatestAt(prefix, entry, k, i);
    }
  }

  /** There is a latest entry for `k` exactly when some item yields `k`, and
      it is the value of one of them. */
  lemma {:induction false} LatestFound<T, R>(xs: seq<T>, entry: T -> Entry<R>, k: string)
    ensures Latest(xs, entry, k).Some? <==> exists i :: 0 <= i < |xs| && Yields(entry, xs[i], k)
    ensures Latest(xs, entry, k).Some? ==>
      exists i :: 0 <= i < |xs| && Yields(entry, xs[i], k) && Latest(xs, entry, k).value == entry(xs[i]).value.value.1
    decreases |xs|
  {
    if xs != [] {
      var prefix := xs[..|xs| - 1];
      LatestFound(prefix, entry, k);
      assert forall j :: 0 <= j < |prefix| ==> prefix[j] == xs[j];
    }
  }

  /** Once the loop has raised, later items change nothing. */
  lemma {:induction false} AssignedErrPersists<T, R>(d: PyDict.Dict<R>, xs: seq<T>, entry: T -> Entry<R>, j: nat)
    requires j <= |xs| && Assigned(d, xs[..j], entry).Err?
    ensures Assigned(d, xs, entry) == Assigned(d, xs[..j], entry)
    decreases |xs| - j
  {
    if j < |xs| {
      assert xs[..j + 1][..j] == xs[..j];
      AssignedErrPersists(d, xs, entry, j + 1);
    } else {
      assert xs[..j] == xs;
    }
  }

  /** The loop itself. */
  method AssignAll<T, R>(d: PyDict.Dict<R>, xs: seq<T>, entry: T -> Entry<R>) returns (r: Result<PyDict.Dict<R>, TrackerError>)
    ensures r == Assigned(d, xs, entry)
  {
    var results := d;
    var i := 0;
    while i < |xs|
      invariant 0 <= i <= |xs|
      invariant Assigned(d, xs[..i], entry) == Ok(results)
    {
      assert xs[..i + 1][..i] == xs[..i];
      match entry(xs[i]) {
        case Err(e) =>
          assert Assigned(d, xs[..i + 1], entry) == Err(e);
          AssignedErrPersists(d, xs, entry, i + 1);
          return Err(e);
        case Ok(None) =>
        case Ok(Some((k, v))) =>
          results := PyDict.Set(results, k, v);
      }
      i := i + 1;
    }
    assert xs[..i] == xs;
    r := Ok(results);
  }

  // ---------------------------------------------------------------------
  // get_node_metrics

  /** A node sample is named by its 'node' label, else by its 'instance'
      label, and skipped when it has neither. */
  function NodeEntry(s: Sample): (r: Entry<NodeReading>)
    ensures r.Ok?
    ensures r.value.None? <==> !PyDict.HasKey(s.metric, "node") && !PyDict.HasKey(s.metric, "instance")
  {
    match NodeName(s)
    case None => Ok(None)
    case Some(n) => Ok(Some((n, NodeReading(s.time, s.value))))
  }

  /** The name a node sample is filed under. */
  function NodeName(s: Sample): Option<string> {
    if PyDict.HasKey(s.metric, "node") then PyDict.Get(s.metric, "node") else PyDict.Get(s.metric, "instance")
  }

  /** `get_node_metrics` never raises, and a node holds the time and value of
      the last sample named after it: its 'node' label, or its 'instance'
      label when it has no 'node' label. */
  lemma NodeMetricsLatest(samples: seq<Sample>, name: string, i: nat)
    requires i < |samples| && NodeName(samples[i]) == Some(name)
    requires forall j :: i < j < |samples| ==> NodeName(samples[j]) != Some(name)
    ensures Assigned([], samples, NodeEntry).Ok?
    ensures PyDict.Get(Assigned([], samples, NodeEntry).value, name) == Some(NodeReading(samples[i].time, samples[i].value))
  {
    AssignedRaises([], samples, NodeEntry);
    AssignedLatest([], samples, NodeEntry);
    LatestAt(samples, NodeEntry, name, i);
  }

  /** A name no sample carries has no entry. */
  lemma NodeMetricsAbsent(samples: seq<Sample>, name: string)
    requires forall j :: 0 <= j < |samples| ==> NodeName(samples[j]) != Some(name)
    ensures Assigned([], samples, NodeEntry).Ok?
    ensures !PyDict.HasKey(Assigned([], samples, NodeEntry).value, name)
  {
    AssignedRaises([], samples, NodeEntry);
    AssignedLatest([], samples, NodeEntry);
    LatestFound(samples, NodeEntry, name);
  }

  // ---------------------------------------------------------------------
  // get_pod_metrics

  /** A pod sample without the instance label is skipped; otherwise it is
      filed under its pod label, whose absence raises `KeyError`. */
  function PodEntry(instanceLabel: string, podLabel: string, s: Sample): (r: Entry<PodReading>)
    ensures r.Err? <==> PyDict.HasKey(s.metric, instanceLabel) && !PyDict.HasKey(s.metric, podLabel)
    ensures r == Ok(None) <==> !PyDict.HasKey(s.metric, instanceLabel)
  {
    if !PyDict.HasKey(s.metric, instanceLabel) then Ok(None)
    else match PyDict.Get(s.metric, podLabel)
      case None => Err(KeyError)
      case Some(pod) => Ok(Some((pod, PodReading(s.time, Str(s.value), PyDict.Get(s.metric, instanceLabel).value))))
  }

  function PodEntries(instanceLabel: string, podLabel: string): Sample -> Entry<PodReading> {
    s => PodEntry(instanceLabel, podLabel, s)
  }

  /** `get_pod_metrics` raises exactly when a sample with the instance label
      lacks the pod label. */
  lemma PodMetricsRaises(samples: seq<Sample>, instanceLabel: string, podLabel: string)
    ensures Assigned([], samples, PodEntries(instanceLabel, podLabel)).Ok? <==>
      forall i :: 0 <= i < |samples| && PyDict.HasKey(samples[i].metric, instanceLabel) ==> PyDict.HasKey(samples[i].metric, podLabel)
  {
    var entry := PodEntries(instanceLabel, podLabel);
    AssignedRaises([], samples, entry);
    assert forall i :: 0 <= i < |samples| ==> entry(samples[i]) == PodEntry(instanceLabel, podLabel, samples[i]);
  }

  /** A pod holds the time, value and instance label of the last sample with
      the instance label that names it. */
  lemma PodMetricsLatest(samples: seq<Sample>, instanceLabel: string, podLabel: string, pod: string, i: nat)
    requires Assigned([], samples, PodEntries(instanceLabel, podLabel)).Ok?
    requires i < |samples| && PyDict.HasKey(samples[i].metric, instanceLabel)
    requires PyDict.Get(samples[i].metric, podLabel) == Some(pod)
    requires forall j :: i < j < |samples| && PyDict.HasKey(samples[j].metric, instanceLabel) ==> PyDict.Get(samples[j].metric, podLabel) != Some(pod)
    ensures PyDict.Get(Assigned([], samples, PodEntries(instanceLabel, podLabel)).value, pod)
      == Some(PodReading(samples[i].time, Str(samples[i].value), PyDict.Get(samples[i].metric, instanceLabel).value))
  {
    var entry := PodEntries(instanceLabel, podLabel);
    AssignedLatest([], samples, entry);
    forall j | i < j < |samples| ensures !Yields(entry, samples[j], pod) {
      assert entry(samples[j]) == PodEntry(instanceLabel, podLabel, samples[j]);
    }
    assert entry(samples[i]) == PodEntry(instanceLabel, podLabel, samples[i]);
    LatestAt(samples, entry, pod, i);
  }

  // ---------------------------------------------------------------------
  // Pod index (fetch_pods)

  /** A container status: its name, its id (if it has one yet) and whether it
      has started. */
  datatype Container = Container(name: string, containerId: Option<string>, started: bool)

  /** A pod as listed by the Kubernetes API; `statuses` is `None` when the pod
      reports no container statuses. */
  datatype Pod = Pod(uid: string, name: string, namespace: string, ip: Option<string>, statuses: Option<seq<Container>>)

  /** The pod dictionary that `fetch_pods` files under the pod's short uid and
      under each of its containers' ids. */
  datatype PodRecord = PodRecord(name: string, namespace: string, ip: Option<string>)

  function Record(p: Pod): PodRecord {
    PodRecord(p.name, p.namespace, p.ip)
  }

  /** `s.rindex(c)`, `None` where Python raises. */
  function LastIndex(s: string, c: char): (r: Option<nat>)
    ensures r.None? <==> c !in s
    ensures r.Some? ==> r.value < |s| && s[r.value] == c && c !in s[r.value + 1..]
  {
    if s == [] then None
    else if s[|s| - 1] == c then Some(|s| - 1)
    else
      var r := LastIndex(s[..|s| - 1], c);
      assert s == s[..|s| - 1] + [s[|s| - 1]];
      if r.Some? then
        assert s[r.value + 1..] == s[..|s| - 1][r.value + 1..] + [s[|s| - 1]];
        r
      else r
  }

  /** `uid[uid.rindex("-")+1:]`. */
  function ShortUid(uid: string): (r: Result<string, TrackerError>)
    ensures r.Err? <==> '-' !in uid
    ensures r == Err(ValueError) || r.Ok?
  {
    match LastIndex(uid, '-')
    case None => Err(ValueError)
    case Some(i) => Ok(uid[i + 1..])
  }

  /** The short uid is the text after the last '-'. */
  lemma ShortUidIsLastPart(front: string, back: string)
    requires '-' !in back
    ensures ShortUid(front + "-" + back) == Ok(back)
  {
    var s := front + "-" + back;
    var i := LastIndex(s, '-').value;
    assert s[|front|] == '-';
    assert i == |front|;
    assert s[i + 1..] == back;
  }

  /** `container_id.split("//")[1]`. */
  function ContainerId(id: string): (r: Result<string, TrackerError>)
    ensures r.Err? ==> r.error == IndexError
  {
    var parts := Split(id, "//");
    if |parts| < 2 then Err(IndexError) else Ok(parts[1])
  }

  /** The container id is the text after the "//" following the runtime
      name. */
  lemma ContainerIdAfterScheme(runtime: string, id: string)
    requires '/' !in runtime && '/' !in id
    ensures ContainerId(runtime + "//" + id) == Ok(id)
  {
    SplitAtLeadChar(runtime, "//", id);
    SplitWithoutLeadChar(id, "//");
  }

  /** An id without "//" raises `IndexError`. */
  lemma ContainerIdWithoutScheme(id: string)
    requires '/' !in id
    ensures ContainerId(id) == Err(IndexError)
  {
    SplitWithoutLeadChar(id, "//");
  }

  /** The containers of a pod that `fetch_pods` files: those with an id that
      have started. */
  predicate Indexed(c: Container) {
    c.containerId.Some? && c.started
  }

  /** A container status contributes its id, under which the pod is filed;
      an id without "//" raises `IndexError`. */
  function ContainerEntry(rec: PodRecord, c: Container): Entry<PodRecord> {
    if !Indexed(c) then Ok(None)
    else match ContainerId(c.containerId.value)
      case Err(e) => Err(e)
      case Ok(cid) => Ok(Some((cid, rec)))
  }

  function ContainerEntries(rec: PodRecord): Container -> Entry<PodRecord> {
    c => ContainerEntry(rec, c)
  }

  /** Filing one pod: under its short uid, then under its containers' ids. */
  function IndexPod(d: PyDict.Dict<PodRecord>, p: Pod): Result<PyDict.Dict<PodRecord>, TrackerError> {
    match ShortUid(p.uid)
    case Err(e) => Err(e)
    case Ok(uid) =>
      var d' := PyDict.Set(d, uid, Record(p));
      if p.statuses.None? then Ok(d') else Assigned(d', p.statuses.value, ContainerEntries(Record(p)))
  }

  /** The index `fetch_pods` builds from the pods of all namespaces. */
  function PodIndex(pods: seq<Pod>): Result<PyDict.Dict<PodRecord>, TrackerError>
    decreases |pods|
  {
    if pods == [] then Ok([])
    else
      var prior := PodIndex(pods[..|pods| - 1]);
      if prior.Err? then prior else IndexPod(prior.value, pods[|pods| - 1])
  }

  /** Whether container `c` is filed under key `k`. */
  predicate FiledAs(c: Container, k: string) {
    Indexed(c) && ContainerId(c.containerId.value) == Ok(k)
  }

  /** Filing a pod's containers raises exactly when a filed container's id
      has no part after "//". */
  lemma ContainersRaise(d: PyDict.Dict<PodRecord>, rec: PodRecord, cs: seq<Container>)
    ensures Assigned(d, cs, ContainerEntries(rec)).Ok? <==>
      forall i :: 0 <= i < |cs| && Indexed(cs[i]) ==> ContainerId(cs[i].containerId.value).Ok?
  {
    var entry := ContainerEntries(rec);
    assert forall i :: 0 <= i < |cs| ==> entry(cs[i]) == ContainerEntry(rec, cs[i]);
    AssignedRaises(d, cs, entry);
  }

  /** After filing, every filed container's key holds the pod's record, and
      every other key holds either that record or what it held before. */
  lemma ContainersFiled(d: PyDict.Dict<PodRecord>, rec: PodRecord, cs: seq<Container>)
    requires Assigned(d, cs, ContainerEntries(rec)).Ok?
    ensures forall i, k :: 0 <= i < |cs| && FiledAs(cs[i], k) ==> PyDict.Get(Assigned(d, cs, ContainerEntries(rec)).value, k) == Some(rec)
    ensures forall k :: PyDict.Get(d, k) == Some(rec) ==> PyDict.Get(Assigned(d, cs, ContainerEntries(rec)).value, k) == Some(rec)
  {
    var entry := ContainerEntries(rec);
    AssignedLatest(d, cs, entry);
    forall k ensures Latest(cs, entry, k).Some? ==> Latest(cs, entry, k) == Some(rec) {
      LatestFound(cs, entry, k);
    }
    forall i, k | 0 <= i < |cs| && FiledAs(cs[i], k) ensures Latest(cs, entry, k).Some? {
      assert Yields(entry, cs[i], k);
      LatestFound(cs, entry, k);
    }
  }

  /** Filing a pod fails exactly where its uid has no '-' or a filed
      container id has no "//". */
  lemma IndexPodRaises(d: PyDict.Dict<PodRecord>, p: Pod)
    ensures IndexPod(d, p).Ok? <==> ('-' in p.uid &&
      (p.statuses.Some? ==> forall i :: 0 <= i < |p.statuses.value| && Indexed(p.statuses.value[i]) ==> ContainerId(p.statuses.value[i].containerId.value).Ok?))
  {
    if ShortUid(p.uid).Ok? && p.statuses.Some? {
      ContainersRaise(PyDict.Set(d, ShortUid(p.uid).value, Record(p)), Record(p), p.statuses.value);
    }
  }

  /** A filed pod is found under its short uid and under the id of each of
      its filed containers. */
  lemma IndexPodFinds(d: PyDict.Dict<PodRecord>, p: Pod)
    requires IndexPod(d, p).Ok?
    ensures PyDict.Get(IndexPod(d, p).value, ShortUid(p.uid).value) == Some(Record(p))
    ensures p.statuses.Some? ==> forall i, k :: 0 <= i < |p.statuses.value| && FiledAs(p.statuses.value[i], k) ==>
      PyDict.Get(IndexPod(d, p).value, k) == Some(Record(p))
  {
    if p.statuses.Some? {
      ContainersFiled(PyDict.Set(d, ShortUid(p.uid).value, Record(p)), Record(p), p.statuses.value);
    }
  }

  lemma {:induction false} PodIndexErrPersists(pods: seq<Pod>, j: nat)
    requires j <= |pods| && PodIndex(pods[..j]).Err?
    ensures PodIndex(pods) == PodIndex(pods[..j])
    decreases |pods| - j
  {
    if j < |pods| {
      assert pods[..j + 1][..j] == pods[..j];
      PodIndexErrPersists(pods, j + 1);
    } else {
      assert pods[..j] == pods;
    }
  }

  /** One pass of `fetch_pods`' loop over the listed pods. */
  method AddPod(index: PyDict.Dict<PodRecord>, p: Pod) returns (r: Result<PyDict.Dict<PodRecord>, TrackerError>)
    ensures r == IndexPod(index, p)
  {
    var uid := ShortUid(p.uid);
    if uid.Err? {
      return Err(uid.error);
    }
    var pods := PyDict.Set(index, uid.value, Record(p));
    if p.statuses.None? {
      return Ok(pods);
    }
    r := AssignAll(pods, p.statuses.value, ContainerEntries(Record(p)));
  }

  /** `fetch_pods`, over the pods of all namespaces in listing order. */
  method FetchPods(pods: seq<Pod>) returns (r: Result<PyDict.Dict<PodRecord>, TrackerError>)
    ensures r == PodIndex(pods)
  {
    var index: PyDict.Dict<PodRecord> := [];
    var i := 0;
    while i < |pods|
      invariant 0 <= i <= |pods|
      invariant PodIndex(pods[..i]) == Ok(index)
    {
      assert pods[..i + 1][..i] == pods[..i];
      var filed := AddPod(index, pods[i]);
      if filed.Err? {
        PodIndexErrPersists(pods, i + 1);
        return filed;
      }
      index := filed.value;
      i := i + 1;
    }
    assert pods[..i] == pods;
    r := Ok(index);
  }

  // ---------------------------------------------------------------------
  // get_scaphandre_metrics

  const CriPrefix := "cri-containerd-"

  /** The pod a Scaphandre container id belongs to: the id itself, or the id
      without the 15 characters of "cri-containerd-", looked up in the
      index. */
  function Resolve(containerId: string, index: PyDict.Dict<PodRecord>): (r: Option<PodRecord>)
    ensures r.Some? <==> (PyDict.HasKey(index, containerId) ||
      (StartsWith(containerId, CriPrefix) && PyDict.HasKey(index, containerId[|CriPrefix|..])))
    ensures PyDict.HasKey(index, containerId) ==> r == PyDict.Get(index, containerId)
  {
    if PyDict.HasKey(index, containerId) then PyDict.Get(index, containerId)
    else if StartsWith(containerId, CriPrefix) && PyDict.HasKey(index, containerId[15..]) then PyDict.Get(index, containerId[15..])
    else None
  }

  /** An id that is not itself indexed but is "cri-containerd-" before an
      indexed id resolves to that id's pod. */
  lemma ResolveStripsPrefix(id: string, index: PyDict.Dict<PodRecord>)
    requires !PyDict.HasKey(index, CriPrefix + id)
    ensures Resolve(CriPrefix + id, index) == PyDict.Get(index, id)
  {
    assert (CriPrefix + id)[..|CriPrefix|] == CriPrefix;
    assert (CriPrefix + id)[|CriPrefix|..] == id;
  }

  /** A Scaphandre sample without a container id, or whose id does not
      resolve, is skipped; a resolved one is filed under the pod's name, and a
      missing 'node' label raises `KeyError`. */
  function ScaphandreEntry(index: PyDict.Dict<PodRecord>, s: Sample): (r: Entry<PodReading>)
    ensures r.Err? ==> r.error == KeyError
    ensures r.Err? <==> Resolves(index, s) && !PyDict.HasKey(s.metric, "node")
    ensures r.Ok? && r.value.Some? ==> (PyDict.HasKey(s.metric, "container_id") &&
      var pod := Resolve(PyDict.Get(s.metric, "container_id").value, index);
      pod.Some? && pod.value.name == r.value.value.0)
  {
    match PyDict.Get(s.metric, "container_id")
    case None => Ok(None)
    case Some(cid) =>
      match Resolve(cid, index)
      case None => Ok(None)
      case Some(rec) =>
        match PyDict.Get(s.metric, "node")
        case None => Err(KeyError)
        case Some(node) => Ok(Some((rec.name, PodReading(s.time, Str(s.value), node))))
  }

  /** Whether sample `s` has a container id that resolves to an indexed pod. */
  predicate Resolves(index: PyDict.Dict<PodRecord>, s: Sample) {
    PyDict.HasKey(s.metric, "container_id") && Resolve(PyDict.Get(s.metric, "container_id").value, index).Some?
  }

  function ScaphandreEntries(index: PyDict.Dict<PodRecord>): Sample -> Entry<PodReading> {
    s => ScaphandreEntry(index, s)
  }

  /** `get_scaphandre_metrics` raises exactly when a sample whose container
      resolves lacks the 'node' label. */
  lemma ScaphandreMetricsRaises(samples: seq<Sample>, index: PyDict.Dict<PodRecord>)
    ensures Assigned([], samples, ScaphandreEntries(index)).Ok? <==>
      forall i :: 0 <= i < |samples| && Resolves(index, samples[i]) ==> PyDict.HasKey(samples[i].metric, "node")
  {
    var entry := ScaphandreEntries(index);
    AssignedRaises([], samples, entry);
    assert forall i :: 0 <= i < |samples| ==> entry(samples[i]) == ScaphandreEntry(index, samples[i]);
  }

  /** A sample whose container does not resolve contributes nothing: the
      metrics are those of the other samples. */
  lemma ScaphandreSkipsUnresolved(samples: seq<Sample>, index: PyDict.Dict<PodRecord>, s: Sample)
    requires !Resolves(index, s)
    ensures Assigned([], samples + [s], ScaphandreEntries(index)) == Assigned([], samples, ScaphandreEntries(index))
  {
    assert (samples + [s])[..|samples|] == samples;
  }

  /** A container that `fetch_pods` filed for the last pod listed resolves to
      that pod, so its Scaphandre readings are filed under the pod's name. */
  lemma ScaphandreFindsContainer(pods: seq<Pod>, i: nat, k: string)
    requires pods != [] && PodIndex(pods).Ok?
    requires var p := pods[|pods| - 1]; p.statuses.Some? && i < |p.statuses.value| && FiledAs(p.statuses.value[i], k)
    ensures Resolve(k, PodIndex(pods).value) == Some(Record(pods[|pods| - 1]))
  {
    var prior := PodIndex(pods[..|pods| - 1]);
    assert prior.Ok?;
    IndexPodFinds(prior.value, pods[|pods| - 1]);
    assert PodIndex(pods) == IndexPod(prior.value, pods[|pods| - 1]);
    var p := pods[|pods| - 1];
    assert FiledAs(p.statuses.value[i], k);
    assert PyDict.Get(PodIndex(pods).value, k) == Some(Record(p));
  }

  // ---------------------------------------------------------------------
  // Merging (_query_nodes, _query_pods)

  predicate Distinct(s: seq<string>) {
    forall i, j :: 0 <= i < j < |s| ==> s[i] != s[j]
  }

  /** Adding the keys of `l` not yet in `acc`, in order. */
  function AddNew(acc: seq<string>, l: seq<string>): (r: seq<string>)
    ensures forall x :: x in r <==> x in acc || x in l
    ensures Distinct(acc) ==> Distinct(r)
    decreases |l|
  {
    if l == [] then acc
    else AddNew(if l[0] in acc then acc else acc + [l[0]], l[1..])
  }

  /** `set().union(*lists)`, iterated in first-seen order. */
  function UnionKeys(lists: seq<seq<string>>): (r: seq<string>)
    ensures forall x :: x in r <==> exists i :: 0 <= i < |lists| && x in lists[i]
    ensures Distinct(r)
    decreases |lists|
  {
    if lists == [] then []
    else
      var prior := UnionKeys(lists[..|lists| - 1]);
      assert forall i :: 0 <= i < |lists| - 1 ==> lists[..|lists| - 1][i] == lists[i];
      AddNew(prior, lists[|lists| - 1])
  }

  /** The node query results `_query_nodes` merges. */
  datatype NodeQueries = NodeQueries(
    memory: PyDict.Dict<NodeReading>,
    cpu: PyDict.Dict<NodeReading>,
    network: PyDict.Dict<NodeReading>,
    kepler: PyDict.Dict<NodeReading>,
    scaphandre: PyDict.Dict<NodeReading>,
    tapo: PyDict.Dict<NodeReading>,
    pods: PyDict.Dict<NodeReading>,
    auxilary: PyDict.Dict<NodeReading>,
    temp: PyDict.Dict<NodeReading>)

  /** The nodes considered: the keys of every result but the pod count and the
      auxiliary wattage. */
  function NodeKeys(q: NodeQueries): seq<string> {
    UnionKeys([PyDict.Keys(q.memory), PyDict.Keys(q.cpu), PyDict.Keys(q.network), PyDict.Keys(q.kepler),
               PyDict.Keys(q.scaphandre), PyDict.Keys(q.tapo), PyDict.Keys(q.temp)])
  }

  /** `result.get(node, {"value": 0})["value"]`. */
  function ValueOr(d: PyDict.Dict<NodeReading>, node: string): (v: Value)
    ensures v == Int(0) <==> !PyDict.HasKey(d, node)
  {
    match PyDict.Get(d, node)
    case Some(r) => Str(r.value)
    case None => Int(0)
  }

  /** The record of one node, collected at second `now`; `None` when the cpu
      result has no sample for it. */
  function MergeNode(q: NodeQueries, node: string, now: int): Option<NodeUsage> {
    match PyDict.Get(q.cpu, node)
    case None => None
    case Some(cpu) =>
      Some(NodeUsage(
        instance := node,
        observationTime := Time(WholeSecond(cpu.timestamp)),
        collectionTime := Time(now),
        cpuUsage := Str(cpu.value),
        memoryUsage := ValueOr(q.memory, node),
        networkUsage := ValueOr(q.network, node),
        wattage := ValueOr(q.tapo, node),
        numProcesses := ValueOr(q.pods, node),
        wattageKepler := ValueOr(q.kepler, node),
        wattageScaph := ValueOr(q.scaphandre, node),
        wattageAuxilary := ValueOr(q.auxilary, node),
        temp := ValueOr(q.temp, node)))
  }

  /** The records of the nodes `keys`, in order, skipping nodes without a cpu
      sample. */
  function MergeNodes(q: NodeQueries, keys: seq<string>, now: int): seq<NodeUsage>
    decreases |keys|
  {
    if keys == [] then []
    else
      var prior := MergeNodes(q, keys[..|keys| - 1], now);
      match MergeNode(q, keys[|keys| - 1], now)
      case None => prior
      case Some(n) => prior + [n]
  }

  /** `_query_nodes`' loop. */
  method QueryNodes(q: NodeQueries, now: int) returns (nodes: seq<NodeUsage>)
    ensures nodes == MergeNodes(q, NodeKeys(q), now)
  {
    var keys := NodeKeys(q);
    nodes := [];
    var i := 0;
    while i < |keys|
      invariant 0 <= i <= |keys|
      invariant nodes == MergeNodes(q, keys[..i], now)
    {
      assert keys[..i + 1][..i] == keys[..i];
      var cpu := PyDict.Get(q.cpu, keys[i]);
      if cpu.Some? {
        var node := keys[i];
        var n := NodeUsage(
          instance := node,
          observationTime := Time(WholeSecond(cpu.value.timestamp)),
          collectionTime := Time(now),
          cpuUsage := Str(cpu.value.value),
          memoryUsage := ValueOr(q.memory, node),
          networkUsage := ValueOr(q.network, node),
          wattage := ValueOr(q.tapo, node),
          numProcesses := ValueOr(q.pods, node),
          wattageKepler := ValueOr(q.kepler, node),
          wattageScaph := ValueOr(q.scaphandre, node),
          wattageAuxilary := ValueOr(q.auxilary, node),
          temp := ValueOr(q.temp, node));
        assert MergeNode(q, node, now) == Some(n);
        nodes := nodes + [n];
      }
      i := i + 1;
    }
    assert keys[..i] == keys;
  }

  /** Each merged record is the record of its own key, one per key. */
  lemma {:induction false} MergeNodesFrom(q: NodeQueries, keys: seq<string>, now: int)
    ensures forall n :: n in MergeNodes(q, keys, now) ==> n.instance in keys && MergeNode(q, n.instance, now) == Some(n)
    ensures forall k :: k in keys && MergeNode(q, k, now).Some? ==> MergeNode(q, k, now).value in MergeNodes(q, keys, now)
    decreases |keys|
  {
    if keys != [] {
      var prefix := keys[..|keys| - 1];
      MergeNodesFrom(q, prefix, now);
      assert keys == prefix + [keys[|keys| - 1]];
    }
  }

  /** `_query_nodes` reports exactly the nodes with a cpu sample, observed at
      that sample's whole second; any reading a node lacks is 0. */
  lemma QueryNodesReportsCpuNodes(q: NodeQueries, now: int)
    ensures forall node :: (exists n :: n in MergeNodes(q, NodeKeys(q), now) && n.instance == node) <==> PyDict.HasKey(q.cpu, node)
    ensures forall n :: n in MergeNodes(q, NodeKeys(q), now) ==>
      && n.observationTime == Time(WholeSecond(PyDict.Get(q.cpu, n.instance).value.timestamp))
      && n.collectionTime == Time(now)
      && (n.memoryUsage == Int(0) <==> !PyDict.HasKey(q.memory, n.instance))
      && (n.temp == Int(0) <==> !PyDict.HasKey(q.temp, n.instance))
  {
    var keys := NodeKeys(q);
    MergeNodesFrom(q, keys, now);
    forall node | PyDict.HasKey(q.cpu, node)
      ensures exists n :: n in MergeNodes(q, keys, now) && n.instance == node
    {
      assert node in PyDict.Keys(q.cpu);
      var lists := [PyDict.Keys(q.memory), PyDict.Keys(q.cpu), PyDict.Keys(q.network), PyDict.Keys(q.kepler),
                    PyDict.Keys(q.scaphandre), PyDict.Keys(q.tapo), PyDict.Keys(q.temp)];
      assert node in lists[1];
      assert node in keys;
      assert MergeNode(q, node, now).value.instance == node;
    }
  }

  /** The pod query results `_query_pods` merges for one namespace. */
  datatype PodQueries = PodQueries(
    cpu: PyDict.Dict<PodReading>,
    memory: PyDict.Dict<PodReading>,
    network: PyDict.Dict<PodReading>,
    kepler: PyDict.Dict<PodReading>,
    scaphandre: PyDict.Dict<PodReading>)

  /** The pods considered: the keys of every result but the network one. */
  function PodKeys(q: PodQueries): seq<string> {
    UnionKeys([PyDict.Keys(q.scaphandre), PyDict.Keys(q.kepler), PyDict.Keys(q.cpu), PyDict.Keys(q.memory)])
  }

  /** `get_value`: the reading for `pod`, or value 0.0 at time `now` on
      instance "unknown". */
  function ReadingOr(d: PyDict.Dict<PodReading>, pod: string, now: real): PodReading {
    PyDict.GetOr(d, pod, PodReading(now, Real(0.0), "unknown"))
  }

  /** `float(v)`, where `parse` reads a number from a text. */
  function ToFloat(v: Value, parse: string -> Option<real>): (r: Result<real, TrackerError>)
    ensures v.Real? ==> r == Ok(v.r)
  {
    match v
    case Real(x) => Ok(x)
    case Int(i) => Ok(i as real)
    case Str(s) => if parse(s).Some? then Ok(parse(s).value) else Err(ValueError)
    case _ => Err(TypeError)
  }

  /** The known instances among `xs`: all but "unknown". */
  function Known(xs: seq<string>): set<string> {
    set x | x in xs && x != "unknown"
  }

  /** The first known instance of `xs`. */
  function FirstKnown(xs: seq<string>): (r: Option<string>)
    ensures r.None? <==> Known(xs) == {}
    ensures r.Some? ==> r.value in Known(xs)
  {
    if xs == [] then None
    else if xs[0] != "unknown" then
      assert xs[0] in Known(xs);
      Some(xs[0])
    else
      assert Known(xs) == Known(xs[1..]);
      FirstKnown(xs[1..])
  }

  /** The only known instance, where the source's assertion holds. */
  function SoleInstance(xs: seq<string>): (r: Option<string>)
    ensures r.Some? <==> |Known(xs)| == 1
    ensures r.Some? ==> Known(xs) == {r.value}
  {
    match FirstKnown(xs)
    case None => None
    case Some(x) =>
      if forall i :: 0 <= i < |xs| && xs[i] != "unknown" ==> xs[i] == x then
        assert Known(xs) == {x};
        Some(x)
      else
        var i :| 0 <= i < |xs| && xs[i] != "unknown" && xs[i] != x;
        assert {x, xs[i]} <= Known(xs);
        assert |Known(xs) - {x}| >= 1 by {
          assert xs[i] in Known(xs) - {x};
        }
        None
  }

  /** The earliest of some times. */
  function Earliest(ts: seq<real>): (r: real)
    requires ts != []
    ensures r in ts && forall t :: t in ts ==> r <= t
  {
    if |ts| == 1 then ts[0]
    else
      var rest := Earliest(ts[1..]);
      assert forall t :: t in ts[1..] ==> t in ts;
      assert forall t :: t in ts ==> t == ts[0] || t in ts[1..];
      if ts[0] <= rest then ts[0] else rest
  }

  /** The record of one pod of `namespace`, collected at second `collection`,
      with missing readings taken at time `now`. */
  function MergePod(q: PodQueries, namespace: string, pod: string, now: real, collection: int, parse: string -> Option<real>): (r: Result<PodUsage, TrackerError>)
    ensures r.Ok? ==> r.value.name == Str(pod) && r.value.namespace == Str(namespace)
    ensures r.Ok? ==> r.value.instance.Str? && Known(Instances(q, pod, now)) == {r.value.instance.s}
    ensures r.Ok? ==> (r.value.observationTime.Time? &&
      forall t :: t in Times(q, pod, now) ==> r.value.observationTime.seconds <= WholeSecond(t))
  {
    var cpu := ReadingOr(q.cpu, pod, now);
    var memory := ReadingOr(q.memory, pod, now);
    var kepler := ReadingOr(q.kepler, pod, now);
    var scaphandre := ReadingOr(q.scaphandre, pod, now);
    match ToFloat(cpu.value, parse)
    case Err(e) => Err(e)
    case Ok(cpuUsage) =>
      match ToFloat(memory.value, parse)
      case Err(e) => Err(e)
      case Ok(memoryUsage) =>
        match ToFloat(kepler.value, parse)
        case Err(e) => Err(e)
        case Ok(keplerConsumption) =>
          match ToFloat(scaphandre.value, parse)
          case Err(e) => Err(e)
          case Ok(scaphandreConsumption) =>
            match SoleInstance(Instances(q, pod, now))
            case None => Err(AssertionError)
            case Some(instance) =>
              var observed := Earliest(Times(q, pod, now));
              forall t | t in Times(q, pod, now) ensures WholeSecond(observed) <= WholeSecond(t) {
                WholeSecondMonotonic(observed, t);
              }
              Ok(PodUsage(
                collectionTime := Time(collection),
                observationTime := Time(WholeSecond(observed)),
                name := Str(pod),
                namespace := Str(namespace),
                cpuUsage := Real(cpuUsage),
                memoryUsage := Real(memoryUsage),
                networkUsage := ReadingOr(q.network, pod, now).value,
                instance := Str(instance),
                keplerConsumption := Real(keplerConsumption),
                scaphandreConsumption := Real(scaphandreConsumption)))
  }

  /** The instances of the cpu, memory, Kepler and Scaphandre readings. */
  function Instances(q: PodQueries, pod: string, now: real): seq<string> {
    [ReadingOr(q.cpu, pod, now).instance, ReadingOr(q.memory, pod, now).instance,
     ReadingOr(q.kepler, pod, now).instance, ReadingOr(q.scaphandre, pod, now).instance]
  }

  /** The times of the cpu, memory, Kepler and Scaphandre readings. */
  function Times(q: PodQueries, pod: string, now: real): seq<real> {
    [ReadingOr(q.cpu, pod, now).timestamp, ReadingOr(q.memory, pod, now).timestamp,
     ReadingOr(q.kepler, pod, now).timestamp, ReadingOr(q.scaphandre, pod, now).timestamp]
  }

  /** Merging each of `keys` in turn; the first failure ends the loop. */
  function MapAll<U>(keys: seq<string>, merge: string -> Result<U, TrackerError>): Result<seq<U>, TrackerError>
    decreases |keys|
  {
    if keys == [] then Ok([])
    else
      var prior := MapAll(keys[..|keys| - 1], merge);
      if prior.Err? then prior
      else match merge(keys[|keys| - 1])
        case Err(e) => Err(e)
        case Ok(p) => Ok(prior.value + [p])
  }

  lemma {:induction false} MapAllErrPersists<U>(keys: seq<string>, merge: string -> Result<U, TrackerError>, j: nat)
    requires j <= |keys| && MapAll(keys[..j], merge).Err?
    ensures MapAll(keys, merge) == MapAll(keys[..j], merge)
    decreases |keys| - j
  {
    if j < |keys| {
      assert keys[..j + 1][..j] == keys[..j];
      MapAllErrPersists(keys, merge, j + 1);
    } else {
      assert keys[..j] == keys;
    }
  }

  /** The loop succeeds exactly when every key merges, and then gives one
      result per key, in order. */
  lemma {:induction false} MapAllEach<U>(keys: seq<string>, merge: string -> Result<U, TrackerError>)
    ensures MapAll(keys, merge).Ok? <==> forall i :: 0 <= i < |keys| ==> merge(keys[i]).Ok?
    ensures MapAll(keys, merge).Ok? ==>
      |MapAll(keys, merge).value| == |keys| &&
      forall i :: 0 <= i < |keys| ==> merge(keys[i]) == Ok(MapAll(keys, merge).value[i])
    decreases |keys|
  {
    if keys != [] {
      var prefix := keys[..|keys| - 1];
      MapAllEach(prefix, merge);
      assert forall i :: 0 <= i < |prefix| ==> prefix[i] == keys[i];
    }
  }

  function PodMerger(q: PodQueries, namespace: string, now: real, collection: int, parse: string -> Option<real>): string -> Result<PodUsage, TrackerError> {
    pod => MergePod(q, namespace, pod, now, collection, parse)
  }

  lemma PodMergerApplies(q: PodQueries, namespace: string, now: real, collection: int, parse: string -> Option<real>, pod: string)
    ensures PodMerger(q, namespace, now, collection, parse)(pod) == MergePod(q, namespace, pod, now, collection, parse)
  {
  }

  /** One more key merged after a successful prefix. */
  lemma MapAllSnoc<U>(keys: seq<string>, merge: string -> Result<U, TrackerError>, i: nat, done: seq<U>, p: Result<U, TrackerError>)
    requires i < |keys| && MapAll(keys[..i], merge) == Ok(done) && merge(keys[i]) == p
    ensures p.Err? ==> MapAll(keys[..i + 1], merge) == Err(p.error)
    ensures p.Ok? ==> MapAll(keys[..i + 1], merge) == Ok(done + [p.value])
  {
    assert keys[..i + 1][..i] == keys[..i];
  }

  /** `_query_pods`' loop over the pods of one namespace. */
  method QueryPods(q: PodQueries, namespace: string, now: real, collection: int, parse: string -> Option<real>) returns (r: Result<seq<PodUsage>, TrackerError>)
    ensures r == MapAll(PodKeys(q), PodMerger(q, namespace, now, collection, parse))
  {
    var keys := PodKeys(q);
    ghost var merge := PodMerger(q, namespace, now, collection, parse);
    var pods: seq<PodUsage> := [];
    var i := 0;
    while i < |keys|
      invariant 0 <= i <= |keys|
      invariant MapAll(keys[..i], merge) == Ok(pods)
    {
      var p := MergePod(q, namespace, keys[i], now, collection, parse);
      PodMergerApplies(q, namespace, now, collection, parse, keys[i]);
      MapAllSnoc(keys, merge, i, pods, p);
      if p.Err? {
        MapAllErrPersists(keys, merge, i + 1);
        return Err(p.error);
      }
      pods := pods + [p.value];
      i := i + 1;
    }
    assert keys[..i] == keys;
    r := Ok(pods);
  }

  /** `_query_pods` succeeds exactly when every pod of the namespace merges;
      it then reports one record per pod, named after it, in order, and no
      pod twice. */
  lemma QueryPodsReportsEachPod(q: PodQueries, namespace: string, now: real, collection: int, parse: string -> Option<real>)
    ensures var r := MapAll(PodKeys(q), PodMerger(q, namespace, now, collection, parse));
      && (r.Ok? <==> forall pod :: pod in PodKeys(q) ==> MergePod(q, namespace, pod, now, collection, parse).Ok?)
      && (r.Ok? ==> (|r.value| == |PodKeys(q)| &&
           forall i :: 0 <= i < |r.value| ==> r.value[i].name == Str(PodKeys(q)[i]) && r.value[i].namespace == Str(namespace)))
      && (r.Ok? ==> forall i, j :: 0 <= i < j < |r.value| ==> r.value[i].name != r.value[j].name)
  {
    var keys := PodKeys(q);
    var merge := PodMerger(q, namespace, now, collection, parse);
    MapAllEach(keys, merge);
    assert forall i :: 0 <= i < |keys| ==> merge(keys[i]) == MergePod(q, namespace, keys[i], now, collection, parse);
  }
}
