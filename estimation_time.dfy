/** The web UI's benchmark time estimate beside the deployment form: the
    selected SUT's configuration gives each workload's timeout and the waits
    around the workloads, all rounded up to whole minutes; each variant runs
    every selected workload once per iteration.  Fetching the configuration
    is not part of this model: its outcome is a parameter. */
module EstimationTime {
  import opened Wrappers
  import opened DeploymentForm

  /** The parts of `/api/config/sut/<name>` the estimate reads; a wait the
      reply leaves out (null or missing) is None. */
  datatype WorkloadSpec = WorkloadSpec(name: string, timeoutDuration: int)
  datatype SutConfig = SutConfig(workloads: seq<WorkloadSpec>, waitBefore: Option<int>, waitAfter: Option<int>)

  /** `Math.ceil(seconds / 60)` for whole seconds: the number of minutes that
      covers them. */
  function Minutes(seconds: int): (m: int)
    ensures 60 * (m - 1) < seconds <= 60 * m
  {
    -((-seconds) / 60)
  }

  /** The configuration after the selected SUT changed: cleared when no SUT
      is chosen, otherwise what the fetch gave (None when it failed). */
  function ConfigAfterSutChange(f: Form, fetched: Option<SutConfig>): (r: Option<SutConfig>)
    ensures !SutChosen(f) ==> r.None?
    ensures SutChosen(f) ==> r == fetched
  {
    if !SutChosen(f) then None else fetched
  }

  /** `workloads.find(wl => wl.name === name)`, as the index found. */
  function Find(ws: seq<WorkloadSpec>, name: string): (r: Option<nat>)
    ensures r.Some? ==> r.value < |ws| && ws[r.value].name == name &&
                        forall j :: 0 <= j < r.value ==> ws[j].name != name
    ensures r.None? ==> forall j :: 0 <= j < |ws| ==> ws[j].name != name
  {
    if ws == [] then None
    else if ws[0].name == name then Some(0)
    else match Find(ws[1..], name)
      case None => None
      case Some(i) => Some(i + 1)
  }

  /** `workloadDuration`: the minutes of the first configured workload with
      that name; 0 for an unknown name or while no configuration is loaded. */
  function WorkloadDuration(config: Option<SutConfig>, name: string): (d: int)
    ensures config.None? ==> d == 0
    ensures config.Some? && (forall j :: 0 <= j < |config.value.workloads| ==> config.value.workloads[j].name != name) ==> d == 0
    ensures config.Some? ==>
              forall i :: 0 <= i < |config.value.workloads| && config.value.workloads[i].name == name &&
                          (forall j :: 0 <= j < i ==> config.value.workloads[j].name != name) ==>
                            d == Minutes(config.value.workloads[i].timeoutDuration)
  {
    if config.None? then 0
    else match Find(config.value.workloads, name)
      case None => 0
      case Some(i) => Minutes(config.value.workloads[i].timeoutDuration)
  }

  /** `Math.ceil((sutConfig?.wait_before_workloads ?? 0) / 60)` and the same
      for the wait after. */
  function WaitBefore(config: Option<SutConfig>): (m: int)
    ensures config.None? ==> m == 0
    ensures config.Some? ==> 60 * (m - 1) < config.value.waitBefore.GetOr(0) <= 60 * m
  {
    Minutes(if config.None? then 0 else config.value.waitBefore.GetOr(0))
  }

  function WaitAfter(config: Option<SutConfig>): (m: int)
    ensures config.None? ==> m == 0
    ensures config.Some? ==> 60 * (m - 1) < config.value.waitAfter.GetOr(0) <= 60 * m
  {
    Minutes(if config.None? then 0 else config.value.waitAfter.GetOr(0))
  }

  /** The `reduce` over the selected workloads, adding each one's minutes to
      the running sum. */
  function Reduce(config: Option<SutConfig>, ws: seq<string>, acc: int): int {
    if ws == [] then acc else Reduce(config, ws[1..], acc + WorkloadDuration(config, ws[0]))
  }

  /** The minutes of the selected workloads, added up. */
  function Durations(config: Option<SutConfig>, ws: seq<string>): int {
    if ws == [] then 0 else WorkloadDuration(config, ws[0]) + Durations(config, ws[1..])
  }

  lemma {:induction false} ReduceAddsDurations(config: Option<SutConfig>, ws: seq<string>, acc: int)
    ensures Reduce(config, ws, acc) == acc + Durations(config, ws)
  {
    if ws != [] {
      ReduceAddsDurations(config, ws[1..], acc + WorkloadDuration(config, ws[0]));
    }
  }

  /** Minutes per iteration: both waits plus every selected workload. */
  function PerIteration(config: Option<SutConfig>, f: Form): (p: int)
    ensures p == WaitBefore(config) + WaitAfter(config) + Durations(config, f.workloads)
  {
    ReduceAddsDurations(config, f.workloads, WaitBefore(config) + WaitAfter(config));
    Reduce(config, f.workloads, WaitBefore(config) + WaitAfter(config))
  }

  /** Without a configuration nothing is known, so every workload counts 0. */
  lemma {:induction false} NoConfigNoDurations(ws: seq<string>)
    ensures Durations(None, ws) == 0
  {
    if ws != [] {
      NoConfigNoDurations(ws[1..]);
    }
  }

  /** One row of the estimate. */
  datatype VariantTotal = VariantTotal(name: string, perIteration: int, total: int)

  /** `variantTotals`: one row per selected variant, in order. */
  function VariantTotals(config: Option<SutConfig>, f: Form): (r: seq<VariantTotal>)
    ensures |r| == |f.variants|
    ensures forall i :: 0 <= i < |r| ==> r[i].name == f.variants[i] &&
                                         r[i].perIteration == PerIteration(config, f) &&
                                         r[i].total == PerIteration(config, f) * f.iterations
  {
    var p := PerIteration(config, f);
    seq(|f.variants|, i requires 0 <= i < |f.variants| => VariantTotal(f.variants[i], p, p * f.iterations))
  }

  /** `variantTotals.reduce((sum, v) => sum + v.total, 0)` from a running sum. */
  function SumTotals(ts: seq<VariantTotal>, acc: int): int {
    if ts == [] then acc else SumTotals(ts[1..], acc + ts[0].total)
  }

  lemma {:induction false} SumOfEqualTotals(ts: seq<VariantTotal>, acc: int, t: int)
    requires forall i :: 0 <= i < |ts| ==> ts[i].total == t
    ensures SumTotals(ts, acc) == acc + |ts| * t
  {
    if ts != [] {
      SumOfEqualTotals(ts[1..], acc + t, t);
    }
  }

  /** `overallTotal`: every variant takes the same time, so the whole run is
      variants × minutes per iteration × iterations. */
  function OverallTotal(config: Option<SutConfig>, f: Form): (t: int)
    ensures t == |f.variants| * (PerIteration(config, f) * f.iterations)
  {
    var ts := VariantTotals(config, f);
    SumOfEqualTotals(ts, 0, PerIteration(config, f) * f.iterations);
    SumTotals(ts, 0)
  }

  /** What the panel shows. */
  datatype Shown = DeployOnlyNotice | ConfigureHint | Estimate(rows: seq<VariantTotal>, overall: int)

  /** Deploy-only mode shows a notice instead of an estimate; without a
      variant a hint; otherwise the rows and their sum. */
  function Display(config: Option<SutConfig>, f: Form): (r: Shown)
    ensures f.deployOnly <==> r.DeployOnlyNotice?
    ensures r.ConfigureHint? <==> !f.deployOnly && f.variants == []
    ensures r.Estimate? ==> |r.rows| == |f.variants| > 0 &&
                            r.overall == |f.variants| * (PerIteration(config, f) * f.iterations)
  {
    if f.deployOnly then DeployOnlyNotice
    else if |VariantTotals(config, f)| == 0 then ConfigureHint
    else Estimate(VariantTotals(config, f), OverallTotal(config, f))
  }

  /** With no configuration loaded only the number of iterations matters:
      every estimate is 0 minutes. */
  lemma NoConfigEstimatesZero(f: Form)
    ensures PerIteration(None, f) == 0 && OverallTotal(None, f) == 0
  {
    NoConfigNoDurations(f.workloads);
  }
}
