/** The web UI's experiment page: its progress checks, its own estimate
    (a flat three minutes per workload), the body it posts to
    `/api/deploy/sut` and the queue it shows.  The form handlers are those of
    the deployment form.  Requests are not part of this model: a fetch's
    outcome is a parameter. */
module ExperimentPage {
  import opened Wrappers
  import opened Json
  import Text
  import opened DeploymentForm
  import EstimationTime
  import VariantsLists

  /** "System Under Test" is done when a SUT, a variant and a workload are chosen. */
  predicate SutProgress(f: Form) {
    SutChosen(f) && |f.variants| > 0 && |f.workloads| > 0
  }

  predicate BenchmarkingProgress(f: Form) {
    f.iterations > 0
  }

  predicate DeployEnabled(f: Form) {
    SutProgress(f) && BenchmarkingProgress(f)
  }

  /** The deploy button is live exactly when a named SUT, a variant, a
      workload and a positive iteration count are chosen. */
  lemma DeployEnabledMeans(f: Form)
    ensures DeployEnabled(f) <==> f.sut.Some? && f.sut.value != [] && f.variants != [] &&
                                  f.workloads != [] && f.iterations > 0
  {
  }

  /** Minutes charged per workload, whatever it is. */
  const WorkloadMinutes: int := 3

  /** `workloads.reduce((sum, w) => sum + 3, acc)`. */
  function FixedReduce(ws: seq<string>, acc: int): int {
    if ws == [] then acc else FixedReduce(ws[1..], acc + WorkloadMinutes)
  }

  lemma {:induction false} FixedReduceCounts(ws: seq<string>, acc: int)
    ensures FixedReduce(ws, acc) == acc + WorkloadMinutes * |ws|
  {
    if ws != [] {
      FixedReduceCounts(ws[1..], acc + WorkloadMinutes);
    }
  }

  /** Minutes per iteration: three per selected workload, no waits. */
  function PerIteration(f: Form): (p: int)
    ensures p == 3 * |f.workloads|
  {
    FixedReduceCounts(f.workloads, 0);
    FixedReduce(f.workloads, 0)
  }

  function VariantTotals(f: Form): (r: seq<EstimationTime.VariantTotal>)
    ensures |r| == |f.variants|
    ensures forall i :: 0 <= i < |r| ==> r[i].name == f.variants[i] && r[i].total == PerIteration(f) * f.iterations
  {
    var p := PerIteration(f);
    seq(|f.variants|, i requires 0 <= i < |f.variants| => EstimationTime.VariantTotal(f.variants[i], p, p * f.iterations))
  }

  /** The page's overall estimate: 3 minutes × workloads × iterations for
      every variant. */
  function OverallTotal(f: Form): (t: int)
    ensures t == |f.variants| * (3 * |f.workloads| * f.iterations)
  {
    var ts := VariantTotals(f);
    EstimationTime.SumOfEqualTotals(ts, 0, PerIteration(f) * f.iterations);
    EstimationTime.SumTotals(ts, 0)
  }

  /** The JSON body of `POST /api/deploy/sut`. */
  datatype DeployBody = DeployBody(sut: Option<string>, variants: string, workloads: string,
                                   nIterations: int, deployOnly: bool)

  /** `deploySUT`: nothing is sent unless deploying is enabled; otherwise the
      form goes out with its lists joined by commas. */
  function DeploySut(f: Form): (r: Option<DeployBody>)
    ensures r.Some? <==> DeployEnabled(f)
    ensures r.Some? ==> r.value.sut == f.sut && r.value.nIterations == f.iterations &&
                        r.value.deployOnly == f.deployOnly &&
                        r.value.variants == Text.Join(f.variants, ",") &&
                        r.value.workloads == Text.Join(f.workloads, ",")
  {
    if !DeployEnabled(f) then None
    else Some(DeployBody(f.sut, Text.Join(f.variants, ","), Text.Join(f.workloads, ","), f.iterations, f.deployOnly))
  }

  /** Splitting the posted lists at commas gives the selection back, when no
      selected name has a comma in it. */
  lemma PostedListsSplitBack(f: Form)
    requires DeployEnabled(f)
    requires forall i :: 0 <= i < |f.variants| ==> ',' !in f.variants[i]
    requires forall i :: 0 <= i < |f.workloads| ==> ',' !in f.workloads[i]
    ensures Text.Split(DeploySut(f).value.variants, ",") == f.variants
    ensures Text.Split(DeploySut(f).value.workloads, ",") == f.workloads
  {
    Text.SplitJoin(f.variants, ',');
    Text.SplitJoin(f.workloads, ',');
  }

  /** The deployer, reading the posted variants as a selector, selects the
      chosen variants, provided the names are stripped, comma-free and not
      the one word "all" that selects every variant. */
  lemma PostedVariantsSelected(f: Form)
    requires DeployEnabled(f)
    requires forall i :: 0 <= i < |f.variants| ==>
               ',' !in f.variants[i] && f.variants[i] != [] &&
               !Text.IsSpace(f.variants[i][0]) && !Text.IsSpace(f.variants[i][|f.variants[i]| - 1])
    requires f.variants != ["all"]
    ensures VariantsLists.SelectorNames(DeploySut(f).value.variants) == Some(f.variants)
  {
    Text.SplitJoin(f.variants, ',');
    VariantsLists.StrippedNamesOfTrimmed(f.variants);
    JoinedIsNotAll(f.variants);
  }

  lemma AllHasNoComma()
    ensures ',' !in "all"
  {
    var a := "all";
    assert a[0] == 'a' && a[1] == 'l' && a[2] == 'l';
    assert forall c :: c in a ==> c == 'a' || c == 'l';
  }

  /** Comma-free names other than the single "all" never join to "all". */
  lemma JoinedIsNotAll(parts: seq<string>)
    requires |parts| >= 1 && parts != ["all"]
    requires forall i :: 0 <= i < |parts| ==> ',' !in parts[i]
    ensures Text.Join(parts, ",") != "all"
  {
    if |parts| > 1 {
      var joined := Text.Join(parts, ",");
      assert joined == parts[0] + "," + Text.Join(parts[1..], ",");
      assert joined[|parts[0]|] == ',';
      AllHasNoComma();
    } else {
      assert parts == [parts[0]];
    }
  }

  /** Selecting only a variant named "all" posts "all", which the deployer
      reads as every variant. */
  lemma VariantNamedAllSelectsEverything(f: Form)
    requires DeployEnabled(f) && f.variants == ["all"]
    ensures VariantsLists.SelectorNames(DeploySut(f).value.variants).None?
  {
  }

  /** `fetchQueue` once its request settled: an array reply is the queue;
      a failed request, an error status or any other reply gives an empty
      queue. */
  function QueueAfterFetch(reply: Option<Value>): (q: seq<Value>)
    ensures reply.Some? && reply.value.List? ==> q == reply.value.items
    ensures reply.None? || !reply.value.List? ==> q == []
  {
    match reply
    case Some(List(items)) => items
    case _ => []
  }
}
