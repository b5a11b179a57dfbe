/** The web UI's older deploy page ("/control").  It offers a fixed list of
    four workloads, stored as plain strings, but its workload handlers read
    `w.name` of each of those strings, which is `undefined`; what it stores
    for a workload is therefore modelled as an optional name, None standing
    for `undefined`.  Requests are not part of this model. */
module ControlsPage {
  import opened Wrappers
  import Text
  import DeploymentForm
  import EstimationTime

  /** `workloadOptions`: the four workload names. */
  const StaticWorkloads: seq<string> := ["shaped", "rampup", "pausing", "fixed"]

  /** The deployment form as this page fills it. */
  datatype Form = Form(sut: Option<string>, variants: seq<string>, workloads: seq<Option<string>>,
                       iterations: int, deployOnly: bool)

  /** A SUT as this page reads the listing: its variants are `experiments`. */
  datatype ListedSut = ListedSut(name: string, experiments: seq<string>)

  /** `workloadDurations[w] ?? 0`: three minutes for each known workload,
      nothing for any other value. */
  function WorkloadTime(w: Option<string>): (m: int)
    ensures m == (if w.Some? && w.value in StaticWorkloads then 3 else 0)
  {
    if w.Some? && w.value in StaticWorkloads then 3 else 0
  }

  /** `deployEnabled`: a named SUT, a variant, a workload entry and a
      positive number of iterations. */
  predicate DeployEnabled(f: Form) {
    f.sut.Some? && f.sut.value != [] && |f.variants| > 0 && |f.workloads| > 0 && f.iterations > 0
  }

  /** The variant options: the experiments of every SUT named as the selection. */
  function VariantOptions(suts: seq<ListedSut>, sel: Option<string>): (r: seq<string>)
    ensures forall v :: v in r <==> exists i :: 0 <= i < |suts| && sel == Some(suts[i].name) && v in suts[i].experiments
  {
    var groups := seq(|suts|, i requires 0 <= i < |suts| => if sel == Some(suts[i].name) then suts[i].experiments else []);
    var r := DeploymentForm.Flatten(groups);
    forall v | v in r
      ensures exists i :: 0 <= i < |suts| && sel == Some(suts[i].name) && v in suts[i].experiments
    {
      var i :| 0 <= i < |groups| && v in groups[i];
    }
    forall v | exists i :: 0 <= i < |suts| && sel == Some(suts[i].name) && v in suts[i].experiments
      ensures v in r
    {
      var i :| 0 <= i < |suts| && sel == Some(suts[i].name) && v in suts[i].experiments;
      assert v in groups[i];
    }
    r
  }

  /** The workload box compares with the four static options. */
  predicate AllWorkloadsSelected(f: Form) {
    |f.workloads| == |StaticWorkloads|
  }

  predicate SomeWorkloadsSelected(f: Form) {
    |f.workloads| > 0 && !AllWorkloadsSelected(f)
  }

  /** "Select all" for workloads as written: one `undefined` per option. */
  function SelectAllWorkloads(f: Form, checked: bool): (r: Form)
    ensures r == f.(workloads := r.workloads)
    ensures |r.workloads| == (if checked then |StaticWorkloads| else 0)
    ensures forall i :: 0 <= i < |r.workloads| ==> r.workloads[i].None?
  {
    f.(workloads := if checked then seq(|StaticWorkloads|, _ => None) else [])
  }

  /** One workload checkbox as written: whichever box is clicked, the value
      toggled is `undefined`. */
  function ToggleWorkload(f: Form, option: string): (r: Form)
    ensures r == f.(workloads := DeploymentForm.Toggle(f.workloads, None))
  {
    f.(workloads := DeploymentForm.Toggle(f.workloads, None))
  }

  /** "Select all" storing the option names themselves. */
  function SelectAllWorkloadsFixed(f: Form, checked: bool): (r: Form)
    ensures r == f.(workloads := r.workloads)
    ensures |r.workloads| == (if checked then |StaticWorkloads| else 0)
    ensures forall i :: 0 <= i < |r.workloads| ==> r.workloads[i] == Some(StaticWorkloads[i])
  {
    f.(workloads := if checked then seq(|StaticWorkloads|, i requires 0 <= i < |StaticWorkloads| => Some(StaticWorkloads[i])) else [])
  }

  /** A workload checkbox toggling the option's own name. */
  function ToggleWorkloadFixed(f: Form, option: string): (r: Form)
    ensures r == f.(workloads := r.workloads)
    ensures Some(option) in r.workloads <==> Some(option) !in f.workloads
    ensures forall w :: w != Some(option) ==> (w in r.workloads <==> w in f.workloads)
  {
    f.(workloads := DeploymentForm.Toggle(f.workloads, Some(option)))
  }

  /** The reduce over the workload entries. */
  function Reduce(ws: seq<Option<string>>, acc: int): int {
    if ws == [] then acc else Reduce(ws[1..], acc + WorkloadTime(ws[0]))
  }

  /** The entries' minutes added up. */
  function Minutes(ws: seq<Option<string>>): int {
    if ws == [] then 0 else WorkloadTime(ws[0]) + Minutes(ws[1..])
  }

  lemma {:induction false} ReduceAddsMinutes(ws: seq<Option<string>>, acc: int)
    ensures Reduce(ws, acc) == acc + Minutes(ws)
  {
    if ws != [] {
      ReduceAddsMinutes(ws[1..], acc + WorkloadTime(ws[0]));
    }
  }

  /** Each entry takes three minutes or none, so an iteration takes at most
      three minutes per entry. */
  lemma {:induction false} MinutesBounded(ws: seq<Option<string>>)
    ensures 0 <= Minutes(ws) <= 3 * |ws|
    ensures (forall i :: 0 <= i < |ws| ==> ws[i].None?) ==> Minutes(ws) == 0
  {
    if ws != [] {
      MinutesBounded(ws[1..]);
    }
  }

  function PerIteration(f: Form): (p: int)
    ensures p == Minutes(f.workloads)
  {
    ReduceAddsMinutes(f.workloads, 0);
    Reduce(f.workloads, 0)
  }

  /** The overall estimate: every variant takes the same minutes per
      iteration. */
  function OverallTotal(f: Form): (t: int)
    ensures t == |f.variants| * (PerIteration(f) * f.iterations)
  {
    var p := PerIteration(f);
    var ts := seq(|f.variants|, i requires 0 <= i < |f.variants| => EstimationTime.VariantTotal(f.variants[i], p, p * f.iterations));
    EstimationTime.SumOfEqualTotals(ts, 0, p * f.iterations);
    EstimationTime.SumTotals(ts, 0)
  }

  /** The text `Array.prototype.join` writes for each entry: "" for
      `undefined`. */
  function Texts(ws: seq<Option<string>>): (r: seq<string>)
    ensures |r| == |ws| && forall i :: 0 <= i < |ws| ==> r[i] == ws[i].GetOr("")
  {
    seq(|ws|, i requires 0 <= i < |ws| => ws[i].GetOr(""))
  }

  function JoinEntries(ws: seq<Option<string>>): string {
    Text.Join(Texts(ws), ",")
  }

  /** The body posted by `deploySUT`, when deploying is enabled. */
  datatype DeployBody = DeployBody(sut: Option<string>, variants: string, workloads: string,
                                   nIterations: int, deployOnly: bool)

  function DeploySut(f: Form): (r: Option<DeployBody>)
    ensures r.Some? <==> DeployEnabled(f)
    ensures r.Some? ==> r.value.sut == f.sut && r.value.nIterations == f.iterations &&
                        r.value.deployOnly == f.deployOnly &&
                        r.value.variants == Text.Join(f.variants, ",") &&
                        r.value.workloads == JoinEntries(f.workloads)
  {
    if !DeployEnabled(f) then None
    else Some(DeployBody(f.sut, Text.Join(f.variants, ","), JoinEntries(f.workloads), f.iterations, f.deployOnly))
  }

  /** As written, "select all" shows the box checked but stores no workload
      name: every iteration is estimated at 0 minutes, and a deployment posts
      the workloads as three bare commas. */
  lemma SelectAllLosesNames(f: Form)
    ensures var r := SelectAllWorkloads(f, true);
            AllWorkloadsSelected(r) && PerIteration(r) == 0 && OverallTotal(r) == 0 &&
            (DeployEnabled(r) ==> DeploySut(r).value.workloads == ",,,")
  {
    var r := SelectAllWorkloads(f, true);
    assert |StaticWorkloads| == 4;
    MinutesBounded(r.workloads);
    var texts := Texts(r.workloads);
    assert texts == ["", "", "", ""];
    assert Text.Join(["", ""], ",") == ",";
    assert Text.Join(["", "", ""], ",") == ",,";
    assert Text.Join(texts, ",") == ",,,";
  }

  /** As written, ticking any one box on an empty selection stores a single
      `undefined`, which is posted as an empty workload list. */
  lemma ToggleLosesName(f: Form, option: string)
    requires f.workloads == []
    ensures ToggleWorkload(f, option).workloads == [None]
    ensures PerIteration(ToggleWorkload(f, option)) == 0
  {
    assert DeploymentForm.Toggle<Option<string>>([], None) == [None];
    assert Minutes([None]) == WorkloadTime(None) + Minutes([]);
  }

  /** With the names stored, "select all" charges three minutes for each of
      the four workloads, and posts exactly those names. */
  lemma SelectAllFixedKeepsNames(f: Form)
    ensures var r := SelectAllWorkloadsFixed(f, true);
            AllWorkloadsSelected(r) && PerIteration(r) == 12 &&
            (DeployEnabled(r) ==> DeploySut(r).value.workloads == Text.Join(StaticWorkloads, ","))
  {
    var r := SelectAllWorkloadsFixed(f, true);
    var ws := r.workloads;
    assert |StaticWorkloads| == 4;
    forall i | 0 <= i < |ws|
      ensures WorkloadTime(ws[i]) == 3
    {
      assert StaticWorkloads[i] in StaticWorkloads;
    }
    AllKnownMinutes(ws);
    assert Texts(ws) == StaticWorkloads;
  }

  /** Entries that are all known workloads take three minutes each. */
  lemma {:induction false} AllKnownMinutes(ws: seq<Option<string>>)
    requires forall i :: 0 <= i < |ws| ==> WorkloadTime(ws[i]) == 3
    ensures Minutes(ws) == 3 * |ws|
  {
    if ws != [] {
      AllKnownMinutes(ws[1..]);
    }
  }
}
