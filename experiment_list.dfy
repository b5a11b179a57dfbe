/** `ExperimentList`: the experiments selected from the configuration (each
    autoscaled on CPU), expanded once per workload and sorted by branch and
    name.  Building an autoscaled experiment, and copying one, appends
    "scale" to its environment's tags. */
module ExperimentLists {
  import opened Wrappers
  import PyDict
  import ScalingSettings
  import Environments
  import ExperimentWorkloads
  import Sorting
  import Copies
  import opened Experiments

  /** One entry of the experiments configuration. */
  datatype ExperimentConfig = ExperimentConfig(
    name: string,
    targetBranch: string,
    colocatedWorkload: bool,
    criticalServices: seq<string>)

  const DefaultMaxAutoscale := 3

  /** `exp_name == "all" or exp.name == exp_name`. */
  predicate Wanted(expName: string, name: string) {
    expName == "all" || name == expName
  }

  /** The configured experiments the name keeps, in configuration order. */
  function Selected(configs: seq<ExperimentConfig>, expName: string): (r: seq<ExperimentConfig>)
    ensures |r| <= |configs|
  {
    if configs == [] then []
    else (if Wanted(expName, configs[0].name) then [configs[0]] else []) + Selected(configs[1..], expName)
  }

  /** One more configuration entry scanned: the selection so far grows by
      the entry exactly when it is wanted. */
  lemma SelectedStep(configs: seq<ExperimentConfig>, expName: string, i: nat, kept: seq<ExperimentConfig>)
    requires i < |configs| && Selected(configs, expName) == kept + Selected(configs[i..], expName)
    ensures Wanted(expName, configs[i].name) ==> Selected(configs, expName) == (kept + [configs[i]]) + Selected(configs[i + 1..], expName)
    ensures !Wanted(expName, configs[i].name) ==> Selected(configs, expName) == kept + Selected(configs[i + 1..], expName)
  {
    var rest := configs[i..];
    assert rest[0] == configs[i] && rest[1..] == configs[i + 1..];
    if Wanted(expName, configs[i].name) {
      assert Selected(rest, expName) == [configs[i]] + Selected(configs[i + 1..], expName);
      AppendAssoc(kept, [configs[i]], Selected(configs[i + 1..], expName));
    } else {
      assert Selected(rest, expName) == Selected(configs[i + 1..], expName);
    }
  }

  lemma AppendAssoc<T>(a: seq<T>, b: seq<T>, c: seq<T>)
    ensures a + (b + c) == (a + b) + c
  {
  }

  /** "all" keeps every configured experiment, in order. */
  lemma {:induction false} SelectAll(configs: seq<ExperimentConfig>)
    ensures Selected(configs, "all") == configs
  {
    if configs != [] {
      SelectAll(configs[1..]);
    }
  }

  /** Any other name keeps exactly the entries with that name. */
  lemma {:induction false} SelectByName(configs: seq<ExperimentConfig>, expName: string)
    requires expName != "all"
    ensures forall c :: c in Selected(configs, expName) <==> c in configs && c.name == expName
  {
    if configs != [] {
      SelectByName(configs[1..], expName);
      assert configs == [configs[0]] + configs[1..];
    }
  }

  /** The experiment built from a configuration entry: autoscaled on CPU. */
  function FromConfig(c: ExperimentConfig, namespace: string, env: Environments.Environment): (e: Experiment)
    ensures e.name == c.name && e.targetBranch == c.targetBranch && e.env == env
    ensures e.autoscaling == ScalingSettings.Member(ScalingSettings.CpuBound)
  {
    Experiment(c.name, c.targetBranch, namespace, c.criticalServices, c.colocatedWorkload,
               ScalingSettings.Member(ScalingSettings.CpuBound), DefaultMaxAutoscale, env)
  }

  /** The environments of `s`. */
  function EnvSet(s: seq<Experiment>): set<Environments.Environment> {
    set i | 0 <= i < |s| :: s[i].env
  }

  /** No two entries share an environment object. */
  predicate DistinctEnvs(s: seq<Experiment>) {
    forall i, j :: 0 <= i < j < |s| ==> s[i].env != s[j].env
  }

  lemma DistinctConcat(s: seq<Experiment>, t: seq<Experiment>)
    requires DistinctEnvs(s) && DistinctEnvs(t)
    requires forall i, j :: 0 <= i < |s| && 0 <= j < |t| ==> s[i].env != t[j].env
    ensures DistinctEnvs(s + t)
  {
    forall i, j | 0 <= i < j < |s + t|
      ensures (s + t)[i].env != (s + t)[j].env
    {
      if j >= |s| {
        assert (s + t)[j] == t[j - |s|];
        if i < |s| {
          assert (s + t)[i] == s[i];
        } else {
          assert (s + t)[i] == t[i - |s|];
        }
      } else {
        assert (s + t)[i] == s[i] && (s + t)[j] == s[j];
      }
    }
  }

  /** `"_".join([target_branch, name])`. */
  function SortKey(e: Experiment): string {
    e.targetBranch + "_" + e.name
  }

  predicate SameButEnv(a: Experiment, b: Experiment) {
    && a.name == b.name && a.targetBranch == b.targetBranch && a.namespace == b.namespace
    && a.criticalServices == b.criticalServices && a.colocatedWorkload == b.colocatedWorkload
    && a.autoscaling == b.autoscaling && a.maxAutoscale == b.maxAutoscale
  }

  /** The tags one `_set_workload(exp, w)` appends: "scale" from the copy
      when the experiment is autoscaled, then the workload's type. */
  function RoundTags(autoscaled: bool, w: ExperimentWorkloads.Workload): seq<string> {
    (if autoscaled then ["scale"] else []) + [w.kind.Value()]
  }

  /** `round` copies `es` in order, but for the environments. */
  predicate CopiesInOrder(round: seq<Experiment>, es: seq<Experiment>) {
    |round| == |es| && forall c :: 0 <= c < |round| ==> SameButEnv(round[c], es[c])
  }

  class ExperimentList {
    var experiments: seq<Experiment>

    constructor (experiments: seq<Experiment>)
      ensures this.experiments == experiments
    {
      this.experiments := experiments;
    }

    function Envs(): set<Environments.Environment>
      reads this
    {
      EnvSet(experiments)
    }

    ghost predicate Valid()
      reads this, Envs()
    {
      forall i :: 0 <= i < |experiments| ==> experiments[i].env.Valid()
    }

    /** `add_workloads` as written: the copies keep the environment object,
        so the list becomes the experiments once per workload, every
        environment ends with the last workload's settings and timeout, and
        keeps its other attributes. */
    method AddWorkloads(workloads: seq<ExperimentWorkloads.Workload>)
      modifies this, Envs()
      ensures experiments == Copies.Repeat(old(experiments), |workloads|)
      ensures forall i :: 0 <= i < |old(experiments)| ==> old(experiments)[i].env.others == old(experiments[i].env.others)
      ensures |workloads| > 0 ==> forall i :: 0 <= i < |old(experiments)| ==>
        ExperimentWorkloads.Settled(old(experiments)[i].env.workloadSettings, old(experiments)[i].env.timeoutDuration, workloads[|workloads| - 1])
    {
      experiments := SharedRounds(experiments, workloads);
    }

    /** `add_workloads` with each copy given its own copy of the environment.
        Entry `k` of the new list copies `origin[k]` (the experiments once per
        workload, as in the version as written) for workload `applied[k]`
        (each workload once per experiment, in order): its environment is new,
        holds exactly that workload's settings and timeout, and carries one
        more tag than the original's (no second "scale").  No two entries
        share an environment, and the original environments are left alone. */
    method AddWorkloadsIsolated(workloads: seq<ExperimentWorkloads.Workload>)
      returns (ghost origin: seq<Experiment>, ghost applied: seq<ExperimentWorkloads.Workload>)
      requires Valid()
      modifies this
      ensures origin == Copies.Repeat(old(experiments), |workloads|)
      ensures applied == Copies.Spread(workloads, |old(experiments)|)
      ensures |experiments| == |origin| == |applied| == |workloads| * |old(experiments)|
      ensures DistinctEnvs(experiments)
      ensures forall k :: 0 <= k < |experiments| ==>
        && fresh(experiments[k].env)
        && SameButEnv(experiments[k], origin[k])
        && ExperimentWorkloads.SetUpFrom(experiments[k].env, origin[k].env, applied[k])
    {
      var es := experiments;
      var out: seq<Experiment> := [];
      origin, applied := [], [];
      var a := 0;
      while a < |workloads|
        invariant 0 <= a <= |workloads|
        invariant origin == Copies.Repeat(es, a) && applied == Copies.Spread(workloads[..a], |es|)
        invariant |out| == |origin| == |applied| && DistinctEnvs(out)
        invariant forall k :: 0 <= k < |out| ==> fresh(out[k].env)
        invariant forall k :: 0 <= k < |out| ==>
          SameButEnv(out[k], origin[k]) && ExperimentWorkloads.SetUpFrom(out[k].env, origin[k].env, applied[k])
      {
        out := AppendRound(out, origin, applied, es, workloads[a]);
        Copies.RepeatSnoc(es, a);
        Copies.SpreadSnoc(workloads, a, |es|);
        origin, applied := origin + es, applied + seq(|es|, _ => workloads[a]);
        a := a + 1;
      }
      assert workloads[..a] == workloads;
      Copies.RepeatLength(es, a);
      experiments := out;
    }

    /** `sort`: ordered by branch and name, with the same experiments; the
        sort is stable, so experiments with equal keys keep their order. */
    method Sort()
      modifies this
      ensures Sorting.SortedBy(experiments, SortKey)
      ensures multiset(experiments) == multiset(old(experiments))
      ensures forall k :: Sorting.WithKey(experiments, SortKey, k) == Sorting.WithKey(old(experiments), SortKey, k)
    {
      experiments := Sorting.SortByKey(experiments, SortKey);
    }
  }

  /** The loop of `add_workloads` as written: one round of `_set_workload`
      per workload, over the same experiments and environments each time. */
  method SharedRounds(es: seq<Experiment>, workloads: seq<ExperimentWorkloads.Workload>) returns (out: seq<Experiment>)
    modifies EnvSet(es)
    ensures out == Copies.Repeat(es, |workloads|)
    ensures forall i :: 0 <= i < |es| ==> es[i].env.others == old(es[i].env.others)
    ensures |workloads| > 0 ==> forall i :: 0 <= i < |es| ==> ExperimentWorkloads.Settled(es[i].env.workloadSettings, es[i].env.timeoutDuration, workloads[|workloads| - 1])
  {
    out := [];
    var a := 0;
    while a < |workloads|
      invariant 0 <= a <= |workloads|
      invariant out == Copies.Repeat(es, a)
      invariant forall i :: 0 <= i < |es| ==> es[i].env.others == old(es[i].env.others)
      invariant a > 0 ==> forall i :: 0 <= i < |es| ==> ExperimentWorkloads.Settled(es[i].env.workloadSettings, es[i].env.timeoutDuration, workloads[a - 1])
    {
      var copies := SetWorkloadRound(es, workloads[a]);
      Copies.RepeatSnoc(es, a);
      out := out + copies;
      a := a + 1;
    }
    assert workloads[..a] == workloads;
  }

  /** `_set_workload(exp, w)`: the copy is the experiment itself, over the
      same environment, which gains "scale" (when autoscaled) and the
      workload's type and is set up by `w`. */
  method SetWorkloadCopy(e: Experiment, w: ExperimentWorkloads.Workload) returns (copy: Experiment)
    modifies e.env
    ensures copy == e
    ensures ExperimentWorkloads.Settled(e.env.workloadSettings, e.env.timeoutDuration, w) && e.env.others == old(e.env.others)
    ensures e.env.tags == old(e.env.tags) + RoundTags(e.autoscaling.Some?, w)
  {
    copy := DeepCopy(e);
    ExperimentWorkloads.SetWorkload(w, copy.env);
  }

  /** One round of `add_workloads` as written: `_set_workload(exp, w)` for
      every experiment in turn.  Each copy equals its experiment, and every
      environment ends up set up by `w`. */
  method SetWorkloadRound(es: seq<Experiment>, w: ExperimentWorkloads.Workload) returns (copies: seq<Experiment>)
    modifies EnvSet(es)
    ensures copies == es
    ensures forall i :: 0 <= i < |es| ==> es[i].env.others == old(es[i].env.others)
    ensures forall i :: 0 <= i < |es| ==> ExperimentWorkloads.Settled(es[i].env.workloadSettings, es[i].env.timeoutDuration, w)
  {
    ghost var table, timeout := ExperimentWorkloads.Settings(w), w.loadGeneratorDuration + 60;
    copies := [];
    var b := 0;
    while b < |es|
      invariant 0 <= b <= |es| && copies == es[..b]
      invariant forall i :: 0 <= i < |es| ==> es[i].env.others == old(es[i].env.others)
      invariant forall i :: 0 <= i < b ==> es[i].env.workloadSettings == table && es[i].env.timeoutDuration == timeout
    {
      var copy := SetWorkloadCopy(es[b], w);
      assert es[..b + 1] == es[..b] + [es[b]];
      copies := copies + [copy];
      b := b + 1;
    }
  }

  /** A round of the corrected `add_workloads` appended to the entries built
      so far: the new entries copy `es` for workload `w`, each with a new
      environment, and the earlier entries are kept. */
  method AppendRound(out: seq<Experiment>, ghost origin: seq<Experiment>, ghost applied: seq<ExperimentWorkloads.Workload>,
                     es: seq<Experiment>, w: ExperimentWorkloads.Workload) returns (out': seq<Experiment>)
    requires forall i :: 0 <= i < |es| ==> es[i].env.Valid()
    requires |out| == |origin| == |applied| && DistinctEnvs(out)
    requires forall k :: 0 <= k < |out| ==>
      SameButEnv(out[k], origin[k]) && ExperimentWorkloads.SetUpFrom(out[k].env, origin[k].env, applied[k])
    ensures |out'| == |out| + |es| && out'[..|out|] == out && DistinctEnvs(out')
    ensures forall k :: |out| <= k < |out'| ==> fresh(out'[k].env)
    ensures forall k :: 0 <= k < |out'| ==>
      SameButEnv(out'[k], (origin + es)[k]) && ExperimentWorkloads.SetUpFrom(out'[k].env, (origin + es)[k].env, (applied + seq(|es|, _ => w))[k])
  {
    var round := IsolatedCopies(es, w);
    assert forall i, j :: 0 <= i < |out| && 0 <= j < |round| ==> out[i].env != round[j].env;
    DistinctConcat(out, round);
    out' := out + round;
    forall k | 0 <= k < |out'|
      ensures SameButEnv(out'[k], (origin + es)[k]) && ExperimentWorkloads.SetUpFrom(out'[k].env, (origin + es)[k].env, (applied + seq(|es|, _ => w))[k])
    {
      if k >= |out| {
        assert out'[k] == round[k - |out|] && (origin + es)[k] == es[k - |out|];
      }
    }
  }

  /** With at least one experiment and two workloads, `add_workloads` as
      written lists the same environment object twice. */
  lemma CopiesShareEnvironments(es: seq<Experiment>, workloads: seq<ExperimentWorkloads.Workload>)
    requires |es| > 0 && |workloads| >= 2
    ensures !DistinctEnvs(Copies.Repeat(es, |workloads|))
  {
    var r := Copies.Repeat(es, |workloads|);
    assert Copies.Repeat(es, |workloads| - 1) == es + Copies.Repeat(es, |workloads| - 2);
    assert r[0] == es[0] && r[|es|] == es[0];
  }

  /** A new environment with the same attributes. */
  method CopyEnvironment(e: Environments.Environment) returns (c: Environments.Environment)
    requires e.Valid()
    ensures fresh(c) && c.Valid()
    ensures c.tags == e.tags && c.workloadSettings == e.workloadSettings
    ensures c.timeoutDuration == e.timeoutDuration && c.others == e.others
  {
    c := new Environments.Environment(e.tags, e.timeoutDuration, e.others);
    c.workloadSettings := e.workloadSettings;
  }

  /** One round of the corrected `add_workloads`. */
  method IsolatedCopies(es: seq<Experiment>, w: ExperimentWorkloads.Workload) returns (round: seq<Experiment>)
    requires forall i :: 0 <= i < |es| ==> es[i].env.Valid()
    ensures CopiesInOrder(round, es)
    ensures forall c :: 0 <= c < |round| ==> ExperimentWorkloads.SetUpFrom(round[c].env, es[c].env, w)
    ensures DistinctEnvs(round)
    ensures forall i :: 0 <= i < |round| ==> fresh(round[i].env)
  {
    round := [];
    var b := 0;
    while b < |es|
      invariant 0 <= b <= |es| && |round| == b
      invariant DistinctEnvs(round)
      invariant forall c :: 0 <= c < b ==>
        && fresh(round[c].env)
        && SameButEnv(round[c], es[c])
        && ExperimentWorkloads.SetUpFrom(round[c].env, es[c].env, w)
    {
      var env := CopyEnvironment(es[b].env);
      ExperimentWorkloads.SetWorkload(w, env);
      round := round + [es[b].(env := env)];
      b := b + 1;
    }
  }

  /** `load_experiments`: one CPU-autoscaled experiment per selected entry,
      in configuration order, each with a new environment of its own whose
      tags gained "scale". */
  /** `e` is the experiment built from `c` over a new environment holding the
      given tags, "scale", the timeout and attributes, and no workload
      settings. */
  ghost predicate Loaded(e: Experiment, c: ExperimentConfig, namespace: string, envTags: seq<string>, timeout: int,
                         attrs: PyDict.Dict<Environments.Attr>)
    reads e.env
  {
    && e == FromConfig(c, namespace, e.env) && e.env.Valid()
    && e.env.tags == envTags + ["scale"] && e.env.timeoutDuration == timeout
    && e.env.workloadSettings == [] && e.env.others == attrs
  }

  /** The body of the loop of `load_experiments`: a new environment, and the
      experiment built over it, which tags it "scale". */
  method NewLoaded(c: ExperimentConfig, namespace: string, envTags: seq<string>, timeout: int,
                   attrs: PyDict.Dict<Environments.Attr>) returns (e: Experiment)
    requires PyDict.WellFormed(attrs)
    requires !PyDict.HasKey(attrs, Environments.TagsKey) && !PyDict.HasKey(attrs, Environments.SettingsKey)
    requires !PyDict.HasKey(attrs, Environments.TimeoutKey)
    ensures fresh(e.env) && Loaded(e, c, namespace, envTags, timeout, attrs)
  {
    var env := new Environments.Environment(envTags, timeout, attrs);
    e := NewExperiment(c.name, c.targetBranch, namespace, c.criticalServices, c.colocatedWorkload,
                       ScalingSettings.Member(ScalingSettings.CpuBound), DefaultMaxAutoscale, env);
  }

  method LoadExperiments(configs: seq<ExperimentConfig>, expName: string, namespace: string,
                         envTags: seq<string>, timeout: int, attrs: PyDict.Dict<Environments.Attr>)
    returns (list: ExperimentList)
    requires PyDict.WellFormed(attrs)
    requires !PyDict.HasKey(attrs, Environments.TagsKey) && !PyDict.HasKey(attrs, Environments.SettingsKey)
    requires !PyDict.HasKey(attrs, Environments.TimeoutKey)
    ensures fresh(list)
    ensures |list.experiments| == |Selected(configs, expName)|
    ensures forall i :: 0 <= i < |list.experiments| ==>
      && list.experiments[i] == FromConfig(Selected(configs, expName)[i], namespace, list.experiments[i].env)
      && fresh(list.experiments[i].env) && list.experiments[i].env.Valid()
      && list.experiments[i].env.tags == envTags + ["scale"] && list.experiments[i].env.timeoutDuration == timeout
      && list.experiments[i].env.workloadSettings == [] && list.experiments[i].env.others == attrs
    ensures DistinctEnvs(list.experiments)
  {
    var es: seq<Experiment> := [];
    ghost var kept: seq<ExperimentConfig> := [];
    var i := 0;
    while i < |configs|
      invariant 0 <= i <= |configs|
      invariant Selected(configs, expName) == kept + Selected(configs[i..], expName)
      invariant |es| == |kept| && DistinctEnvs(es)
      invariant forall k :: 0 <= k < |es| ==> fresh(es[k].env) && Loaded(es[k], kept[k], namespace, envTags, timeout, attrs)
    {
      var c := configs[i];
      var e := NewLoaded(c, namespace, envTags, timeout, attrs);
      SelectedStep(configs, expName, i, kept);
      if Wanted(expName, c.name) {
        assert forall k :: 0 <= k < |es| ==> es[k].env != e.env;
        DistinctConcat(es, [e]);
        es := es + [e];
        kept := kept + [c];
      }
      i := i + 1;
    }
    assert configs[i..] == [] && kept + [] == kept;
    assert AllLoaded(es, kept, namespace, envTags, timeout, attrs);
    list := new ExperimentList(es);
  }

  /** Each of `es` was loaded from the entry of `kept` at its position. */
  ghost predicate AllLoaded(es: seq<Experiment>, kept: seq<ExperimentConfig>, namespace: string, envTags: seq<string>,
                            timeout: int, attrs: PyDict.Dict<Environments.Attr>)
    reads EnvSet(es)
  {
    |es| == |kept| && forall k :: 0 <= k < |es| ==> Loaded(es[k], kept[k], namespace, envTags, timeout, attrs)
  }
}
