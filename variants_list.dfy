/** `VariantsList`: the variants selected from the configuration, expanded
    once per workload and sorted by branch and name.  The list is a field the
    operations reassign; the variants' environments are shared heap objects,
    and `add_workloads` updates them in place. */
module VariantsLists {
  import opened Wrappers
  import Text
  import PyDict
  import ScalingSettings
  import Environments
  import ExperimentWorkloads
  import Sorting
  import Copies
  import opened Variants

  /** One entry of the variants configuration; `autoscaling` is a required
      string that is not checked against the enum. */
  datatype VariantConfig = VariantConfig(
    name: string,
    targetBranch: string,
    colocatedWorkload: bool,
    autoscaling: string,
    criticalServices: seq<string>)

  /** `max_autoscale`'s default. */
  const DefaultMaxAutoscale := 3

  /** `[n.strip() for n in parts if n.strip()]`. */
  function StrippedNames(parts: seq<string>): (names: seq<string>)
    ensures |names| <= |parts|
  {
    if parts == [] then []
    else (if Text.Strip(parts[0]) != [] then [Text.Strip(parts[0])] else []) + StrippedNames(parts[1..])
  }

  /** A name is selected exactly when it is non-empty and some piece strips to it. */
  lemma {:induction false} StrippedNamesMembership(parts: seq<string>, n: string)
    ensures n in StrippedNames(parts) <==> n != [] && exists i :: 0 <= i < |parts| && Text.Strip(parts[i]) == n
  {
    if parts != [] {
      StrippedNamesMembership(parts[1..], n);
      if n != [] && exists i :: 0 <= i < |parts| && Text.Strip(parts[i]) == n {
        var i :| 0 <= i < |parts| && Text.Strip(parts[i]) == n;
        if i > 0 {
          assert Text.Strip(parts[1..][i - 1]) == n;
        }
      }
      if exists i :: 0 <= i < |parts[1..]| && Text.Strip(parts[1..][i]) == n {
        var i :| 0 <= i < |parts[1..]| && Text.Strip(parts[1..][i]) == n;
        assert Text.Strip(parts[i + 1]) == n;
      }
    }
  }

  /** Names that are non-empty and already stripped pass unchanged. */
  lemma {:induction false} StrippedNamesOfTrimmed(parts: seq<string>)
    requires forall i :: 0 <= i < |parts| ==> parts[i] != [] && !Text.IsSpace(parts[i][0]) && !Text.IsSpace(parts[i][|parts[i]| - 1])
    ensures StrippedNames(parts) == parts
  {
    if parts != [] {
      Text.StripTrimmed(parts[0]);
      StrippedNamesOfTrimmed(parts[1..]);
      assert [parts[0]] + parts[1..] == parts;
    }
  }

  /** `names`: none for "all", otherwise the comma-separated names. */
  function SelectorNames(selector: string): Option<seq<string>> {
    if selector == "all" then None else Some(StrippedNames(Text.Split(selector, ",")))
  }

  /** `names is None or exp.name in names`. */
  predicate Wanted(names: Option<seq<string>>, name: string) {
    names.None? || name in names.value
  }

  /** The configured variants the selector keeps, in configuration order. */
  function Selected(configs: seq<VariantConfig>, names: Option<seq<string>>): (r: seq<VariantConfig>)
    ensures |r| <= |configs|
  {
    if configs == [] then []
    else (if Wanted(names, configs[0].name) then [configs[0]] else []) + Selected(configs[1..], names)
  }

  lemma {:induction false} SelectedMembership(configs: seq<VariantConfig>, names: Option<seq<string>>, c: VariantConfig)
    ensures c in Selected(configs, names) <==> c in configs && Wanted(names, c.name)
  {
    if configs != [] {
      SelectedMembership(configs[1..], names, c);
      assert configs == [configs[0]] + configs[1..];
    }
  }

  /** One more configuration entry scanned: the selection so far grows by
      the entry exactly when it is wanted. */
  lemma SelectedStep(configs: seq<VariantConfig>, names: Option<seq<string>>, i: nat, kept: seq<VariantConfig>)
    requires i < |configs| && Selected(configs, names) == kept + Selected(configs[i..], names)
    ensures Wanted(names, configs[i].name) ==> Selected(configs, names) == (kept + [configs[i]]) + Selected(configs[i + 1..], names)
    ensures !Wanted(names, configs[i].name) ==> Selected(configs, names) == kept + Selected(configs[i + 1..], names)
  {
    var rest := configs[i..];
    assert rest[0] == configs[i] && rest[1..] == configs[i + 1..];
    if Wanted(names, configs[i].name) {
      assert Selected(rest, names) == [configs[i]] + Selected(configs[i + 1..], names);
      AppendAssoc(kept, [configs[i]], Selected(configs[i + 1..], names));
    } else {
      assert Selected(rest, names) == Selected(configs[i + 1..], names);
    }
  }

  lemma AppendAssoc<T>(a: seq<T>, b: seq<T>, c: seq<T>)
    ensures a + (b + c) == (a + b) + c
  {
  }

  /** "all" keeps every configured variant, in order. */
  lemma {:induction false} SelectAll(configs: seq<VariantConfig>)
    ensures Selected(configs, SelectorNames("all")) == configs
  {
    if configs != [] {
      SelectAll(configs[1..]);
    }
  }

  /** A name listed with blanks around it, among other names, is selected. */
  lemma NamedVariantSelected(configs: seq<VariantConfig>, selector: string, c: VariantConfig, i: nat)
    requires c in configs && c.name != []
    requires var parts := Text.Split(selector, ","); i < |parts| && Text.Strip(parts[i]) == c.name
    ensures c in Selected(configs, SelectorNames(selector))
  {
    StrippedNamesMembership(Text.Split(selector, ","), c.name);
    SelectedMembership(configs, SelectorNames(selector), c);
  }

  /** The variant built from a configuration entry: the entry's fields, the
      configuration's namespace, the default `max_autoscale`, and the
      autoscaling text passed on as it is. */
  function FromConfig(c: VariantConfig, namespace: string, env: Environments.Environment): (v: Variant)
    ensures v.name == c.name && v.targetBranch == c.targetBranch && v.env == env
    ensures v.namespace == namespace && v.criticalServices == c.criticalServices
    ensures v.colocatedWorkload == c.colocatedWorkload && v.maxAutoscale == DefaultMaxAutoscale
    ensures v.autoscaling == Some(c.autoscaling)
  {
    Variant(c.name, c.targetBranch, namespace, c.criticalServices, c.colocatedWorkload, Some(c.autoscaling),
            DefaultMaxAutoscale, env)
  }

  /** The environments of `s`. */
  function EnvSet(s: seq<Variant>): set<Environments.Environment> {
    set i | 0 <= i < |s| :: s[i].env
  }

  /** No two entries share an environment object. */
  predicate DistinctEnvs(s: seq<Variant>) {
    forall i, j :: 0 <= i < j < |s| ==> s[i].env != s[j].env
  }

  lemma DistinctConcat(s: seq<Variant>, t: seq<Variant>)
    requires DistinctEnvs(s) && DistinctEnvs(t)
    requires forall i, j :: 0 <= i < |s| && 0 <= j < |t| ==> s[i].env != t[j].env
    ensures DistinctEnvs(s + t)
  {
    forall i, j | 0 <= i < j < |s + t|
      ensures (s + t)[i].env != (s + t)[j].env
    {
      if j >= |s| {
        assert (s + t)[j] == t[j - |s|];
        if i < |s| {
          assert (s + t)[i] == s[i];
        } else {
          assert (s + t)[i] == t[i - |s|];
        }
      } else {
        assert (s + t)[i] == s[i] && (s + t)[j] == s[j];
      }
    }
  }

  /** `"_".join([target_branch, name])`. */
  function SortKey(v: Variant): string {
    v.targetBranch + "_" + v.name
  }

  /** Two variants are the same but for their environments. */
  predicate SameButEnv(a: Variant, b: Variant) {
    && a.name == b.name && a.targetBranch == b.targetBranch && a.namespace == b.namespace
    && a.criticalServices == b.criticalServices && a.colocatedWorkload == b.colocatedWorkload
    && a.autoscaling == b.autoscaling && a.maxAutoscale == b.maxAutoscale
  }

  class VariantsList {
    var variants: seq<Variant>

    constructor (variants: seq<Variant>)
      ensures this.variants == variants
    {
      this.variants := variants;
    }

    /** The environments of the listed variants. */
    function Envs(): set<Environments.Environment>
      reads this
    {
      EnvSet(variants)
    }

    /** Every environment is well formed. */
    ghost predicate Valid()
      reads this, Envs()
    {
      forall i :: 0 <= i < |variants| ==> variants[i].env.Valid()
    }

    /** `add_workloads` as written: each copy made by `_set_workload` is a
        `__deepcopy__` that keeps the environment object, so the list becomes
        the variants once per workload, and each environment has seen every
        workload in turn: it ends with the last workload's settings and
        timeout, and keeps its other attributes. */
    method AddWorkloads(workloads: seq<ExperimentWorkloads.Workload>)
      modifies this, Envs()
      ensures variants == Copies.Repeat(old(variants), |workloads|)
      ensures forall i :: 0 <= i < |old(variants)| ==> old(variants)[i].env.others == old(variants[i].env.others)
      ensures |workloads| > 0 ==> forall i :: 0 <= i < |old(variants)| ==>
        ExperimentWorkloads.Settled(old(variants)[i].env.workloadSettings, old(variants)[i].env.timeoutDuration, workloads[|workloads| - 1])
    {
      variants := SharedRounds(variants, workloads);
    }

    /** `add_workloads` with each copy given its own copy of the environment.
        Entry `k` of the new list copies `origin[k]` (the variants once per
        workload, as in the version as written) for workload `applied[k]`
        (each workload once per variant, in order): its environment is new,
        and holds exactly that workload's settings and timeout and one more
        tag than the original's.  No two entries share an environment, and
        the original environments are left alone. */
    method AddWorkloadsIsolated(workloads: seq<ExperimentWorkloads.Workload>)
      returns (ghost origin: seq<Variant>, ghost applied: seq<ExperimentWorkloads.Workload>)
      requires Valid()
      modifies this
      ensures origin == Copies.Repeat(old(variants), |workloads|)
      ensures applied == Copies.Spread(workloads, |old(variants)|)
      ensures |variants| == |origin| == |applied| == |workloads| * |old(variants)|
      ensures DistinctEnvs(variants)
      ensures forall k :: 0 <= k < |variants| ==>
        && fresh(variants[k].env)
        && SameButEnv(variants[k], origin[k])
        && ExperimentWorkloads.SetUpFrom(variants[k].env, origin[k].env, applied[k])
    {
      var vs := variants;
      var out: seq<Variant> := [];
      origin, applied := [], [];
      var a := 0;
      while a < |workloads|
        invariant 0 <= a <= |workloads|
        invariant origin == Copies.Repeat(vs, a) && applied == Copies.Spread(workloads[..a], |vs|)
        invariant |out| == |origin| == |applied| && DistinctEnvs(out)
        invariant forall k :: 0 <= k < |out| ==> fresh(out[k].env)
        invariant forall k :: 0 <= k < |out| ==>
          SameButEnv(out[k], origin[k]) && ExperimentWorkloads.SetUpFrom(out[k].env, origin[k].env, applied[k])
      {
        out := AppendRound(out, origin, applied, vs, workloads[a]);
        Copies.RepeatSnoc(vs, a);
        Copies.SpreadSnoc(workloads, a, |vs|);
        origin, applied := origin + vs, applied + seq(|vs|, _ => workloads[a]);
        a := a + 1;
      }
      assert workloads[..a] == workloads;
      Copies.RepeatLength(vs, a);
      variants := out;
    }

    /** `sort`: ordered by branch and name, with the same variants; the
        sort is stable, so variants with equal keys keep their order. */
    method Sort()
      modifies this
      ensures Sorting.SortedBy(variants, SortKey)
      ensures multiset(variants) == multiset(old(variants))
      ensures forall k :: Sorting.WithKey(variants, SortKey, k) == Sorting.WithKey(old(variants), SortKey, k)
    {
      variants := Sorting.SortByKey(variants, SortKey);
    }
  }

  /** `round` copies `vs` in order, but for the environments. */
  predicate CopiesInOrder(round: seq<Variant>, vs: seq<Variant>) {
    |round| == |vs| && forall c :: 0 <= c < |round| ==> SameButEnv(round[c], vs[c])
  }

  /** The loop of `add_workloads` as written: one round of `_set_workload`
      per workload, over the same variants and environments each time. */
  method SharedRounds(vs: seq<Variant>, workloads: seq<ExperimentWorkloads.Workload>) returns (out: seq<Variant>)
    modifies EnvSet(vs)
    ensures out == Copies.Repeat(vs, |workloads|)
    ensures forall i :: 0 <= i < |vs| ==> vs[i].env.others == old(vs[i].env.others)
    ensures |workloads| > 0 ==> forall i :: 0 <= i < |vs| ==> ExperimentWorkloads.Settled(vs[i].env.workloadSettings, vs[i].env.timeoutDuration, workloads[|workloads| - 1])
  {
    out := [];
    var a := 0;
    while a < |workloads|
      invariant 0 <= a <= |workloads|
      invariant out == Copies.Repeat(vs, a)
      invariant forall i :: 0 <= i < |vs| ==> vs[i].env.others == old(vs[i].env.others)
      invariant a > 0 ==> forall i :: 0 <= i < |vs| ==> ExperimentWorkloads.Settled(vs[i].env.workloadSettings, vs[i].env.timeoutDuration, workloads[a - 1])
    {
      var copies := SetWorkloadRound(vs, workloads[a]);
      Copies.RepeatSnoc(vs, a);
      out := out + copies;
      a := a + 1;
    }
    assert workloads[..a] == workloads;
  }

  /** `_set_workload(exp, w)`: the copy is the variant itself, over the same
      environment, which `w` sets up and tags with its type. */
  method SetWorkloadCopy(v: Variant, w: ExperimentWorkloads.Workload) returns (copy: Variant)
    modifies v.env
    ensures copy == v
    ensures ExperimentWorkloads.Settled(v.env.workloadSettings, v.env.timeoutDuration, w) && v.env.others == old(v.env.others)
    ensures v.env.tags == old(v.env.tags) + [w.kind.Value()]
  {
    copy := v.DeepCopy();
    ExperimentWorkloads.SetWorkload(w, copy.env);
  }

  /** One round of `add_workloads` as written: `_set_workload(exp, w)` for
      every variant in turn.  The copies are the variants themselves, and
      every environment ends up set up by `w`. */
  method SetWorkloadRound(vs: seq<Variant>, w: ExperimentWorkloads.Workload) returns (copies: seq<Variant>)
    modifies EnvSet(vs)
    ensures copies == vs
    ensures forall i :: 0 <= i < |vs| ==> vs[i].env.others == old(vs[i].env.others)
    ensures forall i :: 0 <= i < |vs| ==> ExperimentWorkloads.Settled(vs[i].env.workloadSettings, vs[i].env.timeoutDuration, w)
  {
    ghost var table, timeout := ExperimentWorkloads.Settings(w), w.loadGeneratorDuration + 60;
    copies := [];
    var b := 0;
    while b < |vs|
      invariant 0 <= b <= |vs| && copies == vs[..b]
      invariant forall i :: 0 <= i < |vs| ==> vs[i].env.others == old(vs[i].env.others)
      invariant forall i :: 0 <= i < b ==> vs[i].env.workloadSettings == table && vs[i].env.timeoutDuration == timeout
    {
      var copy := SetWorkloadCopy(vs[b], w);
      assert vs[..b + 1] == vs[..b] + [vs[b]];
      copies := copies + [copy];
      b := b + 1;
    }
  }

  /** One round of the corrected `add_workloads`: each variant copied with a
      new environment that `w` then sets up. */
  method IsolatedCopies(vs: seq<Variant>, w: ExperimentWorkloads.Workload) returns (round: seq<Variant>)
    requires forall i :: 0 <= i < |vs| ==> vs[i].env.Valid()
    ensures CopiesInOrder(round, vs)
    ensures forall c :: 0 <= c < |round| ==> ExperimentWorkloads.SetUpFrom(round[c].env, vs[c].env, w)
    ensures DistinctEnvs(round)
    ensures forall i :: 0 <= i < |round| ==> fresh(round[i].env)
  {
    round := [];
    var b := 0;
    while b < |vs|
      invariant 0 <= b <= |vs| && |round| == b
      invariant DistinctEnvs(round)
      invariant forall c :: 0 <= c < b ==>
        && fresh(round[c].env)
        && SameButEnv(round[c], vs[c])
        && ExperimentWorkloads.SetUpFrom(round[c].env, vs[c].env, w)
    {
      var env := CopyEnvironment(vs[b].env);
      ExperimentWorkloads.SetWorkload(w, env);
      round := round + [vs[b].(env := env)];
      b := b + 1;
    }
  }

  /** A round of the corrected `add_workloads` appended to the entries built
      so far: the new entries copy `vs` for workload `w`, each with a new
      environment, and the earlier entries are kept. */
  method AppendRound(out: seq<Variant>, ghost origin: seq<Variant>, ghost applied: seq<ExperimentWorkloads.Workload>,
                     vs: seq<Variant>, w: ExperimentWorkloads.Workload) returns (out': seq<Variant>)
    requires forall i :: 0 <= i < |vs| ==> vs[i].env.Valid()
    requires |out| == |origin| == |applied| && DistinctEnvs(out)
    requires forall k :: 0 <= k < |out| ==>
      SameButEnv(out[k], origin[k]) && ExperimentWorkloads.SetUpFrom(out[k].env, origin[k].env, applied[k])
    ensures |out'| == |out| + |vs| && out'[..|out|] == out && DistinctEnvs(out')
    ensures forall k :: |out| <= k < |out'| ==> fresh(out'[k].env)
    ensures forall k :: 0 <= k < |out'| ==>
      SameButEnv(out'[k], (origin + vs)[k]) && ExperimentWorkloads.SetUpFrom(out'[k].env, (origin + vs)[k].env, (applied + seq(|vs|, _ => w))[k])
  {
    var round := IsolatedCopies(vs, w);
    assert forall i, j :: 0 <= i < |out| && 0 <= j < |round| ==> out[i].env != round[j].env;
    DistinctConcat(out, round);
    out' := out + round;
    forall k | 0 <= k < |out'|
      ensures SameButEnv(out'[k], (origin + vs)[k]) && ExperimentWorkloads.SetUpFrom(out'[k].env, (origin + vs)[k].env, (applied + seq(|vs|, _ => w))[k])
    {
      if k >= |out| {
        assert out'[k] == round[k - |out|] && (origin + vs)[k] == vs[k - |out|];
      }
    }
  }

  /** With at least one variant and two workloads, `add_workloads` as written
      lists the same environment object twice, so two entries meant for
      different workloads run with one set of settings. */
  lemma CopiesShareEnvironments(vs: seq<Variant>, workloads: seq<ExperimentWorkloads.Workload>)
    requires |vs| > 0 && |workloads| >= 2
    ensures !DistinctEnvs(Copies.Repeat(vs, |workloads|))
  {
    var r := Copies.Repeat(vs, |workloads|);
    assert Copies.Repeat(vs, |workloads| - 1) == vs + Copies.Repeat(vs, |workloads| - 2);
    assert r[0] == vs[0] && r[|vs|] == vs[0];
  }

  /** A new environment with the same attributes. */
  method CopyEnvironment(e: Environments.Environment) returns (c: Environments.Environment)
    requires e.Valid()
    ensures fresh(c) && c.Valid()
    ensures c.tags == e.tags && c.workloadSettings == e.workloadSettings
    ensures c.timeoutDuration == e.timeoutDuration && c.others == e.others
  {
    c := new Environments.Environment(e.tags, e.timeoutDuration, e.others);
    c.workloadSettings := e.workloadSettings;
  }

  /** The `Variant(...)` call of `load_variants`, over a new environment. */
  /** `v` is the variant built from `c` over a new environment holding the
      given tags, timeout and attributes and no workload settings. */
  ghost predicate Loaded(v: Variant, c: VariantConfig, namespace: string, envTags: seq<string>, timeout: int,
                         attrs: PyDict.Dict<Environments.Attr>)
    reads v.env
  {
    && v == FromConfig(c, namespace, v.env) && v.env.Valid()
    && v.env.tags == envTags && v.env.timeoutDuration == timeout
    && v.env.workloadSettings == [] && v.env.others == attrs
  }

  method NewVariant(c: VariantConfig, namespace: string, envTags: seq<string>, timeout: int,
                    attrs: PyDict.Dict<Environments.Attr>) returns (v: Variant)
    requires PyDict.WellFormed(attrs)
    requires !PyDict.HasKey(attrs, Environments.TagsKey) && !PyDict.HasKey(attrs, Environments.SettingsKey)
    requires !PyDict.HasKey(attrs, Environments.TimeoutKey)
    ensures fresh(v.env) && Loaded(v, c, namespace, envTags, timeout, attrs)
  {
    var env := new Environments.Environment(envTags, timeout, attrs);
    v := FromConfig(c, namespace, env);
  }

  /** `load_variants`: one variant per selected configuration entry, in
      configuration order, each with a new environment of its own. */
  method LoadVariants(configs: seq<VariantConfig>, selector: string, namespace: string,
                      envTags: seq<string>, timeout: int, attrs: PyDict.Dict<Environments.Attr>)
    returns (list: VariantsList)
    requires PyDict.WellFormed(attrs)
    requires !PyDict.HasKey(attrs, Environments.TagsKey) && !PyDict.HasKey(attrs, Environments.SettingsKey)
    requires !PyDict.HasKey(attrs, Environments.TimeoutKey)
    ensures fresh(list)
    ensures |list.variants| == |Selected(configs, SelectorNames(selector))|
    ensures forall i :: 0 <= i < |list.variants| ==>
      && list.variants[i] == FromConfig(Selected(configs, SelectorNames(selector))[i], namespace, list.variants[i].env)
      && fresh(list.variants[i].env) && list.variants[i].env.Valid()
      && list.variants[i].env.tags == envTags && list.variants[i].env.timeoutDuration == timeout
      && list.variants[i].env.workloadSettings == [] && list.variants[i].env.others == attrs
    ensures DistinctEnvs(list.variants)
  {
    var names := SelectorNames(selector);
    list := LoadNamed(configs, names, namespace, envTags, timeout, attrs);
  }

  /** The loop of `load_variants` once the selector is parsed. */
  method LoadNamed(configs: seq<VariantConfig>, names: Option<seq<string>>, namespace: string,
                   envTags: seq<string>, timeout: int, attrs: PyDict.Dict<Environments.Attr>)
    returns (list: VariantsList)
    requires PyDict.WellFormed(attrs)
    requires !PyDict.HasKey(attrs, Environments.TagsKey) && !PyDict.HasKey(attrs, Environments.SettingsKey)
    requires !PyDict.HasKey(attrs, Environments.TimeoutKey)
    ensures fresh(list)
    ensures |list.variants| == |Selected(configs, names)|
    ensures forall i :: 0 <= i < |list.variants| ==>
      && list.variants[i] == FromConfig(Selected(configs, names)[i], namespace, list.variants[i].env)
      && fresh(list.variants[i].env) && list.variants[i].env.Valid()
      && list.variants[i].env.tags == envTags && list.variants[i].env.timeoutDuration == timeout
      && list.variants[i].env.workloadSettings == [] && list.variants[i].env.others == attrs
    ensures DistinctEnvs(list.variants)
  {
    var vs: seq<Variant> := [];
    ghost var kept: seq<VariantConfig> := [];
    var i := 0;
    while i < |configs|
      invariant 0 <= i <= |configs|
      invariant Selected(configs, names) == kept + Selected(configs[i..], names)
      invariant |vs| == |kept| && DistinctEnvs(vs)
      invariant forall k :: 0 <= k < |vs| ==> fresh(vs[k].env) && Loaded(vs[k], kept[k], namespace, envTags, timeout, attrs)
    {
      var v := NewVariant(configs[i], namespace, envTags, timeout, attrs);
      SelectedStep(configs, names, i, kept);
      if Wanted(names, configs[i].name) {
        assert forall k :: 0 <= k < |vs| ==> vs[k].env != v.env;
        DistinctConcat(vs, [v]);
        vs := vs + [v];
        kept := kept + [configs[i]];
      }
      i := i + 1;
    }
    assert configs[i..] == [] && kept + [] == kept;
    assert AllLoaded(vs, kept, namespace, envTags, timeout, attrs);
    list := new VariantsList(vs);
  }

  /** Each of `vs` was loaded from the entry of `kept` at its position. */
  ghost predicate AllLoaded(vs: seq<Variant>, kept: seq<VariantConfig>, namespace: string, envTags: seq<string>,
                            timeout: int, attrs: PyDict.Dict<Environments.Attr>)
    reads EnvSet(vs)
  {
    |vs| == |kept| && forall k :: 0 <= k < |vs| ==> Loaded(vs[k], kept[k], namespace, envTags, timeout, attrs)
  }
}
