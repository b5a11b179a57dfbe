/** The deployer's `HelmWrapper`: a temporary copy of the SUT's chart, the
    replacement of strings in its values file, and the checks around
    `helm upgrade --install`.  The file system is the wrapper's own state
    (the content of the active values file); copying the chart, running helm
    and reading its output are parameters. */
module ChartWrapper {
  import opened Wrappers
  import opened ScalingSettings
  import opened HelmReplacements
  import Text

  /** The placeholder a replacement's new value carries for the variant's
      image tag. */
  const Tag: string := "__EXPERIMENT_TAG__"

  /** The exceptions the wrapper raises. */
  datatype HelmError = FileNotFound(path: string) | RuntimeError(message: string)
                     | AttributeError  // a method of `None` was called

  /** One replacement applied to the values text: a new value with the
      placeholder gets the branch substituted (the replacement itself keeps
      the substituted value) and is applied whatever its conditions; any
      other replacement is applied only when it should be. */
  function ApplyOne(values: string, r: HelmReplacement, branch: string,
                    setting: Autoscaling): (out: (string, HelmReplacement))
    ensures out.1.oldValue == r.oldValue && out.1.conditions == r.conditions
    ensures Text.Contains(r.newValue, Tag) ==>
              out.1.newValue == Text.Replace(r.newValue, Tag, branch) &&
              out.0 == Text.Replace(values, r.oldValue, out.1.newValue)
    ensures !Text.Contains(r.newValue, Tag) ==>
              out.1 == r &&
              out.0 == (if ShouldApply(r, setting) then Text.Replace(values, r.oldValue, r.newValue) else values)
  {
    if Text.Contains(r.newValue, Tag) then
      var tagged := r.(newValue := Text.Replace(r.newValue, Tag, branch));
      (Text.Replace(values, r.oldValue, tagged.newValue), tagged)
    else if ShouldApply(r, setting) && Text.Count(values, r.oldValue) > 0 then
      (Text.Replace(values, r.oldValue, r.newValue), r)
    else
      if ShouldApply(r, setting) then
        Text.ReplaceAbsent(values, r.oldValue, r.newValue);
        (values, r)
      else (values, r)
  }

  /** The replacements applied in list order: the final text and the list as
      the loop leaves it. */
  function ApplyAll(values: string, rs: seq<HelmReplacement>, branch: string,
                    setting: Autoscaling): (out: (string, seq<HelmReplacement>))
    ensures |out.1| == |rs|
    decreases |rs|
  {
    if rs == [] then (values, [])
    else
      var front := ApplyAll(values, rs[..|rs| - 1], branch, setting);
      var last := ApplyOne(front.0, rs[|rs| - 1], branch, setting);
      (last.0, front.1 + [last.1])
  }

  /** Applying the first `i + 1` replacements is applying the first `i`, then
      replacement `i`. */
  lemma ApplyAllSnoc(values: string, rs: seq<HelmReplacement>, i: nat, branch: string,
                     setting: Autoscaling)
    requires i < |rs|
    ensures var front := ApplyAll(values, rs[..i], branch, setting);
            var last := ApplyOne(front.0, rs[i], branch, setting);
            ApplyAll(values, rs[..i + 1], branch, setting) == (last.0, front.1 + [last.1])
  {
    assert rs[..i + 1][..i] == rs[..i];
  }

  /** The body of `update_helm_chart`'s loop for one replacement: a new
      value with the placeholder gets the branch substituted, in the
      replacement too, and is applied; any other replacement is applied only
      when it should be and its old value occurs. */
  method ApplyReplacement(values: string, replacement: HelmReplacement, branch: string,
                          setting: Autoscaling) returns (values': string, replacement': HelmReplacement)
    ensures (values', replacement') == ApplyOne(values, replacement, branch, setting)
  {
    values', replacement' := values, replacement;
    if Text.Contains(replacement.newValue, Tag) {
      var newTag := branch;
      replacement' := replacement.(newValue := Text.Replace(replacement.newValue, Tag, newTag));
      values' := Text.Replace(values, replacement'.oldValue, replacement'.newValue);
    } else if ShouldApply(replacement, setting) {
      var instances := Text.Count(values, replacement.oldValue);
      if instances > 0 {
        values' := Text.Replace(values, replacement.oldValue, replacement.newValue);
      } else {
        Text.ReplaceAbsent(values, replacement.oldValue, replacement.newValue);
      }
    }
  }

  /** Writing `x` at `i` of a list that agrees with `o` from `i` on. */
  lemma SnocUpdate<T>(u: seq<T>, o: seq<T>, i: nat, x: T)
    requires i < |u| == |o| && u[i..] == o[i..]
    ensures u[i := x][..i + 1] == u[..i] + [x] && u[i := x][i + 1..] == o[i + 1..]
  {
    assert u[i + 1..] == u[i..][1..];
  }

  /** Applying a list is applying its front, then its back to the result. */
  lemma {:induction false} ApplyAllAppend(values: string, a: seq<HelmReplacement>, b: seq<HelmReplacement>,
                                          branch: string, setting: Autoscaling)
    ensures var first := ApplyAll(values, a, branch, setting);
            var second := ApplyAll(first.0, b, branch, setting);
            ApplyAll(values, a + b, branch, setting) == (second.0, first.1 + second.1)
    decreases |b|
  {
    var first := ApplyAll(values, a, branch, setting);
    if b != [] {
      var bf := b[..|b| - 1];
      assert (a + b)[..|a + b| - 1] == a + bf;
      assert (a + b)[|a + b| - 1] == b[|b| - 1];
      ApplyAllAppend(values, a, bf, branch, setting);
      var mid := ApplyAll(first.0, bf, branch, setting);
      var last := ApplyOne(mid.0, b[|b| - 1], branch, setting);
      assert ApplyAll(first.0, b, branch, setting) == (last.0, mid.1 + [last.1]);
      assert ApplyAll(values, a + b, branch, setting) == (last.0, (first.1 + mid.1) + [last.1]);
      assert (first.1 + mid.1) + [last.1] == first.1 + (mid.1 + [last.1]);
    } else {
      assert a + b == a;
      assert first.1 + [] == first.1;
    }
  }

  /** No replacement of the list carries the placeholder. */
  predicate Untagged(rs: seq<HelmReplacement>) {
    forall i :: 0 <= i < |rs| ==> !Text.Contains(rs[i].newValue, Tag)
  }

  /** The loop substitutes every placeholder in the list itself: when the
      branch cannot form a new placeholder with the text around it, the list
      it leaves carries none. */
  lemma {:induction false} ApplyAllUntags(values: string, rs: seq<HelmReplacement>, branch: string,
                                          setting: Autoscaling)
    requires Text.NoBoundary(Tag, branch)
    ensures Untagged(ApplyAll(values, rs, branch, setting).1)
    decreases |rs|
  {
    if rs != [] {
      var front := ApplyAll(values, rs[..|rs| - 1], branch, setting);
      ApplyAllUntags(values, rs[..|rs| - 1], branch, setting);
      var r := rs[|rs| - 1];
      if Text.Contains(r.newValue, Tag) {
        Text.ReplaceRemovesPattern(r.newValue, Tag, branch);
      }
      var all := ApplyAll(values, rs, branch, setting).1;
      assert all == front.1 + [ApplyOne(front.0, r, branch, setting).1];
      assert forall i :: 0 <= i < |rs| - 1 ==> all[i] == front.1[i];
    }
  }

  /** On an untagged list the branch plays no part and the list stays as it
      is. */
  lemma {:induction false} UntaggedIgnoresBranch(values: string, rs: seq<HelmReplacement>, b1: string, b2: string,
                                                 setting: Autoscaling)
    requires Untagged(rs)
    ensures ApplyAll(values, rs, b1, setting) == ApplyAll(values, rs, b2, setting)
    ensures ApplyAll(values, rs, b1, setting).1 == rs
    decreases |rs|
  {
    if rs != [] {
      var front := rs[..|rs| - 1];
      assert Untagged(front) by {
        forall i | 0 <= i < |front| ensures !Text.Contains(front[i].newValue, Tag) {
          assert front[i] == rs[i];
        }
      }
      UntaggedIgnoresBranch(values, front, b1, b2, setting);
      var r := rs[|rs| - 1];
      var f := ApplyAll(values, front, b1, setting);
      ApplyOneUntagged(f.0, r, b1, b2, setting);
      assert ApplyAll(values, rs, b1, setting) == (ApplyOne(f.0, r, b1, setting).0, front + [r]);
      assert ApplyAll(values, rs, b2, setting) == (ApplyOne(f.0, r, b2, setting).0, front + [r]);
      assert rs == front + [r];
    }
  }

  /** A replacement without the placeholder is applied the same way on any
      branch, and stays as it is. */
  lemma ApplyOneUntagged(values: string, r: HelmReplacement, b1: string, b2: string,
                         setting: Autoscaling)
    requires !Text.Contains(r.newValue, Tag)
    ensures ApplyOne(values, r, b1, setting) == ApplyOne(values, r, b2, setting)
    ensures ApplyOne(values, r, b1, setting).1 == r
  {
  }

  /** Because the loop rewrites the replacements in place, a later update
      through the same list sees the value substituted by the first one: its
      own branch makes no difference, and the list no longer changes. */
  lemma LaterUpdateKeepsFirstTag(v1: string, v2: string, rs: seq<HelmReplacement>, b1: string, b2: string,
                                 s1: Autoscaling, s2: Autoscaling)
    requires Text.NoBoundary(Tag, b1)
    ensures var after := ApplyAll(v1, rs, b1, s1).1;
            ApplyAll(v2, after, b2, s2) == ApplyAll(v2, after, b1, s2) &&
            ApplyAll(v2, after, b2, s2).1 == after
  {
    ApplyAllUntags(v1, rs, b1, s1);
    var after := ApplyAll(v1, rs, b1, s1).1;
    UntaggedIgnoresBranch(v2, after, b2, b1, s2);
  }

  /** `HelmWrapper` for one variant: its tag branch and autoscaling setting,
      the SUT configuration's replacement list (which the wrapper updates in
      place), the active chart copy and the content of its values file. */
  class HelmWrapper {
    const targetBranch: string
    const autoscaling: Autoscaling
    const chartName: string
    const valuesName: string
    var replacements: seq<HelmReplacement>
    var activeChartPath: Option<string>
    var activeValuesPath: Option<string>
    /** The content of the active values file; None when it does not exist. */
    var valuesFile: Option<string>

    constructor (targetBranch: string, autoscaling: Autoscaling, chartName: string,
                 valuesName: string, replacements: seq<HelmReplacement>)
      ensures this.targetBranch == targetBranch && this.autoscaling == autoscaling
      ensures this.chartName == chartName && this.valuesName == valuesName
      ensures this.replacements == replacements
      ensures activeChartPath.None? && activeValuesPath.None? && valuesFile.None?
    {
      this.targetBranch := targetBranch;
      this.autoscaling := autoscaling;
      this.chartName := chartName;
      this.valuesName := valuesName;
      this.replacements := replacements;
      activeChartPath := None;
      activeValuesPath := None;
      valuesFile := None;
    }

    /** `__enter__` (`_create_temp_chart_copy`): the chart is copied into
        `tempDir`, whose values file holds `copiedValues` (None when the copy
        has no values file). */
    method Enter(chartIsDir: bool, tempDir: string, copiedValues: Option<string>) returns (r: Result<(), HelmError>)
      modifies this
      ensures !chartIsDir ==> r.Err? && r.error.FileNotFound? && unchanged(this)
      ensures chartIsDir ==>
                activeChartPath == Some(tempDir + "/" + chartName) &&
                activeValuesPath == Some(tempDir + "/" + chartName + "/" + valuesName) &&
                valuesFile == copiedValues && replacements == old(replacements) &&
                (r.Ok? <==> copiedValues.Some?) &&
                (r.Err? ==> r.error == FileNotFound(activeValuesPath.value))
    {
      if !chartIsDir {
        return Err(FileNotFound(chartName));
      }
      var root := tempDir + "/" + chartName;
      activeChartPath := Some(root);
      activeValuesPath := Some(root + "/" + valuesName);
      valuesFile := copiedValues;
      if copiedValues.None? {
        return Err(FileNotFound(root + "/" + valuesName));
      }
      return Ok(());
    }

    /** `__exit__`: the chart copy is dropped and both active paths are reset. */
    method Exit()
      modifies this
      ensures activeChartPath.None? && activeValuesPath.None?
      ensures replacements == old(replacements)
    {
      activeChartPath := None;
      activeValuesPath := None;
      valuesFile := None;
    }

    /** `update_helm_chart`: without an active copy, `None.exists()` raises;
        a missing values file raises FileNotFoundError; otherwise the
        replacements are applied in order and the result is written back. */
    method UpdateHelmChart() returns (r: Result<string, HelmError>)
      modifies this
      ensures activeValuesPath.None? ==> r == Err(AttributeError) && unchanged(this)
      ensures activeValuesPath.Some? && valuesFile.None? ==>
                r == Err(FileNotFound(activeValuesPath.value)) && unchanged(this)
      ensures activeValuesPath.Some? && old(valuesFile).Some? ==>
                var out := ApplyAll(old(valuesFile).value, old(replacements), targetBranch, autoscaling);
                r == Ok(out.0) && valuesFile == Some(out.0) && replacements == out.1
      ensures activeChartPath == old(activeChartPath) && activeValuesPath == old(activeValuesPath)
    {
      if activeValuesPath.None? {
        return Err(AttributeError);
      }
      if valuesFile.None? {
        return Err(FileNotFound(activeValuesPath.value));
      }
      var values := valuesFile.value;
      ghost var text := values;
      ghost var original := replacements;
      var updated := replacements;
      for i := 0 to |updated|
        invariant unchanged(this)
        invariant |updated| == |original|
        invariant (values, updated[..i]) == ApplyAll(text, original[..i], targetBranch, autoscaling)
        invariant updated[i..] == original[i..]
      {
        ApplyAllSnoc(text, original, i, targetBranch, autoscaling);
        assert updated[i] == updated[i..][0] == original[i];
        var replacement;
        values, replacement := ApplyReplacement(values, updated[i], targetBranch, autoscaling);
        SnocUpdate(updated, original, i, replacement);
        updated := updated[i := replacement];
      }
      assert original[..|original|] == original && updated[..|updated|] == updated;
      replacements := updated;
      valuesFile := Some(values);
      return Ok(values);
    }

    /** `deploy_sut`: refused without an active copy; then the dependency
        build, and `helm upgrade --install`, whose exit code must be 0 and
        whose output must report the release as deployed. */
    method DeploySut(dependenciesBuilt: bool, returnCode: int, stdout: string) returns (r: Result<(), HelmError>)
      ensures activeChartPath.None? ==> r.Err? && r.error.RuntimeError?
      ensures r.Ok? <==> activeChartPath.Some? && dependenciesBuilt && returnCode == 0 &&
                         Text.Contains(stdout, "STATUS: deployed")
    {
      if activeChartPath.None? {
        return Err(RuntimeError("Temporary chart path not set. Did you call _create_temp_chart_copy()?"));
      }
      if !dependenciesBuilt {
        return Err(RuntimeError("Failed to build Helm dependencies. Check the logs for details."));
      }
      if returnCode != 0 {
        return Err(RuntimeError("Failed to deploy helm chart. Run helm install manually and see why it fails"));
      }
      if !Text.Contains(stdout, "STATUS: deployed") {
        return Err(RuntimeError("Failed to deploy helm chart. Run helm install manually and see why it fails"));
      }
      return Ok(());
    }
  }
}
