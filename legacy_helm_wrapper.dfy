/** The older deployer's `HelmWrapper`: a fixed chain of string replacements
    on the SUT chart's values file, then `helm install`.  The values file is
    the wrapper's state (None when it does not exist); helm's output is a
    parameter.  The setting enum it compares against
    (clue_deployer/scaling_experiment_setting.py) is not part of this model:
    it is taken to have the same three members as the deployer's own. */
module LegacyHelmWrapper {
  import opened Wrappers
  import opened ScalingSettings
  import Text

  const CpuTarget: string := "targetCPUUtilizationPercentage: 80"
  const MemoryTarget: string := "targetMemoryUtilizationPercentage: 80"

  /** The replacements made whatever the autoscaling: the registry, the node
      selector, the pull policy and the image tag, in that order. */
  function FixedRewrites(values: string, registry: string): string {
    var v1 := Text.Replace(values, "descartesresearch", registry);
    var v2 := Text.Replace(v1, "nodeSelector: {}", "nodeSelector: {\"scaphandre\": \"true\"}");
    var v3 := Text.Replace(v2, "pullPolicy: IfNotPresent", "pullPolicy: Always");
    Text.Replace(v3, "tag: \"\"", "tag: \"latest\"")
  }

  /** The replacements that depend on the autoscaling setting, applied after
      the fixed ones. */
  function ScalingRewrites(values: string, setting: Option<ScalingExperimentSetting>): string {
    match setting
    case None => values
    case Some(s) =>
      var enabled := Text.Replace(values, "enabled: false", "enabled: true");
      match s
      case MemoryBound =>
        Text.Replace(Text.Replace(enabled, CpuTarget, "# " + CpuTarget), "# " + MemoryTarget, MemoryTarget)
      case Both => Text.Replace(enabled, MemoryTarget, MemoryTarget)
      case CpuBound => enabled
  }

  /** `update_helm_chart`'s text: the fixed rewrites, then the scaling ones. */
  function UpdatedValues(values: string, registry: string, setting: Option<ScalingExperimentSetting>): string {
    ScalingRewrites(FixedRewrites(values, registry), setting)
  }

  /** The `BOTH` branch replaces the memory target with itself, so a `BOTH`
      experiment gets exactly the values of a CPU-bound one. */
  lemma BothIsCpuBound(values: string, registry: string)
    ensures UpdatedValues(values, registry, Some(Both)) == UpdatedValues(values, registry, Some(CpuBound))
  {
    var enabled := Text.Replace(FixedRewrites(values, registry), "enabled: false", "enabled: true");
    Text.ReplaceWithItself(enabled, MemoryTarget);
  }

  /** Without autoscaling the scaling targets are left as they are: only the
      fixed rewrites happen. */
  lemma UnscaledKeepsTargets(values: string, registry: string)
    requires !Text.Contains(values, "descartesresearch") && !Text.Contains(values, "nodeSelector: {}")
    requires !Text.Contains(values, "pullPolicy: IfNotPresent") && !Text.Contains(values, "tag: \"\"")
    ensures UpdatedValues(values, registry, None) == values
  {
    Text.CountPositiveIffContains(values, "descartesresearch");
    Text.ReplaceAbsent(values, "descartesresearch", registry);
    Text.CountPositiveIffContains(values, "nodeSelector: {}");
    Text.ReplaceAbsent(values, "nodeSelector: {}", "nodeSelector: {\"scaphandre\": \"true\"}");
    Text.CountPositiveIffContains(values, "pullPolicy: IfNotPresent");
    Text.ReplaceAbsent(values, "pullPolicy: IfNotPresent", "pullPolicy: Always");
    Text.CountPositiveIffContains(values, "tag: \"\"");
    Text.ReplaceAbsent(values, "tag: \"\"", "tag: \"latest\"");
  }

  /** The exceptions the wrapper raises. */
  datatype HelmError = FileNotFound | RuntimeError(message: string)

  class HelmWrapper {
    const registry: string
    const autoscaling: Option<ScalingExperimentSetting>
    /** The content of the chart's values file; None when it does not exist. */
    var valuesFile: Option<string>

    constructor (registry: string, autoscaling: Option<ScalingExperimentSetting>, valuesFile: Option<string>)
      ensures this.registry == registry && this.autoscaling == autoscaling && this.valuesFile == valuesFile
    {
      this.registry := registry;
      this.autoscaling := autoscaling;
      this.valuesFile := valuesFile;
    }

    /** `update_helm_chart`: a missing values file raises; otherwise the file
        is rewritten with the updated text, which is returned. */
    method UpdateHelmChart() returns (r: Result<string, HelmError>)
      modifies this
      ensures old(valuesFile).None? ==> r == Err(FileNotFound) && valuesFile == old(valuesFile)
      ensures old(valuesFile).Some? ==>
                r == Ok(UpdatedValues(old(valuesFile).value, registry, autoscaling)) && valuesFile == Some(r.value)
    {
      if valuesFile.None? {
        return Err(FileNotFound);
      }
      var values := valuesFile.value;
      values := Text.Replace(values, "descartesresearch", registry);
      values := Text.Replace(values, "nodeSelector: {}", "nodeSelector: {\"scaphandre\": \"true\"}");
      values := Text.Replace(values, "pullPolicy: IfNotPresent", "pullPolicy: Always");
      values := Text.Replace(values, "tag: \"\"", "tag: \"latest\"");
      if autoscaling.Some? {
        values := Text.Replace(values, "enabled: false", "enabled: true");
        if autoscaling == Some(MemoryBound) {
          values := Text.Replace(values, CpuTarget, "# " + CpuTarget);
          values := Text.Replace(values, "# " + MemoryTarget, MemoryTarget);
        } else if autoscaling == Some(Both) {
          values := Text.Replace(values, MemoryTarget, MemoryTarget);
        }
      }
      valuesFile := Some(values);
      return Ok(values);
    }

    /** `deploy`: `output` is helm's output, or None when `check_output`
        raised; that error is caught and printed, so the call then returns
        normally.  Output without "STATUS: deployed" raises. */
    method Deploy(output: Option<string>) returns (r: Result<(), HelmError>)
      ensures r.Err? <==> output.Some? && !Text.Contains(output.value, "STATUS: deployed")
    {
      if output.None? {
        return Ok(());
      }
      if !Text.Contains(output.value, "STATUS: deployed") {
        return Err(RuntimeError("failed to deploy helm chart. Run helm install manually and see why it fails"));
      }
      return Ok(());
    }
  }
}
