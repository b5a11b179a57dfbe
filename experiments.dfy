/** The deployer's `Experiment`: a branch of the system under test with its
    autoscaling setting and a shared environment.  Building an experiment
    with a setting appends "scale" to the environment's tags, and
    `__deepcopy__` builds a new experiment over the same environment, so every
    copy of an autoscaled experiment appends another "scale".  The packaged
    copy (src/clue_deployer/experiment.py) is the same class taking the
    namespace, the Prometheus URL, the target host and the infrastructure
    namespaces as arguments, without `__deepcopy__`; the deployer's copy
    reads them from its configuration.  Both are modelled here. */
module Experiments {
  import opened Wrappers
  import Json
  import PyDict
  import opened ScalingSettings
  import Environments
  import ExperimentScript

  datatype Experiment = Experiment(
    name: string,
    targetBranch: string,
    namespace: string,
    criticalServices: seq<string>,
    colocatedWorkload: bool,
    autoscaling: Autoscaling,
    maxAutoscale: int,
    env: Environments.Environment)
  {
    /** `__str__`: the experiment script's naming rule, with the setting
        added when it is truthy. */
    function ToString(): string {
      ExperimentScript.ExperimentName(name, targetBranch, if Enabled(autoscaling) then autoscaling else None)
    }

    /** `to_row`: name, branch, namespace, setting (or null) and the tags. */
    function ToRow(): (row: seq<Json.Value>)
      reads env
      ensures |row| == |Headers()|
      ensures row[0] == Json.Str(name) && row[1] == Json.Str(targetBranch) && row[2] == Json.Str(namespace)
      ensures row[3] == (if autoscaling.Some? then Json.Str(autoscaling.value) else Json.Null)
      ensures row[4] == Json.List(Environments.TagList(env.tags))
    {
      [ Json.Str(name), Json.Str(targetBranch), Json.Str(namespace),
        if autoscaling.Some? then Json.Str(autoscaling.value) else Json.Null,
        Json.List(Environments.TagList(env.tags)) ]
    }

    /** `create_json` before `json.dumps`. */
    method CreateJson() returns (r: PyDict.Dict<Json.Value>)
      requires env.Valid()
      ensures r == PyDict.Union(Environments.BaseDescription(name, targetBranch, namespace, colocatedWorkload, autoscaling),
                                PyDict.MapValues(env.Attributes(), Environments.AttrToJson))
    {
      r := Environments.Describe(Environments.BaseDescription(name, targetBranch, namespace, colocatedWorkload, autoscaling), env);
    }
  }

  /** `headers`. */
  function Headers(): seq<string> {
    ["Name", "Branch", "Namespace", "Autoscaling", "Env Tags"]
  }

  /** The constructor: the experiment holds exactly the given values and
      environment, and the environment gains the "scale" tag exactly when a
      setting is given. */
  method NewExperiment(name: string, targetBranch: string, namespace: string, criticalServices: seq<string>,
                       colocatedWorkload: bool, autoscaling: Autoscaling, maxAutoscale: int,
                       env: Environments.Environment) returns (e: Experiment)
    modifies env
    ensures e == Experiment(name, targetBranch, namespace, criticalServices, colocatedWorkload, autoscaling, maxAutoscale, env)
    ensures env.tags == old(env.tags) + (if autoscaling.Some? then ["scale"] else [])
    ensures env.workloadSettings == old(env.workloadSettings) && env.timeoutDuration == old(env.timeoutDuration)
    ensures env.others == old(env.others)
  {
    e := Experiment(name, targetBranch, namespace, criticalServices, colocatedWorkload, autoscaling, maxAutoscale, env);
    if autoscaling.Some? {
      env.tags := env.tags + ["scale"];
    }
  }

  /** `__deepcopy__`: an equal experiment over the same environment, whose
      tags grow by one more "scale" when the experiment is autoscaled. */
  method DeepCopy(e: Experiment) returns (c: Experiment)
    modifies e.env
    ensures c == e
    ensures e.env.tags == old(e.env.tags) + (if e.autoscaling.Some? then ["scale"] else [])
    ensures e.env.workloadSettings == old(e.env.workloadSettings) && e.env.timeoutDuration == old(e.env.timeoutDuration)
    ensures e.env.others == old(e.env.others)
  {
    c := NewExperiment(e.name, e.targetBranch, e.namespace, e.criticalServices, e.colocatedWorkload, e.autoscaling, e.maxAutoscale, e.env);
  }
}
