/** The stand-alone experiment script: an `Experiment` describes one branch of
    the system under test, prints as a file-system-safe name, and describes
    itself as a JSON object that the caller's environment may override.  Its
    `FlushingQeueu` is the same buffer as `FlushingQueues.FlushingQueue`. */
module ExperimentScript {
  import opened Wrappers
  import opened ScalingSettings
  import Json
  import PyDict
  import Text
  import FlushingQueues

  /** The script's CSV buffer, a copy of the deployer's flushing queue. */
  type FlushingQeueu<T> = FlushingQueues.FlushingQueue<T>

  /** The f-string of an experiment's `__str__` before the slashes are
      replaced: name and branch, and the printed setting when it is truthy. */
  function RawName(name: string, branch: string, setting: Option<string>): string {
    if setting.Some? then name + "_" + branch + "_" + setting.value
    else name + "_" + branch
  }

  /** The printed setting when there is one: every member of the enum is
      truthy. */
  function Printed(autoscaling: Option<ScalingExperimentSetting>): Option<string> {
    if autoscaling.Some? then Some(autoscaling.value.ToString()) else None
  }

  /** An experiment's `__str__`: the raw name with every "/" turned into "_",
      so the result has the raw name's length, is usable as a single path
      component, and agrees with the raw name everywhere else. */
  function ExperimentName(name: string, branch: string, autoscaling: Option<string>): (r: string)
    ensures |r| == |RawName(name, branch, autoscaling)|
    ensures forall i :: 0 <= i < |r| ==> r[i] != '/'
    ensures forall i :: 0 <= i < |r| && RawName(name, branch, autoscaling)[i] != '/' ==> r[i] == RawName(name, branch, autoscaling)[i]
  {
    var raw := RawName(name, branch, autoscaling);
    Text.ReplaceChar(raw, '/', '_');
    Text.Replace(raw, "/", "_")
  }

  datatype Experiment = Experiment(
    name: string,
    targetBranch: string,
    namespace: string,
    colocatedWorkload: bool,
    patches: seq<Json.Value>,
    prometheus: string,
    autoscaling: Option<ScalingExperimentSetting>,
    envPatches: PyDict.Dict<Json.Value>)
  {
    /** `__str__`. */
    function ToString(): string {
      ExperimentName(name, targetBranch, Printed(autoscaling))
    }

    /** The fixed part of `createJson`, before the environment is merged in. */
    function Description(): PyDict.Dict<Json.Value> {
      [ ("name", Json.Str(name)),
        ("target_branch", Json.Str(targetBranch)),
        ("namespace", Json.Str(namespace)),
        ("patches", Json.List(patches)),
        ("workload", Json.Str(if colocatedWorkload then "colocated" else "local")),
        ("scaling", Json.Str(OptionalToString(autoscaling))),
        ("env_patches", Json.Object(envPatches)) ]
    }

    /** `createJson(env)` before `json.dumps`: the seven description keys come
        first and in order, every key of `env` wins over the description, and
        the description supplies every other key. */
    function CreateJson(env: PyDict.Dict<Json.Value>): (r: PyDict.Dict<Json.Value>)
      requires PyDict.WellFormed(env)
      ensures |r| >= 7 && PyDict.Keys(r)[..7] == ["name", "target_branch", "namespace", "patches", "workload", "scaling", "env_patches"]
      ensures forall k :: PyDict.HasKey(env, k) ==> PyDict.Get(r, k) == PyDict.Get(env, k)
      ensures forall k :: !PyDict.HasKey(env, k) ==> PyDict.Get(r, k) == PyDict.Get(Description(), k)
    {
      var d := Description();
      PyDict.KeysIndex(d);
      assert PyDict.Keys(d) == ["name", "target_branch", "namespace", "patches", "workload", "scaling", "env_patches"];
      PyDict.Union(d, env)
    }
  }

  /** A name without slashes prints exactly as the f-string. */
  lemma NameWithoutSlashes(name: string, branch: string, autoscaling: Option<string>)
    requires forall i :: 0 <= i < |RawName(name, branch, autoscaling)| ==> RawName(name, branch, autoscaling)[i] != '/'
    ensures ExperimentName(name, branch, autoscaling) == RawName(name, branch, autoscaling)
  {
  }

  /** Without an overriding "workload" key, the JSON labels the workload
      "colocated" or "local"; the scaling entry parses back to the setting. */
  lemma WorkloadLabel(e: Experiment, env: PyDict.Dict<Json.Value>)
    requires PyDict.WellFormed(env)
    ensures !PyDict.HasKey(env, "workload") ==>
      PyDict.Get(e.CreateJson(env), "workload") == Some(Json.Str(if e.colocatedWorkload then "colocated" else "local"))
    ensures !PyDict.HasKey(env, "scaling") ==>
      exists s :: PyDict.Get(e.CreateJson(env), "scaling") == Some(Json.Str(s)) && Parse(s) == e.autoscaling
  {
    if !PyDict.HasKey(env, "workload") {
      PyDict.GetAt(e.Description(), 4);
    }
    if !PyDict.HasKey(env, "scaling") {
      var s := OptionalToString(e.autoscaling);
      PyDict.GetAt(e.Description(), 5);
      if e.autoscaling.Some? {
        NameRoundTrip(e.autoscaling.value);
      }
    }
  }
}
