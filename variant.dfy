/** `Variant`: one branch of the system under test to deploy, with its
    autoscaling setting and the environment it runs in.  The variant's own
    fields never change after construction, so it is a value; its
    environment is a shared heap object. */
module Variants {
  import opened Wrappers
  import Json
  import PyDict
  import opened ScalingSettings
  import Environments

  datatype Variant = Variant(
    name: string,
    targetBranch: string,
    namespace: string,
    criticalServices: seq<string>,
    colocatedWorkload: bool,
    autoscaling: Autoscaling,
    maxAutoscale: int,
    env: Environments.Environment)
  {
    /** `__str__`. */
    function ToString(): string {
      name
    }

    /** `__deepcopy__`: the constructor is called again with the same field
        values and the same environment object, so nothing is copied and the
        copy shares the environment. */
    function DeepCopy(): (c: Variant)
      ensures c.env == env
      ensures c.ToString() == ToString()
      ensures c == this
    {
      Variant(name, targetBranch, namespace, criticalServices, colocatedWorkload, autoscaling, maxAutoscale, env)
    }

    /** `create_json` before `json.dumps`. */
    method CreateJson() returns (r: PyDict.Dict<Json.Value>)
      requires env.Valid()
      ensures r == PyDict.Union(Environments.BaseDescription(name, targetBranch, namespace, colocatedWorkload, autoscaling),
                                PyDict.MapValues(env.Attributes(), Environments.AttrToJson))
    {
      r := Environments.Describe(Environments.BaseDescription(name, targetBranch, namespace, colocatedWorkload, autoscaling), env);
    }
  }
}
