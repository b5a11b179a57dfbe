/** The environment object that experiments and variants carry: the tags
    collected on the way, the settings and timeout of the workload applied
    last, and every other attribute the environment was built with.  It is a
    heap object, because several experiments can share one environment and
    see each other's updates. */
module Environments {
  import opened Wrappers
  import Json
  import PyDict
  import ScalingSettings

  /** An attribute value: a file-system path or plain data. */
  datatype Attr = PathAttr(path: string) | Plain(value: Json.Value)

  /** `str(value)` for a path, the value itself otherwise. */
  function AttrToJson(a: Attr): Json.Value {
    match a
    case PathAttr(p) => Json.Str(p)
    case Plain(v) => v
  }

  function TagList(tags: seq<string>): (r: seq<Json.Value>)
    ensures |r| == |tags|
    ensures forall i :: 0 <= i < |r| ==> r[i] == Json.Str(tags[i])
  {
    if tags == [] then [] else [Json.Str(tags[0])] + TagList(tags[1..])
  }

  const TagsKey := "tags"
  const SettingsKey := "workload_settings"
  const TimeoutKey := "timeout_duration"

  class Environment {
    var tags: seq<string>
    var workloadSettings: PyDict.Dict<Json.Value>
    var timeoutDuration: int
    /** The remaining attributes, in the order the constructor set them. */
    var others: PyDict.Dict<Attr>

    ghost predicate Valid()
      reads this
    {
      && PyDict.WellFormed(others)
      && !PyDict.HasKey(others, TagsKey)
      && !PyDict.HasKey(others, SettingsKey)
      && !PyDict.HasKey(others, TimeoutKey)
    }

    constructor (tags: seq<string>, timeoutDuration: int, others: PyDict.Dict<Attr>)
      requires PyDict.WellFormed(others)
      requires !PyDict.HasKey(others, TagsKey) && !PyDict.HasKey(others, SettingsKey) && !PyDict.HasKey(others, TimeoutKey)
      ensures Valid()
      ensures this.tags == tags && this.timeoutDuration == timeoutDuration && this.others == others
      ensures workloadSettings == []
    {
      this.tags := tags;
      this.timeoutDuration := timeoutDuration;
      this.others := others;
      workloadSettings := [];
    }

    /** `env.__dict__`. */
    function Attributes(): (r: PyDict.Dict<Attr>)
      reads this
      requires Valid()
      ensures PyDict.WellFormed(r)
      ensures PyDict.Get(r, TagsKey) == Some(Plain(Json.List(TagList(tags))))
      ensures PyDict.Get(r, SettingsKey) == Some(Plain(Json.Object(workloadSettings)))
      ensures PyDict.Get(r, TimeoutKey) == Some(Plain(Json.Int(timeoutDuration)))
      ensures forall k :: k != TagsKey && k != SettingsKey && k != TimeoutKey ==> PyDict.Get(r, k) == PyDict.Get(others, k)
    {
      var d1 := PyDict.Set(others, TimeoutKey, Plain(Json.Int(timeoutDuration)));
      var d2 := PyDict.Set(d1, SettingsKey, Plain(Json.Object(workloadSettings)));
      var d3 := PyDict.Set(d2, TagsKey, Plain(Json.List(TagList(tags))));
      PyDict.SetWellFormed(others, TimeoutKey, Plain(Json.Int(timeoutDuration)));
      PyDict.SetWellFormed(d1, SettingsKey, Plain(Json.Object(workloadSettings)));
      PyDict.SetWellFormed(d2, TagsKey, Plain(Json.List(TagList(tags))));
      d3
    }
  }

  /** The loop of `create_json` that copies the environment's attributes,
      turning paths into strings: the keys, their order and every non-path
      value are kept. */
  method EnvDict(attrs: PyDict.Dict<Attr>) returns (r: PyDict.Dict<Json.Value>)
    requires PyDict.WellFormed(attrs)
    ensures r == PyDict.MapValues(attrs, AttrToJson)
    ensures PyDict.WellFormed(r)
  {
    r := [];
    var i := 0;
    while i < |attrs|
      invariant 0 <= i <= |attrs|
      invariant r == PyDict.MapValues(attrs[..i], AttrToJson)
    {
      var (key, value) := attrs[i];
      EnvDictStep(attrs, i);
      r := PyDict.Set(r, key, AttrToJson(value));
      i := i + 1;
    }
    assert attrs[..i] == attrs;
  }

  /** Setting the next attribute's key extends the converted prefix by it. */
  lemma EnvDictStep(attrs: PyDict.Dict<Attr>, i: nat)
    requires PyDict.WellFormed(attrs) && i < |attrs|
    ensures PyDict.Set(PyDict.MapValues(attrs[..i], AttrToJson), attrs[i].0, AttrToJson(attrs[i].1)) ==
            PyDict.MapValues(attrs[..i + 1], AttrToJson)
  {
    var r := PyDict.MapValues(attrs[..i], AttrToJson);
    PyDict.PrefixLacksKey(attrs, i);
    assert !PyDict.HasKey(r, attrs[i].0);
    PyDict.SetNewKey(r, attrs[i].0, AttrToJson(attrs[i].1));
    PyDict.MapValuesSnoc(attrs[..i], attrs[i], AttrToJson);
    assert attrs[..i + 1] == attrs[..i] + [attrs[i]];
  }

  /** The fixed keys a variant or an experiment describes itself with. */
  function BaseDescription(name: string, branch: string, namespace: string, colocated: bool,
                           autoscaling: ScalingSettings.Autoscaling): PyDict.Dict<Json.Value> {
    [ ("name", Json.Str(name)),
      ("target_branch", Json.Str(branch)),
      ("namespace", Json.Str(namespace)),
      ("executor", Json.Str(if colocated then "colocated" else "local")),
      ("scaling", Json.Str(ScalingSettings.AutoscalingText(autoscaling))) ]
  }

  /** The executor entry is "colocated" or "local", and the scaling entry is
      "None" without a setting and parses back to an enum member. */
  lemma BaseDescriptionEntries(name: string, branch: string, namespace: string, colocated: bool,
                               autoscaling: ScalingSettings.Autoscaling)
    ensures var d := BaseDescription(name, branch, namespace, colocated, autoscaling);
      && PyDict.WellFormed(d)
      && PyDict.Get(d, "executor") == Some(Json.Str(if colocated then "colocated" else "local"))
      && (autoscaling.None? ==> PyDict.Get(d, "scaling") == Some(Json.Str("None")))
      && forall m :: autoscaling == ScalingSettings.Member(m) ==>
           exists s :: PyDict.Get(d, "scaling") == Some(Json.Str(s)) && ScalingSettings.Parse(s) == Some(m)
  {
    var d := BaseDescription(name, branch, namespace, colocated, autoscaling);
    PyDict.KeysIndex(d);
    PyDict.GetAt(d, 3);
    PyDict.GetAt(d, 4);
  }

  /** `create_json` before `json.dumps`: `description | env_dict`.  The
      description's keys stay first and in order, every attribute of the
      environment wins (paths as strings), and the description supplies the
      remaining keys. */
  method Describe(description: PyDict.Dict<Json.Value>, env: Environment) returns (r: PyDict.Dict<Json.Value>)
    requires env.Valid()
    ensures r == PyDict.Union(description, PyDict.MapValues(env.Attributes(), AttrToJson))
    ensures |r| >= |description| && PyDict.Keys(r)[..|description|] == PyDict.Keys(description)
    ensures forall k :: PyDict.HasKey(env.Attributes(), k) ==>
      PyDict.Get(r, k) == Some(AttrToJson(PyDict.Get(env.Attributes(), k).value))
    ensures forall k :: !PyDict.HasKey(env.Attributes(), k) ==> PyDict.Get(r, k) == PyDict.Get(description, k)
  {
    var envDict := EnvDict(env.Attributes());
    r := PyDict.Union(description, envDict);
  }
}
