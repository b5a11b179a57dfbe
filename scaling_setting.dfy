/** `ScalingExperimentSetting`: which resource the autoscaler of an experiment
    targets.  The enum values are 1, 2 and 3 and the members print as "mem",
    "cpu" and "full"; the `else` branch of `__str__` that prints "none" cannot
    be reached, because every member is matched. */
module ScalingSettings {
  import opened Wrappers

  datatype ScalingExperimentSetting = MemoryBound | CpuBound | Both {
    /** The enum value. */
    function Value(): (v: int)
      ensures 1 <= v <= 3
    {
      match this
      case MemoryBound => 1
      case CpuBound => 2
      case Both => 3
    }

    /** `__str__`. */
    function ToString(): (r: string)
      ensures |r| >= 3
    {
      match this
      case MemoryBound => "mem"
      case CpuBound => "cpu"
      case Both => "full"
    }
  }

  /** `ScalingExperimentSetting(v)`: the member with that value, if any. */
  function FromValue(v: int): (r: Option<ScalingExperimentSetting>)
    ensures r.Some? <==> 1 <= v <= 3
    ensures r.Some? ==> r.value.Value() == v
  {
    if v == 1 then Some(MemoryBound)
    else if v == 2 then Some(CpuBound)
    else if v == 3 then Some(Both)
    else None
  }

  /** The member that prints as `name`, if any. */
  function Parse(name: string): (r: Option<ScalingExperimentSetting>)
    ensures r.Some? ==> r.value.ToString() == name
  {
    if name == "mem" then Some(MemoryBound)
    else if name == "cpu" then Some(CpuBound)
    else if name == "full" then Some(Both)
    else None
  }

  /** The printed names are distinct, so a name determines its setting. */
  lemma NameRoundTrip(s: ScalingExperimentSetting)
    ensures Parse(s.ToString()) == Some(s)
  {
  }

  lemma ValueRoundTrip(s: ScalingExperimentSetting)
    ensures FromValue(s.Value()) == Some(s)
  {
  }

  /** Python's `str(self.autoscaling)` for an optional setting: "None" when
      no setting is given. */
  function OptionalToString(o: Option<ScalingExperimentSetting>): (r: string)
    ensures o.None? <==> Parse(r).None?
    ensures o.Some? ==> Parse(r) == o
  {
    if o.None? then "None" else o.value.ToString()
  }

  /** The deployer's `autoscaling` attribute as Python holds it: None or a
      string.  The deployer's own enum (clue_deployer/src/models) is a
      `StrEnum` with the values "mem", "cpu" and "full", so a member is the
      string it prints as; a variant holds its configuration's text as it
      is, which need not name a member. */
  type Autoscaling = Option<string>

  /** The deployer's `StrEnum` member for a setting. */
  function Member(s: ScalingExperimentSetting): Autoscaling {
    Some(s.ToString())
  }

  /** Python's truth value of the attribute: set and not empty. */
  predicate Enabled(a: Autoscaling) {
    a.Some? && a.value != []
  }

  /** `str(autoscaling)`: "None" when unset, otherwise the string itself,
      which for a member parses back to it. */
  function AutoscalingText(a: Autoscaling): (r: string)
    ensures a.None? ==> r == "None" && Parse(r).None?
    ensures forall s :: a == Member(s) ==> Parse(r) == Some(s)
  {
    if a.None? then "None" else a.value
  }
}
