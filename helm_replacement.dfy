/** A helm replacement of a SUT configuration: a string of the chart's values
    file to replace, its replacement, and the conditions under which it
    applies. */
module HelmReplacements {
  import opened Wrappers
  import opened ScalingSettings

  /** `Conditions`; both fields have defaults. */
  datatype Conditions = Conditions(autoscaling: bool, autoscalingType: string)

  const DefaultConditions: Conditions := Conditions(false, "")

  /** `HelmReplacement`; `conditions` defaults to None. */
  datatype HelmReplacement = HelmReplacement(oldValue: string, newValue: string, conditions: Option<Conditions>)

  /** `should_apply(autoscaling)`.  The setting is None or a string (a member
      of the `StrEnum` is the string it prints as): an untyped condition needs
      it truthy, a typed one needs it equal to the type.  A model instance is
      always truthy, so only a missing `conditions` counts as none. */
  function ShouldApply(r: HelmReplacement, setting: Autoscaling): (apply: bool)
    ensures r.conditions.None? ==> apply
    ensures r.conditions.Some? ==>
              (apply <==> r.conditions.value.autoscaling && setting.Some? &&
                          ((r.conditions.value.autoscalingType == [] && setting.value != []) ||
                           r.conditions.value.autoscalingType == setting.value))
  {
    match r.conditions
    case None => true
    case Some(c) =>
      if c.autoscaling && c.autoscalingType == [] && Enabled(setting) then true
      else if c.autoscaling && setting.Some? && c.autoscalingType == setting.value then true
      else false
  }

  /** Conditions with `autoscaling` false never apply, whatever their type
      and whatever the setting. */
  lemma DisabledNeverApplies(r: HelmReplacement, setting: Autoscaling)
    requires r.conditions.Some? && !r.conditions.value.autoscaling
    ensures !ShouldApply(r, setting)
  {
  }

  /** Without an autoscaling setting only a replacement without conditions
      applies. */
  lemma WithoutScalingOnlyUnconditional(r: HelmReplacement)
    ensures ShouldApply(r, None) <==> r.conditions.None?
  {
  }

  /** The default conditions never apply: their `autoscaling` is false. */
  lemma DefaultConditionsNeverApply(oldValue: string, newValue: string, setting: Autoscaling)
    ensures !ShouldApply(HelmReplacement(oldValue, newValue, Some(DefaultConditions)), setting)
  {
  }

  /** A typed condition picks exactly one setting. */
  lemma TypedConditionPicksOneSetting(r: HelmReplacement, s: Autoscaling, t: Autoscaling)
    requires r.conditions.Some? && r.conditions.value.autoscalingType != []
    requires ShouldApply(r, s) && ShouldApply(r, t)
    ensures s == t
  {
  }

  /** A variant's setting is its configuration's text: any non-empty text,
      such as "none", enables every untyped condition, and the empty text
      meets a condition whose type is empty. */
  lemma TextSettings(r: HelmReplacement, text: string)
    requires r.conditions.Some? && r.conditions.value.autoscaling && r.conditions.value.autoscalingType == []
    ensures ShouldApply(r, Some(text))
  {
  }
}
