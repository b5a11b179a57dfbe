/** The deployer's `SUTConfig`: a SUT's YAML configuration file, validated
    field by field in declaration order.  The items of the four lists stay
    parsed values: the models they become are not part of this module. */
module SutConfig {
  import opened Wrappers
  import opened Json
  import opened PyDict
  import opened Settings
  import Text
  import Paths

  const DefaultHelmChartRepo: string := ""
  const DefaultHelmDependenciesFromChart: bool := false
  const DefaultValuesYamlName: string := "values.yaml"
  const DefaultTimeoutForServicesReady: int := 180

  /** The declared fields, in declaration order: `sut` comes first. */
  const Fields: seq<FieldSpec> := [
    FieldSpec("sut", Chars, true),
    FieldSpec("sut_path", Chars, true),
    FieldSpec("sut_git_repo", Chars, true),
    FieldSpec("helm_chart_path", Chars, true),
    FieldSpec("helm_chart_repo", Chars, false),
    FieldSpec("helm_dependencies_from_chart", Flag, false),
    FieldSpec("values_yaml_name", Chars, false),
    FieldSpec("namespace", Chars, true),
    FieldSpec("infrastructure_namespaces", Items, false),
    FieldSpec("workload_target", Chars, true),
    FieldSpec("application_endpoint_path", Chars, true),
    FieldSpec("default_resource_limits", Mapping, true),
    FieldSpec("wait_before_workloads", Number, true),
    FieldSpec("wait_after_workloads", Number, true),
    FieldSpec("timeout_for_services_ready", Number, false),
    FieldSpec("helm_replacements", Items, false),
    FieldSpec("variants", Items, true),
    FieldSpec("workloads", Items, true),
    FieldSpec("resource_limits", Items, true)
  ]

  /** A validated configuration: the SUT name its validator produced and
      the validated data, which every other field reads, falling back to the
      field's default when it was left out. */
  datatype SutConfig = SutConfig(sut: string, data: Dict<Value>) {
    function SutPath(): string { TextOr(data, "sut_path", "") }
    function SutGitRepo(): string { TextOr(data, "sut_git_repo", "") }
    function HelmChartPath(): string { TextOr(data, "helm_chart_path", "") }
    function HelmChartRepo(): string { TextOr(data, "helm_chart_repo", DefaultHelmChartRepo) }
    function HelmDependenciesFromChart(): bool { FlagOr(data, "helm_dependencies_from_chart", DefaultHelmDependenciesFromChart) }
    function ValuesYamlName(): string { TextOr(data, "values_yaml_name", DefaultValuesYamlName) }
    function Namespace(): string { TextOr(data, "namespace", "") }
    function InfrastructureNamespaces(): seq<Value> { ItemsOr(data, "infrastructure_namespaces", []) }
    function WorkloadTarget(): string { TextOr(data, "workload_target", "") }
    function ApplicationEndpointPath(): string { TextOr(data, "application_endpoint_path", "") }
    function DefaultResourceLimits(): Dict<Value> { MappingOr(data, "default_resource_limits", []) }
    function WaitBeforeWorkloads(): int { NumberOr(data, "wait_before_workloads", 0) }
    function WaitAfterWorkloads(): int { NumberOr(data, "wait_after_workloads", 0) }
    function TimeoutForServicesReady(): int { NumberOr(data, "timeout_for_services_ready", DefaultTimeoutForServicesReady) }
    function HelmReplacements(): seq<Value> { ItemsOr(data, "helm_replacements", []) }
    function Variants(): seq<Value> { ItemsOr(data, "variants", []) }
    function Workloads(): seq<Value> { ItemsOr(data, "workloads", []) }
    function ResourceLimits(): seq<Value> { ItemsOr(data, "resource_limits", []) }
  }

  /** The `get_sut` validator: a non-empty `sut` is kept; an empty one falls
      back to the stem of `sut_path` when that field has already been
      validated, i.e. is among the `validated` fields. */
  function GetSut(sut: string, validated: Dict<Value>): (r: string)
    ensures sut != [] ==> r == sut
    ensures !HasKey(validated, "sut_path") ==> r == sut
  {
    if sut != [] then sut
    else match Get<Value>(validated, "sut_path")
      case Some(Str(path)) => Paths.Stem(path)
      case _ => sut
  }

  /** The validator's fallback recovers `<name>` from `<dir>/<name>.yaml`. */
  lemma GetSutFallsBackToStem(dir: string, name: string)
    requires '/' !in name && name != []
    ensures GetSut("", [("sut_path", Str(Paths.Join(dir, name + ".yaml")))]) == name
  {
    Paths.StemOfYamlFile(dir, name);
  }

  /** Building from the data; with `sutAfterPath` false this is the class as
      written, where `sut` is validated before any other field. */
  function BuildWith(data: Dict<Value>, sutAfterPath: bool): (r: Result<SutConfig, seq<string>>)
    ensures r.Err? <==> Errors(data, Fields) != []
    ensures r.Err? ==> r.error == Errors(data, Fields)
    ensures r.Ok? ==> r.value.data == data
  {
    var errs := Errors(data, Fields);
    if errs != [] then Err(errs)
    else
      var validated: Dict<Value> := if sutAfterPath then [("sut_path", Str(TextOr(data, "sut_path", "")))] else [];
      Ok(SutConfig(GetSut(TextOr(data, "sut", ""), validated), data))
  }

  /** `SUTConfig(**data)` as written. */
  function Build(data: Dict<Value>): Result<SutConfig, seq<string>> {
    BuildWith(data, false)
  }

  /** `SUTConfig(**data)` with `sut` declared after `sut_path`. */
  function BuildFixed(data: Dict<Value>): Result<SutConfig, seq<string>> {
    BuildWith(data, true)
  }

  /** A configuration is built exactly when every field is present with its
      type or left to its default, and no other key is given. */
  lemma BuildSucceedsIffValid(data: Dict<Value>)
    ensures Build(data).Ok? <==> (forall i :: 0 <= i < |Fields| ==> !Invalid(data, Fields[i])) &&
                                 (forall k :: k in Keys(data) ==> k in Names(Fields))
  {
  }

  /** A missing required field is reported by name. */
  lemma MissingFieldReported(data: Dict<Value>, f: FieldSpec)
    requires f in Fields && f.required && !HasKey(data, f.name)
    ensures Build(data).Err? && f.name in Build(data).error
  {
    InvalidReported(data, Fields, f);
  }

  /** A built configuration holds the given values of the required fields. */
  lemma RequiredFieldsKept(data: Dict<Value>)
    requires Build(data).Ok?
    ensures var c := Build(data).value;
            Get(data, "sut") == Some(Str(c.sut)) &&
            Get(data, "sut_path") == Some(Str(c.SutPath())) &&
            Get(data, "workload_target") == Some(Str(c.WorkloadTarget())) &&
            Get(data, "application_endpoint_path") == Some(Str(c.ApplicationEndpointPath())) &&
            Get(data, "variants") == Some(List(c.Variants())) &&
            Get(data, "workloads") == Some(List(c.Workloads())) &&
            Get(data, "resource_limits") == Some(List(c.ResourceLimits()))
  {
    var c := Build(data).value;
    RequiredKept(data, FieldSpec("sut", Chars, true));
    RequiredKept(data, FieldSpec("sut_path", Chars, true));
    RequiredKept(data, FieldSpec("workload_target", Chars, true));
    RequiredKept(data, FieldSpec("application_endpoint_path", Chars, true));
    RequiredKept(data, FieldSpec("variants", Items, true));
    RequiredKept(data, FieldSpec("workloads", Items, true));
    RequiredKept(data, FieldSpec("resource_limits", Items, true));
  }

  /** A valid required field holds a value of its kind. */
  lemma RequiredKept(data: Dict<Value>, f: FieldSpec)
    requires f in Fields && Errors(data, Fields) == [] && f.required
    ensures f.kind == Chars ==> Get(data, f.name) == Some(Str(TextOr(data, f.name, "")))
    ensures f.kind == Items ==> Get(data, f.name) == Some(List(ItemsOr(data, f.name, [])))
  {
    DeclaredValid(data, Fields, f);
  }

  /** Fields left out take their defaults. */
  lemma DefaultsWhenMissing(data: Dict<Value>)
    requires Build(data).Ok?
    requires !HasKey(data, "helm_chart_repo") && !HasKey(data, "helm_dependencies_from_chart")
    requires !HasKey(data, "values_yaml_name") && !HasKey(data, "infrastructure_namespaces")
    requires !HasKey(data, "timeout_for_services_ready") && !HasKey(data, "helm_replacements")
    ensures var c := Build(data).value;
            c.HelmChartRepo() == "" && !c.HelmDependenciesFromChart() && c.ValuesYamlName() == "values.yaml" &&
            c.InfrastructureNamespaces() == [] && c.TimeoutForServicesReady() == 180 && c.HelmReplacements() == []
  {
    assert Build(data).value.data == data;
    LeftOut(data, "helm_chart_repo");
    LeftOut(data, "helm_dependencies_from_chart");
    LeftOut(data, "values_yaml_name");
    LeftOut(data, "infrastructure_namespaces");
    LeftOut(data, "timeout_for_services_ready");
    LeftOut(data, "helm_replacements");
  }

  /** As written, an empty `sut` stays empty even when `sut_path` names the
      SUT's file; with `sut` validated after `sut_path` it becomes the file's
      stem.  The fixed build differs from the written one only there. */
  lemma EmptySutStaysEmpty(data: Dict<Value>, dir: string, name: string)
    requires Build(data).Ok?
    requires Get(data, "sut") == Some(Str(""))
    requires Get(data, "sut_path") == Some(Str(Paths.Join(dir, name + ".yaml")))
    requires '/' !in name && name != []
    ensures Build(data).value.sut == ""
    ensures BuildFixed(data).Ok? && BuildFixed(data).value.sut == name
    ensures BuildFixed(data).value == Build(data).value.(sut := name)
  {
    RequiredFieldsKept(data);
    GetSutFallsBackToStem(dir, name);
  }

  /** With `sut` validated after `sut_path`, a given name is kept and an empty
      one is the stem of the configuration path; everything else is built as
      before. */
  lemma FixedSutFromPath(data: Dict<Value>)
    requires BuildFixed(data).Ok?
    ensures Build(data).Ok?
    ensures var c := BuildFixed(data).value;
            c == Build(data).value.(sut := c.sut) &&
            c.sut == (if Build(data).value.sut != [] then Build(data).value.sut else Paths.Stem(c.SutPath()))
  {
  }

  /** `SUTConfig.target_host` as written. */
  function TargetHost(c: SutConfig): string {
    TargetUrl(c.WorkloadTarget(), c.ApplicationEndpointPath())
  }

  /** `target_host` with the normalised path it computes. */
  function TargetHostFixed(c: SutConfig): (r: string)
    ensures Text.StartsWith(c.ApplicationEndpointPath(), "/") ==> r == TargetHost(c)
  {
    TargetUrlsAgree(c.WorkloadTarget(), c.ApplicationEndpointPath());
    NormalisedTargetUrl(c.WorkloadTarget(), c.ApplicationEndpointPath())
  }

  /** The keys `load_from_yaml` lifts from the top level of the file. */
  const Lifted: seq<string> := ["helm_replacements", "variants", "resource_limits", "workloads"]

  /** `config_data[k] = full_data[k]` for each of `keys` present at the top. */
  function LiftAll(d: Dict<Value>, top: Dict<Value>, keys: seq<string>): (r: Dict<Value>)
    ensures forall k :: Get(r, k) == if k in keys && HasKey(top, k) then Get(top, k) else Get(d, k)
  {
    if keys == [] then d
    else
      var rest := LiftAll(d, top, keys[..|keys| - 1]);
      var k := keys[|keys| - 1];
      assert forall k' :: k' in keys <==> k' in keys[..|keys| - 1] || k' == k;
      if HasKey(top, k) then Set(rest, k, Get(top, k).value) else rest
  }

  /** `load_from_yaml`: the section's data with the top-level lists put in
      place of the section's.  A file that is not a mapping, or whose section
      is not one, fails with the error `["config"]`. */
  function LoadFromYaml(full: Value): (r: Result<SutConfig, seq<string>>)
    ensures Section(full).None? ==> r == Err(["config"])
  {
    match Section(full)
    case None => Err(["config"])
    case Some(section) => Build(LiftAll(section, full.fields, Lifted))
  }

  /** The lists at the top level of the file win over the section's, and
      the section's other fields are read from the section. */
  lemma TopLevelListsWin(full: Value)
    requires LoadFromYaml(full).Ok?
    ensures full.Object? && Section(full).Some?
    ensures HasKey(full.fields, "variants") ==> Get(full.fields, "variants") == Some(List(LoadFromYaml(full).value.Variants()))
    ensures !HasKey(full.fields, "variants") ==> Get(Section(full).value, "variants") == Some(List(LoadFromYaml(full).value.Variants()))
    ensures Get(Section(full).value, "workload_target") == Some(Str(LoadFromYaml(full).value.WorkloadTarget()))
  {
    var data := LiftAll(Section(full).value, full.fields, Lifted);
    assert LoadFromYaml(full) == Build(data);
    RequiredFieldsKept(data);
    LiftedKeys();
  }

  lemma LiftedKeys()
    ensures "variants" in Lifted && "workload_target" !in Lifted
  {
    assert Lifted[1] == "variants";
    var w := "workload_target";
    assert w[0] == 'w' && |w| == 15;
    assert Lifted[0][0] == 'h' && Lifted[1][0] == 'v' && Lifted[2][0] == 'r' && |Lifted[3]| == 9;
  }
}
