/** The earlier `SUTConfig` of the deployer's `src/config` package: the SUT's
    name is the last field, `sut_name`, defaulting to "" and completed from
    `sut_path` by its validator; only the file's `config` section is read. */
module NamedSutConfig {
  import opened Wrappers
  import opened Json
  import opened PyDict
  import opened Settings
  import Paths

  const DefaultValuesYamlName: string := "values.yaml"
  const DefaultNumIterations: int := 1
  const DefaultSutName: string := ""

  /** The declared fields, in declaration order: `sut_path` first, `sut_name` last. */
  const Fields: seq<FieldSpec> := [
    FieldSpec("sut_path", Chars, true),
    FieldSpec("sut_git_repo", Chars, true),
    FieldSpec("namespace", Chars, true),
    FieldSpec("target_service_name", Chars, true),
    FieldSpec("application_endpoint_path", Chars, true),
    FieldSpec("default_resource_limits", Mapping, true),
    FieldSpec("workload_settings", Mapping, true),
    FieldSpec("timeout_duration", Number, true),
    FieldSpec("wait_before_workloads", Number, true),
    FieldSpec("wait_after_workloads", Number, true),
    FieldSpec("tags", Items, true),
    FieldSpec("helm_chart_path", Chars, true),
    FieldSpec("values_yaml_name", Chars, false),
    FieldSpec("infrastructure_namespaces", Items, false),
    FieldSpec("num_iterations", Number, false),
    FieldSpec("sut_name", Chars, false)
  ]

  /** A validated configuration: the SUT name (None when the validator
      returned nothing) and the validated data the other fields read. */
  datatype NamedSutConfig = NamedSutConfig(sutName: Option<string>, data: Dict<Value>) {
    function SutPath(): string { TextOr(data, "sut_path", "") }
    function SutGitRepo(): string { TextOr(data, "sut_git_repo", "") }
    function Namespace(): string { TextOr(data, "namespace", "") }
    function TargetServiceName(): string { TextOr(data, "target_service_name", "") }
    function ApplicationEndpointPath(): string { TextOr(data, "application_endpoint_path", "") }
    function DefaultResourceLimits(): Dict<Value> { MappingOr(data, "default_resource_limits", []) }
    function WorkloadSettings(): Dict<Value> { MappingOr(data, "workload_settings", []) }
    function TimeoutDuration(): int { NumberOr(data, "timeout_duration", 0) }
    function WaitBeforeWorkloads(): int { NumberOr(data, "wait_before_workloads", 0) }
    function WaitAfterWorkloads(): int { NumberOr(data, "wait_after_workloads", 0) }
    function Tags(): seq<Value> { ItemsOr(data, "tags", []) }
    function HelmChartPath(): string { TextOr(data, "helm_chart_path", "") }
    function ValuesYamlName(): string { TextOr(data, "values_yaml_name", DefaultValuesYamlName) }
    function InfrastructureNamespaces(): seq<Value> { ItemsOr(data, "infrastructure_namespaces", []) }
    function NumIterations(): int { NumberOr(data, "num_iterations", DefaultNumIterations) }
  }

  /** The `get_sut_name` validator: a non-empty name is kept; an empty one
      becomes the stem of the validated `sut_path`, and without one the
      validator falls off its end and returns None. */
  function GetSutName(sutName: string, validated: Dict<Value>): (r: Option<string>)
    ensures sutName != [] ==> r == Some(sutName)
    ensures r.None? <==> sutName == [] && !(exists p :: Get(validated, "sut_path") == Some(Str(p)))
  {
    if sutName != [] then Some(sutName)
    else match Get<Value>(validated, "sut_path")
      case Some(Str(path)) => Some(Paths.Stem(path))
      case _ => None
  }

  /** `SUTConfig(**data)`.  The class is a pydantic-settings `BaseSettings`,
      which validates defaults too, so the validator runs on a given
      `sut_name` and on the default "" alike, after `sut_path`. */
  function Build(data: Dict<Value>): (r: Result<NamedSutConfig, seq<string>>)
    ensures r.Err? <==> Errors(data, Fields) != []
    ensures r.Err? ==> r.error == Errors(data, Fields)
    ensures r.Ok? ==> r.value.data == data
  {
    var errs := Errors(data, Fields);
    if errs != [] then Err(errs)
    else
      var validated: Dict<Value> := [("sut_path", Str(TextOr(data, "sut_path", "")))];
      Ok(NamedSutConfig(GetSutName(TextOr(data, "sut_name", DefaultSutName), validated), data))
  }

  /** A configuration is built exactly when every field is present with its
      type or left to its default, and no other key is given. */
  lemma BuildSucceedsIffValid(data: Dict<Value>)
    ensures Build(data).Ok? <==> (forall i :: 0 <= i < |Fields| ==> !Invalid(data, Fields[i])) &&
                                 (forall k :: k in Keys(data) ==> k in Names(Fields))
  {
  }

  /** Every built configuration has a name: the given one when it is not
      empty, otherwise the stem of its path, whether the empty name was given
      or left to its default. */
  lemma AlwaysNamed(data: Dict<Value>)
    requires Build(data).Ok?
    ensures var c := Build(data).value;
            c.sutName == Some(if TextOr(data, "sut_name", "") != [] then TextOr(data, "sut_name", "") else Paths.Stem(c.SutPath()))
  {
  }

  /** A left-out `sut_name` becomes the name of the configuration file
      `<dir>/<name>.yaml`. */
  lemma MissingNameTakesStem(data: Dict<Value>, dir: string, name: string)
    requires Build(data).Ok? && !HasKey(data, "sut_name")
    requires Get(data, "sut_path") == Some(Str(Paths.Join(dir, name + ".yaml")))
    requires '/' !in name && name != []
    ensures Build(data).value.sutName == Some(name)
  {
    Paths.StemOfYamlFile(dir, name);
  }

  /** Fields left out take their defaults. */
  lemma DefaultsWhenMissing(data: Dict<Value>)
    requires Build(data).Ok?
    requires !HasKey(data, "values_yaml_name") && !HasKey(data, "infrastructure_namespaces")
    requires !HasKey(data, "num_iterations")
    ensures var c := Build(data).value;
            c.ValuesYamlName() == "values.yaml" && c.InfrastructureNamespaces() == [] && c.NumIterations() == 1
  {
    assert Build(data).value.data == data;
    LeftOut(data, "values_yaml_name");
    LeftOut(data, "infrastructure_namespaces");
    LeftOut(data, "num_iterations");
  }

  /** `SUTConfig.target_host` as written. */
  function TargetHost(c: NamedSutConfig): string {
    TargetUrl(c.TargetServiceName(), c.ApplicationEndpointPath())
  }

  /** `load_from_yaml`: only the `config` section is read; a file that is
      not a mapping, or whose section is not one, fails with `["config"]`. */
  function LoadFromYaml(full: Value): (r: Result<NamedSutConfig, seq<string>>)
    ensures Section(full).None? ==> r == Err(["config"])
  {
    match Section(full)
    case None => Err(["config"])
    case Some(section) => Build(section)
  }

  /** Two files with the same `config` section load the same configuration,
      whatever else they hold at the top level. */
  lemma OnlySectionRead(a: Value, b: Value)
    requires a.Object? && b.Object?
    requires Get(a.fields, "config") == Get(b.fields, "config")
    ensures LoadFromYaml(a) == LoadFromYaml(b)
  {
  }
}
