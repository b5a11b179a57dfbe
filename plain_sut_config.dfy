/** The first `SUTConfig` of the deployer's `config` package: no SUT name
    and no validator; only the file's `config` section is read. */
module PlainSutConfig {
  import opened Wrappers
  import opened Json
  import opened PyDict
  import opened Settings

  const DefaultValuesYamlName: string := "values.yaml"
  const DefaultNumIterations: int := 1

  /** The declared fields, in declaration order. */
  const Fields: seq<FieldSpec> := [
    FieldSpec("sut_path", Chars, true),
    FieldSpec("namespace", Chars, true),
    FieldSpec("target_service_name", Chars, true),
    FieldSpec("application_endpoint_path", Chars, true),
    FieldSpec("default_resource_limits", Mapping, true),
    FieldSpec("workload_settings", Mapping, true),
    FieldSpec("timeout_duration", Number, true),
    FieldSpec("wait_before_workloads", Number, true),
    FieldSpec("wait_after_workloads", Number, true),
    FieldSpec("tags", Items, true),
    FieldSpec("helm_chart_path", Chars, true),
    FieldSpec("values_yaml_name", Chars, false),
    FieldSpec("infrastructure_namespaces", Items, false),
    FieldSpec("num_iterations", Number, false)
  ]

  /** A validated configuration: the validated data the fields read. */
  datatype PlainSutConfig = PlainSutConfig(data: Dict<Value>) {
    function SutPath(): string { TextOr(data, "sut_path", "") }
    function Namespace(): string { TextOr(data, "namespace", "") }
    function TargetServiceName(): string { TextOr(data, "target_service_name", "") }
    function ApplicationEndpointPath(): string { TextOr(data, "application_endpoint_path", "") }
    function DefaultResourceLimits(): Dict<Value> { MappingOr(data, "default_resource_limits", []) }
    function WorkloadSettings(): Dict<Value> { MappingOr(data, "workload_settings", []) }
    function TimeoutDuration(): int { NumberOr(data, "timeout_duration", 0) }
    function WaitBeforeWorkloads(): int { NumberOr(data, "wait_before_workloads", 0) }
    function WaitAfterWorkloads(): int { NumberOr(data, "wait_after_workloads", 0) }
    function Tags(): seq<Value> { ItemsOr(data, "tags", []) }
    function HelmChartPath(): string { TextOr(data, "helm_chart_path", "") }
    function ValuesYamlName(): string { TextOr(data, "values_yaml_name", DefaultValuesYamlName) }
    function InfrastructureNamespaces(): seq<Value> { ItemsOr(data, "infrastructure_namespaces", []) }
    function NumIterations(): int { NumberOr(data, "num_iterations", DefaultNumIterations) }
  }

  /** `SUTConfig(**data)`. */
  function Build(data: Dict<Value>): (r: Result<PlainSutConfig, seq<string>>)
    ensures r.Err? ==> r.error == Errors(data, Fields)
    ensures r.Ok? ==> r.value.data == data
  {
    var errs := Errors(data, Fields);
    if errs != [] then Err(errs) else Ok(PlainSutConfig(data))
  }

  /** A configuration is built exactly when every field is present with its
      type or left to its default, and no other key is given. */
  lemma BuildSucceedsIffValid(data: Dict<Value>)
    ensures Build(data).Ok? <==> (forall i :: 0 <= i < |Fields| ==> !Invalid(data, Fields[i])) &&
                                 (forall k :: k in Keys(data) ==> k in Names(Fields))
  {
  }

  /** A missing required field is reported by name. */
  lemma MissingFieldReported(data: Dict<Value>, f: FieldSpec)
    requires f in Fields && f.required && !HasKey(data, f.name)
    ensures Build(data).Err? && f.name in Build(data).error
  {
    InvalidReported(data, Fields, f);
  }

  /** Fields left out take their defaults. */
  lemma DefaultsWhenMissing(data: Dict<Value>)
    requires Build(data).Ok?
    requires !HasKey(data, "values_yaml_name") && !HasKey(data, "infrastructure_namespaces")
    requires !HasKey(data, "num_iterations")
    ensures var c := Build(data).value;
            c.ValuesYamlName() == "values.yaml" && c.InfrastructureNamespaces() == [] && c.NumIterations() == 1
  {
    LeftOut(data, "values_yaml_name");
    LeftOut(data, "infrastructure_namespaces");
    LeftOut(data, "num_iterations");
  }

  /** `SUTConfig.target_host` as written. */
  function TargetHost(c: PlainSutConfig): string {
    TargetUrl(c.TargetServiceName(), c.ApplicationEndpointPath())
  }

  /** `load_from_yaml`: only the `config` section is read; a file that is
      not a mapping, or whose section is not one, fails with `["config"]`. */
  function LoadFromYaml(full: Value): (r: Result<PlainSutConfig, seq<string>>)
    ensures Section(full).None? ==> r == Err(["config"])
  {
    match Section(full)
    case None => Err(["config"])
    case Some(section) => Build(section)
  }

  /** Two files with the same `config` section load the same configuration,
      whatever else they hold at the top level. */
  lemma OnlySectionRead(a: Value, b: Value)
    requires a.Object? && b.Object?
    requires Get(a.fields, "config") == Get(b.fields, "config")
    ensures LoadFromYaml(a) == LoadFromYaml(b)
  {
  }
}
