/** The deployer's `EnvConfig`: where the configuration files and results
    live, and which SUT, variants and workloads the environment selects.
    Paths are kept as strings. */
module EnvConfig {
  import opened Wrappers
  import opened Json
  import opened PyDict
  import Paths

  const DefaultSutConfigsPath: string := "/app/sut_configs"
  const DefaultClueConfigPath: string := "/app/clue-config.yaml"
  const DefaultResultsPath: string := "/app/data"
  const DefaultLogLevel: string := "INFO"

  datatype EnvConfig = EnvConfig(
    sutConfigsPath: string,
    clueConfigPath: string,
    resultsPath: string,
    logLevel: string,
    sut: Option<string>,
    variants: Option<string>,
    workloads: Option<string>,
    nIterations: Option<int>,
    deployOnly: Option<bool>)

  /** The configuration when the environment sets nothing. */
  function Default(): (c: EnvConfig)
    ensures c.sut.None? && c.variants.None? && c.workloads.None?
    ensures c.nIterations == Some(1) && c.deployOnly == Some(false)
    ensures c.sutConfigsPath == "/app/sut_configs" && c.clueConfigPath == "/app/clue-config.yaml"
    ensures c.resultsPath == "/app/data" && c.logLevel == "INFO"
  {
    EnvConfig(DefaultSutConfigsPath, DefaultClueConfigPath, DefaultResultsPath, DefaultLogLevel,
              None, None, None, Some(1), Some(false))
  }

  /** `configs / f"{name}.yaml"` when the name is set and non-empty; the
      error, naming the unset `variable`, otherwise.  Shared by both
      environment configurations. */
  function ConfigPath(configsPath: string, name: Option<string>, variable: string): (r: Result<string, string>)
    ensures r.Ok? <==> name.Some? && name.value != []
    ensures r.Ok? ==> r.value == Paths.Join(configsPath, name.value + ".yaml")
    ensures r.Err? ==> r.error == variable + " must be set to construct SUT_CONFIG_PATH."
  {
    if name.Some? && name.value != [] then Ok(Paths.Join(configsPath, name.value + ".yaml"))
    else Err(variable + " must be set to construct SUT_CONFIG_PATH.")
  }

  /** The SUT's name is recovered from its configuration path: the stem of
      `SUT_CONFIG_PATH` is `SUT`, which is how a SUT configuration with an
      empty name is meant to complete it. */
  lemma ConfigPathStemIsName(configsPath: string, name: string)
    requires name != [] && '/' !in name
    ensures ConfigPath(configsPath, Some(name), "SUT").Ok?
    ensures Paths.Stem(ConfigPath(configsPath, Some(name), "SUT").value) == name
  {
    Paths.StemOfYamlFile(configsPath, name);
  }

  /** The file is directly inside the configured directory. */
  lemma ConfigPathInDirectory(name: string)
    requires name != [] && '/' !in name
    ensures ConfigPath(DefaultSutConfigsPath, Some(name), "SUT") == Ok("/app/sut_configs/" + name + ".yaml")
  {
    var d := DefaultSutConfigsPath;
    assert d[|d| - 1] == 's';
    assert d + "/" == "/app/sut_configs/";
    assert d + "/" + (name + ".yaml") == (d + "/") + name + ".yaml";
  }

  /** `EnvConfig.SUT_CONFIG_PATH`. */
  function SutConfigPath(c: EnvConfig): Result<string, string> {
    ConfigPath(c.sutConfigsPath, c.sut, "SUT")
  }

  function OptText(o: Option<string>): Value {
    if o.Some? then Str(o.value) else Null
  }

  /** `EnvConfig.model_dump`: the fields in declaration order, then the
      computed `SUT_CONFIG_PATH`; only path values become strings, the others
      keep their types.  Dumping fails, as computing the path does, when no
      SUT is set. */
  function Dump(c: EnvConfig): (r: Result<Dict<Value>, string>)
    ensures r.Ok? <==> SutConfigPath(c).Ok?
    ensures r.Ok? ==> |r.value| == 10 && r.value[4] == ("SUT", Str(c.sut.value)) &&
                      r.value[9] == ("SUT_CONFIG_PATH", Str(Paths.Join(c.sutConfigsPath, c.sut.value + ".yaml")))
  {
    match SutConfigPath(c)
    case Err(e) => Err(e)
    case Ok(path) =>
      Ok([("SUT_CONFIGS_PATH", Str(c.sutConfigsPath)),
          ("CLUE_CONFIG_PATH", Str(c.clueConfigPath)),
          ("RESULTS_PATH", Str(c.resultsPath)),
          ("LOG_LEVEL", Str(c.logLevel)),
          ("SUT", OptText(c.sut)),
          ("VARIANTS", OptText(c.variants)),
          ("WORKLOADS", OptText(c.workloads)),
          ("N_ITERATIONS", if c.nIterations.Some? then Int(c.nIterations.value) else Null),
          ("DEPLOY_ONLY", if c.deployOnly.Some? then Bool(c.deployOnly.value) else Null),
          ("SUT_CONFIG_PATH", Str(path))])
  }

  /** The default configuration cannot be dumped: its SUT is unset. */
  lemma DefaultCannotBeDumped()
    ensures Dump(Default()).Err?
  {
  }
}
