/** The earlier `EnvConfig` of the deployer's `src/config` package: the SUT
    is selected by `SUT_NAME`, and an experiment by `EXPERIMENT_NAME`. */
module NamedEnvConfig {
  import opened Wrappers
  import EnvConfig
  import Paths

  datatype NamedEnvConfig = NamedEnvConfig(
    sutConfigsPath: string,
    clueConfigPath: string,
    resultsPath: string,
    logLevel: string,
    sutName: Option<string>,
    experimentName: Option<string>)

  /** The configuration when the environment sets nothing. */
  function Default(): (c: NamedEnvConfig)
    ensures c.sutName.None? && c.experimentName.None?
    ensures c.sutConfigsPath == "/app/sut_configs" && c.clueConfigPath == "/app/clue-config.yaml"
    ensures c.resultsPath == "/app/data" && c.logLevel == "INFO"
  {
    NamedEnvConfig(EnvConfig.DefaultSutConfigsPath, EnvConfig.DefaultClueConfigPath,
                   EnvConfig.DefaultResultsPath, EnvConfig.DefaultLogLevel, None, None)
  }

  /** `EnvConfig.SUT_CONFIG_PATH`, built from `SUT_NAME`. */
  function SutConfigPath(c: NamedEnvConfig): (r: Result<string, string>)
    ensures r.Ok? <==> c.sutName.Some? && c.sutName.value != []
    ensures r.Ok? ==> r.value == Paths.Join(c.sutConfigsPath, c.sutName.value + ".yaml")
  {
    EnvConfig.ConfigPath(c.sutConfigsPath, c.sutName, "SUT_NAME")
  }

  /** The configuration path of a named SUT has that name as its stem; the
      default configuration has no path. */
  lemma SutConfigPathNamesSut(c: NamedEnvConfig)
    requires c.sutName.Some? && c.sutName.value != [] && '/' !in c.sutName.value
    ensures SutConfigPath(c).Ok? && Paths.Stem(SutConfigPath(c).value) == c.sutName.value
    ensures SutConfigPath(Default()).Err?
  {
    EnvConfig.ConfigPathStemIsName(c.sutConfigsPath, c.sutName.value);
  }
}
