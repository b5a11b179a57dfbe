/** The second-generation experiment tool's workloads: the same four kinds
    with fixed constants (160 seconds, 1000 users), each overwriting the
    environment's settings, appending its tag and setting the timeout. */
module Exv2Workloads {
  import opened Wrappers
  import Json
  import PyDict
  import Text
  import EW = ExperimentWorkloads
  import Environments

  const LoadGeneratorDuration := 160
  const LoadGeneratorMaxDailyUsers := 1000

  const RunTime := "160s"

  function Settings(kind: EW.WorkloadType): PyDict.Dict<Json.Value> {
    match kind
    case Shaped =>
      [ ("LOADGENERATOR_STAGE_DURATION", Json.Int(LoadGeneratorDuration / 8)),
        ("LOADGENERATOR_MAX_DAILY_USERS", Json.Int(LoadGeneratorMaxDailyUsers)),
        ("LOCUST_LOCUSTFILE", Json.Str("./consumerbehavior.py,./loadshapes.py")) ]
    case Rampup =>
      [ ("LOCUST_LOCUSTFILE", Json.Str("./locustfile.py")),
        ("LOCUST_RUN_TIME", Json.Str(Text.IntToString(LoadGeneratorDuration) + "s")),
        ("LOCUST_SPAWN_RATE", Json.Int(3)),
        ("LOCUST_USERS", Json.Int(LoadGeneratorMaxDailyUsers)) ]
    case Pausing =>
      [ ("LOCUST_LOCUSTFILE", Json.Str("./pausing_users.py")),
        ("LOCUST_RUN_TIME", Json.Str(Text.IntToString(LoadGeneratorDuration) + "s")),
        ("LOCUST_SPAWN_RATE", Json.Int(1)),
        ("LOCUST_USERS", Json.Int(20)) ]
    case Fixed =>
      [ ("LOCUST_LOCUSTFILE", Json.Str("./fixed_requests.py")),
        ("LOCUST_RUN_TIME", Json.Str(Text.IntToString(LoadGeneratorDuration) + "s")),
        ("LOCUST_SPAWN_RATE", Json.Int(3)),
        ("LOCUST_USERS", Json.Int(LoadGeneratorMaxDailyUsers)),
        ("MAX_REQUESTS", Json.Int(1000)) ]
  }

  /** The f-string of the duration is "160s". */
  lemma RunTimeText()
    ensures Text.IntToString(LoadGeneratorDuration) + "s" == RunTime
  {
    assert Text.NatToString(1) == "1";
    assert Text.NatToString(16) == "16";
    assert Text.NatToString(160) == "160";
  }

  /** Shaped stages last 160 // 8 = 20 seconds. */
  lemma ShapedStage()
    ensures PyDict.Get(Settings(EW.Shaped), "LOADGENERATOR_STAGE_DURATION") == Some(Json.Int(20))
  {
    PyDict.GetAt(Settings(EW.Shaped), 0);
  }

  /** Ramp-up runs "160s" and spawns 3 users a second up to 1000. */
  lemma RampupConstants()
    ensures var s := Settings(EW.Rampup);
      && PyDict.Get(s, "LOCUST_RUN_TIME") == Some(Json.Str(RunTime))
      && PyDict.Get(s, "LOCUST_SPAWN_RATE") == Some(Json.Int(3))
      && PyDict.Get(s, "LOCUST_USERS") == Some(Json.Int(1000))
  {
    var s := Settings(EW.Rampup);
    RunTimeText();
    PyDict.GetAt(s, 1);
    PyDict.GetAt(s, 2);
    PyDict.GetAt(s, 3);
  }

  /** Pausing runs 20 users. */
  lemma PausingUsers()
    ensures PyDict.Get(Settings(EW.Pausing), "LOCUST_USERS") == Some(Json.Int(20))
  {
    PyDict.GetAt(Settings(EW.Pausing), 3);
  }

  /** Fixed stops after 1000 requests. */
  lemma FixedRequests()
    ensures PyDict.Get(Settings(EW.Fixed), "MAX_REQUESTS") == Some(Json.Int(1000))
  {
    PyDict.GetAt(Settings(EW.Fixed), 4);
  }

  /** `set_workload(env)`: the kind's settings replace the old ones, its tag is
      appended and the timeout becomes 160 + 60 = 220 seconds. */
  method SetWorkload(kind: EW.WorkloadType, env: Environments.Environment)
    modifies env
    ensures env.workloadSettings == Settings(kind)
    ensures env.tags == old(env.tags) + [kind.Value()]
    ensures env.timeoutDuration == 220
    ensures env.others == old(env.others)
  {
    env.workloadSettings := Settings(kind);
    env.tags := env.tags + [kind.Value()];
    env.timeoutDuration := LoadGeneratorDuration + 60;
  }
}
