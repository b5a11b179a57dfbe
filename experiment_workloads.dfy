/** The four load-generator workloads of the deployer (shaped, ramp-up,
    pausing and fixed) and how each one configures an experiment's
    environment: it replaces the workload settings, appends its type as a tag
    and sets the timeout to the generator duration plus 60 seconds. */
module ExperimentWorkloads {
  import opened Wrappers
  import Json
  import PyDict
  import Text
  import Environments

  const LoadGeneratorDuration := 64
  const LoadGeneratorMaxDailyUsers := 100

  datatype WorkloadType = Shaped | Rampup | Pausing | Fixed {
    /** The `StrEnum` value. */
    function Value(): (r: string)
      ensures |r| >= 5
    {
      match this
      case Shaped => "shaped"
      case Rampup => "rampup"
      case Pausing => "pausing"
      case Fixed => "fixed"
    }
  }

  /** `WorkloadType(s)`: the member whose value is `s`, if any. */
  function ParseWorkloadType(s: string): (r: Option<WorkloadType>)
    ensures r.Some? ==> r.value.Value() == s
  {
    if s == "shaped" then Some(Shaped)
    else if s == "rampup" then Some(Rampup)
    else if s == "pausing" then Some(Pausing)
    else if s == "fixed" then Some(Fixed)
    else None
  }

  /** The four values are distinct, so parsing a value gives its member back. */
  lemma ParseValue(t: WorkloadType)
    ensures ParseWorkloadType(t.Value()) == Some(t)
  {
  }

  datatype Workload = Workload(kind: WorkloadType, loadGeneratorDuration: int, maxDailyUsers: int)

  /** `get_workload_instance`: the class of that type with the default
      duration and user count. */
  function GetWorkloadInstance(t: WorkloadType): (w: Workload)
    ensures w.kind == t
    ensures w.loadGeneratorDuration == LoadGeneratorDuration && w.maxDailyUsers == LoadGeneratorMaxDailyUsers
  {
    Workload(t, LoadGeneratorDuration, LoadGeneratorMaxDailyUsers)
  }

  /** `f'{d}s'`. */
  function RunTime(d: int): string {
    Text.IntToString(d) + "s"
  }

  /** The settings dictionary each `set_workload` installs. */
  function Settings(w: Workload): PyDict.Dict<Json.Value> {
    var d, users := w.loadGeneratorDuration, w.maxDailyUsers;
    match w.kind
    case Shaped =>
      [ ("LOADGENERATOR_STAGE_DURATION", Json.Int(d / 8)),
        ("LOADGENERATOR_MAX_DAILY_USERS", Json.Int(users)),
        ("LOCUST_LOCUSTFILE", Json.Str("./consumerbehavior.py,./loadshapes.py")) ]
    case Rampup =>
      [ ("LOCUST_LOCUSTFILE", Json.Str("./locustfile.py")),
        ("LOCUST_RUN_TIME", Json.Str(RunTime(d))),
        ("LOCUST_SPAWN_RATE", Json.Int(3)),
        ("LOCUST_USERS", Json.Int(users)) ]
    case Pausing =>
      [ ("LOCUST_LOCUSTFILE", Json.Str("./pausing_users.py")),
        ("LOCUST_RUN_TIME", Json.Str(RunTime(d))),
        ("LOCUST_SPAWN_RATE", Json.Int(1)),
        ("LOCUST_USERS", Json.Int(10)),
        ("PAUSE_BACKOFF", Json.Int(120)) ]
    case Fixed =>
      [ ("LOCUST_LOCUSTFILE", Json.Str("./fixed_requests.py")),
        ("LOCUST_RUN_TIME", Json.Str(RunTime(d))),
        ("LOCUST_SPAWN_RATE", Json.Int(1)),
        ("LOCUST_USERS", Json.Int(users)),
        ("MAXIMUM_REQUESTS", Json.Int(200)) ]
  }

  /** Every settings table is a proper dictionary (no key twice). */
  lemma SettingsWellFormed(w: Workload)
    ensures PyDict.WellFormed(Settings(w))
  {
    match w.kind
    case Shaped => KindWellFormed(w, Shaped);
    case Rampup => KindWellFormed(w, Rampup);
    case Pausing => KindWellFormed(w, Pausing);
    case Fixed => KindWellFormed(w, Fixed);
  }

  lemma KindWellFormed(w: Workload, kind: WorkloadType)
    requires w.kind == kind
    ensures PyDict.WellFormed(Settings(w))
  {
    PyDict.KeysIndex(Settings(w));
  }

  /** A shaped workload's stage lasts an eighth of the duration, rounded down. */
  lemma ShapedSettings(d: int, users: int)
    ensures PyDict.Get(Settings(Workload(Shaped, d, users)), "LOADGENERATOR_STAGE_DURATION") == Some(Json.Int(d / 8))
  {
    PyDict.GetAt(Settings(Workload(Shaped, d, users)), 0);
  }

  /** Ramp-up runs for "<duration>s" and spawns 3 users a second up to the maximum. */
  lemma RampupSettings(d: int, users: int)
    ensures var s := Settings(Workload(Rampup, d, users));
      && PyDict.Get(s, "LOCUST_RUN_TIME") == Some(Json.Str(RunTime(d)))
      && PyDict.Get(s, "LOCUST_SPAWN_RATE") == Some(Json.Int(3))
      && PyDict.Get(s, "LOCUST_USERS") == Some(Json.Int(users))
  {
    var s := Settings(Workload(Rampup, d, users));
    PyDict.GetAt(s, 1);
    PyDict.GetAt(s, 2);
    PyDict.GetAt(s, 3);
  }

  /** Pausing runs 10 users, whatever the maximum, with a 120-second backoff. */
  lemma PausingSettings(d: int, users: int)
    ensures var s := Settings(Workload(Pausing, d, users));
      && PyDict.Get(s, "LOCUST_USERS") == Some(Json.Int(10))
      && PyDict.Get(s, "PAUSE_BACKOFF") == Some(Json.Int(120))
  {
    var s := Settings(Workload(Pausing, d, users));
    PyDict.GetAt(s, 3);
    PyDict.GetAt(s, 4);
  }

  /** Fixed stops after 200 requests. */
  lemma FixedSettings(d: int, users: int)
    ensures PyDict.Get(Settings(Workload(Fixed, d, users)), "MAXIMUM_REQUESTS") == Some(Json.Int(200))
  {
    PyDict.GetAt(Settings(Workload(Fixed, d, users)), 4);
  }

  /** `set_workload(env)`: the settings are replaced, the type is appended to
      the tags, the timeout becomes duration + 60, and nothing else changes. */
  method SetWorkload(w: Workload, env: Environments.Environment)
    modifies env
    ensures env.workloadSettings == Settings(w)
    ensures env.tags == old(env.tags) + [w.kind.Value()]
    ensures env.timeoutDuration == w.loadGeneratorDuration + 60
    ensures env.others == old(env.others)
  {
    env.workloadSettings := Settings(w);
    env.tags := env.tags + [w.kind.Value()];
    env.timeoutDuration := w.loadGeneratorDuration + 60;
  }

  /** Settings and timeout as workload `w` leaves them. */
  predicate Settled(settings: PyDict.Dict<Json.Value>, timeout: int, w: Workload) {
    settings == Settings(w) && timeout == w.loadGeneratorDuration + 60
  }

  /** `e` holds the attributes of `orig` as `set_workload(w)` leaves them. */
  ghost predicate SetUpFrom(e: Environments.Environment, orig: Environments.Environment, w: Workload)
    reads e, orig
  {
    && Settled(e.workloadSettings, e.timeoutDuration, w)
    && e.tags == orig.tags + [w.kind.Value()]
    && e.others == orig.others
  }
}
