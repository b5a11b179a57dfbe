/** The pydantic-era workload classes: each of the four workload types is a
    subclass of an abstract `Workload` that receives its name, timeout,
    duration and user count and builds its settings table in its constructor.
    The base class declares `set_workload` abstract and no subclass defines
    it, so Python refuses to instantiate any of them. */
module ModelWorkloads {
  import opened Wrappers
  import Json
  import PyDict
  import EW = ExperimentWorkloads

  datatype InstanceError = TypeError

  datatype Workload = Workload(
    name: string,
    timeoutDuration: int,
    loadGeneratorDuration: int,
    maxDailyUsers: int,
    workloadSettings: PyDict.Dict<Json.Value>)

  /** Whether the class for `t` defines `set_workload`; an `ABC` subclass that
      leaves an abstract method undefined cannot be instantiated. */
  function DefinesSetWorkload(t: EW.WorkloadType): bool {
    false
  }

  /** The instance the constructor of the class for `t` builds. */
  function Construct(t: EW.WorkloadType, duration: int, maxUsers: int): Workload {
    Workload(t.Value(), duration + 60, duration, maxUsers, EW.Settings(EW.Workload(t, duration, maxUsers)))
  }

  /** `get_workload_instance` as written: instantiating the mapped class raises
      TypeError whenever the class leaves `set_workload` abstract. */
  function GetWorkloadInstanceAsWritten(t: EW.WorkloadType, duration: int, maxUsers: int): (r: Result<Workload, InstanceError>)
    ensures r.Ok? <==> DefinesSetWorkload(t)
  {
    if DefinesSetWorkload(t) then Ok(Construct(t, duration, maxUsers)) else Err(TypeError)
  }

  /** Every workload type fails, whatever the configured duration and users. */
  lemma AsWrittenAlwaysFails(t: EW.WorkloadType, duration: int, maxUsers: int)
    ensures GetWorkloadInstanceAsWritten(t, duration, maxUsers) == Err(TypeError)
  {
  }

  /** `get_workload_instance` with the classes instantiable: the workload is
      named by its type's value (which parses back to the type), its timeout
      is the configured duration plus 60 seconds, and its settings are the
      type's table for that duration and user count. */
  function GetWorkloadInstance(t: EW.WorkloadType, duration: int, maxUsers: int): (w: Workload)
    ensures EW.ParseWorkloadType(w.name) == Some(t)
    ensures w.timeoutDuration == duration + 60
    ensures w.loadGeneratorDuration == duration && w.maxDailyUsers == maxUsers
    ensures PyDict.WellFormed(w.workloadSettings)
  {
    EW.ParseValue(t);
    EW.SettingsWellFormed(EW.Workload(t, duration, maxUsers));
    Construct(t, duration, maxUsers)
  }
}
