/** The load shapes Locust asks once a second for the number of simulated
    users and the rate at which to spawn them.  Both cycle through eight
    stages, each a share of a maximum user count, and drop to zero users in
    a kill window at the end of a stage; the last stage's kill window ends
    the test.  Time is a real number of seconds, and the shares are exact
    rationals. */
module LoadShapes {

  /** What `tick` returns: `None` (stop the test) or a user count with a
      spawn rate. */
  datatype Tick = Stop | Spawn(users: int, spawnRate: real)

  /** Python's `int()` on a float: truncation toward zero. */
  function Truncate(x: real): (r: int)
    ensures x >= 0.0 ==> r as real <= x < r as real + 1.0
    ensures x < 0.0 ==> r as real - 1.0 < x <= r as real
  {
    if x >= 0.0 then x.Floor else -((-x).Floor)
  }

  /** Python's `round()` on a float: to the nearest integer, ties to even. */
  function RoundHalfEven(x: real): (r: int)
    ensures -0.5 <= x - r as real <= 0.5
  {
    var f := x.Floor;
    var frac := x - f as real;
    if frac < 0.5 then f
    else if frac > 0.5 then f + 1
    else if f % 2 == 0 then f else f + 1
  }

  /** `min(max(stage_duration / 10, 2), 30)`: the length of the window at the
      end of a stage in which no users run. */
  function KillTime(stageDuration: int): (k: real)
    ensures 2.0 <= k <= 30.0
    ensures 20 <= stageDuration <= 300 ==> k == stageDuration as real / 10.0
  {
    var tenth := stageDuration as real / 10.0;
    var atLeastTwo := if tenth > 2.0 then tenth else 2.0;
    if atLeastTwo < 30.0 then atLeastTwo else 30.0
  }

  /** `max(2, min(100, x))`: the spawn rate bounds. */
  function ClampSpawnRate(x: real): (r: real)
    ensures 2.0 <= r <= 100.0
    ensures 2.0 <= x <= 100.0 ==> r == x
  {
    var atMostHundred := if x < 100.0 then x else 100.0;
    if 2.0 > atMostHundred then 2.0 else atMostHundred
  }

  /** `math.floor(run_time / stage_duration)`: the number of whole stages
      that have passed. */
  function StageIndex(runTime: real, stageDuration: int): (i: int)
    requires runTime >= 0.0 && stageDuration > 0
    ensures i >= 0
    ensures i as real <= runTime / stageDuration as real < i as real + 1.0
  {
    (runTime / stageDuration as real).Floor
  }

  /** The time spent in the current stage, which is less than a stage. */
  function StageRunTime(runTime: real, stageDuration: int): (t: real)
    requires runTime >= 0.0 && stageDuration > 0
    ensures 0.0 <= t < stageDuration as real
  {
    var i := StageIndex(runTime, stageDuration);
    StageOffsetBounds(runTime, stageDuration as real, i as real);
    runTime - i as real * stageDuration as real
  }

  /** A run time `i` to `i + 1` stage durations long is `i` durations and
      less than one more. */
  lemma StageOffsetBounds(runTime: real, d: real, i: real)
    requires d > 0.0 && i <= runTime / d < i + 1.0
    ensures 0.0 <= runTime - i * d < d
  {
    var q := runTime / d;
    var f := q - i;
    assert q * d == runTime;
    assert f * d == runTime - i * d;
    ProductBounds(f, d);
  }

  /** A fraction `0 <= f < 1` of a positive `d` is less than `d`. */
  lemma ProductBounds(f: real, d: real)
    requires 0.0 <= f < 1.0 && d > 0.0
    ensures 0.0 <= f * d < d
  {
    assert d - f * d == (1.0 - f) * d;
  }

  /** The ramp-up shape's share of the maximum users per stage: warm-up,
      ramp up to the peak, then cool down. */
  const RampUpStages: seq<real> := [0.05, 0.15, 0.30, 0.50, 0.75, 1.00, 0.60, 0.20]

  /** `RampUpLoadShape.tick`: stop after the eighth stage and in the last
      stage's kill window, no users in any other kill window, and otherwise
      the stage's share of `maxUsers` spawned at a tenth of `maxUsers` a
      second, kept within [2, 100]. */
  function RampUpTick(runTime: real, stageDuration: int, maxUsers: int): (t: Tick)
    requires runTime >= 0.0 && stageDuration > 0
  {
    var index := StageIndex(runTime, stageDuration);
    if index >= |RampUpStages| then Stop
    else if StageRunTime(runTime, stageDuration) > stageDuration as real - KillTime(stageDuration) then
      if index == |RampUpStages| - 1 then Stop else Spawn(0, 100.0)
    else Spawn(Truncate(maxUsers as real * RampUpStages[index]), ClampSpawnRate(maxUsers as real / 10.0))
  }

  /** The ramp-up test stops exactly once eight stages have run, or earlier
      in the last stage's kill window. */
  lemma RampUpStops(runTime: real, stageDuration: int, maxUsers: int)
    requires runTime >= 0.0 && stageDuration > 0
    ensures RampUpTick(runTime, stageDuration, maxUsers) == Stop <==>
      (runTime / stageDuration as real >= 8.0
       || (runTime / stageDuration as real >= 7.0
           && StageRunTime(runTime, stageDuration) > stageDuration as real - KillTime(stageDuration)))
  {
  }

  /** Outside the kill windows, the ramp-up shape runs between none and
      `maxUsers` users, at the stage's share, and at the peak stage all of
      them. */
  lemma RampUpUsersBounded(runTime: real, stageDuration: int, maxUsers: nat)
    requires runTime >= 0.0 && stageDuration > 0
    ensures RampUpTick(runTime, stageDuration, maxUsers).Spawn? ==>
      0 <= RampUpTick(runTime, stageDuration, maxUsers).users <= maxUsers
    ensures (StageIndex(runTime, stageDuration) == 5
             && StageRunTime(runTime, stageDuration) <= stageDuration as real - KillTime(stageDuration)) ==>
      RampUpTick(runTime, stageDuration, maxUsers) == Spawn(maxUsers, ClampSpawnRate(maxUsers as real / 10.0))
  {
    var i := StageIndex(runTime, stageDuration);
    if 0 <= i < 8 {
      var share := RampUpStages[i];
      assert 0.0 <= share <= 1.0;
      assert 0.0 <= maxUsers as real * share <= maxUsers as real;
    }
  }

  /** With stages of two seconds or less the kill window covers every stage
      but its first instant, so the ramp-up shape runs no users after it. */
  lemma RampUpShortStagesIdle(runTime: real, stageDuration: int, maxUsers: int)
    requires runTime >= 0.0 && 0 < stageDuration <= 2 && StageRunTime(runTime, stageDuration) > 0.0
    ensures RampUpTick(runTime, stageDuration, maxUsers) in {Stop, Spawn(0, 100.0)}
  {
    assert KillTime(stageDuration) == 2.0;
  }

  /** The daily shape's share of the maximum users per stage. */
  const DailyStages: seq<real> := [0.02, 0.05, 0.08, 0.06, 0.06, 0.05, 0.01, 0.01]

  /** `(24 - 1) / (num_stages - 1)`: how many hours of the day map to a
      stage. */
  const HoursPerStage: real := 23.0 / 7.0

  /** The stage and kill decision of `DailyLoadShape.tick` on the wall
      clock: the hour scaled onto the stages and rounded, at most the last
      stage, and a kill in the last minute of each hour. */
  function RealTimeStage(hour: int, minute: int): (s: (int, bool))
    requires 0 <= hour < 24 && 0 <= minute < 60
    ensures 0 <= s.0 < |DailyStages|
    ensures s.1 <==> minute >= 59
  {
    var mapped := RoundHalfEven(hour as real / HoursPerStage);
    assert hour as real / HoursPerStage == hour as real * 7.0 / 23.0;
    (if mapped < |DailyStages| - 1 then mapped else |DailyStages| - 1, minute >= 59)
  }

  /** The stage and kill decision of `DailyLoadShape.tick` on the run time:
      the stages repeat, and the kill window is the end of each stage. */
  function RunTimeStage(runTime: real, stageDuration: int): (s: (int, bool))
    requires runTime >= 0.0 && stageDuration > 0
    ensures 0 <= s.0 < |DailyStages|
    ensures s.0 == StageIndex(runTime, stageDuration) % |DailyStages|
  {
    (StageIndex(runTime, stageDuration) % |DailyStages|,
     StageRunTime(runTime, stageDuration) > stageDuration as real - KillTime(stageDuration))
  }

  /** The rest of `DailyLoadShape.tick` once the stage and kill decision are
      known: a kill in the last stage stops, any other kill runs no users, and
      otherwise the stage's share of `maxDailyUsers` runs, spawned at a
      thousandth of `maxDailyUsers` a second within [2, 100]. */
  function DailyTick(stage: int, toKill: bool, maxDailyUsers: int): (t: Tick)
    requires 0 <= stage < |DailyStages|
    ensures t == Stop <==> toKill && stage == |DailyStages| - 1
    ensures toKill && t != Stop ==> t == Spawn(0, 100.0)
    ensures !toKill ==> t.Spawn? && t.spawnRate == ClampSpawnRate(maxDailyUsers as real / 1000.0)
  {
    if toKill then
      if stage == |DailyStages| - 1 then Stop else Spawn(0, 100.0)
    else Spawn(Truncate(maxDailyUsers as real * DailyStages[stage]), ClampSpawnRate(maxDailyUsers as real / 1000.0))
  }

  /** `DailyLoadShape.tick`, choosing the clock or the run time as the
      configuration says. */
  function DailyLoadTick(useRealTime: bool, hour: int, minute: int, runTime: real, stageDuration: int, maxDailyUsers: int): Tick
    requires 0 <= hour < 24 && 0 <= minute < 60 && runTime >= 0.0 && stageDuration > 0
  {
    var s := if useRealTime then RealTimeStage(hour, minute) else RunTimeStage(runTime, stageDuration);
    DailyTick(s.0, s.1, maxDailyUsers)
  }

  /** On the run time the daily shape stops only in the kill window of the
      eighth, sixteenth, ... stage: its stages wrap around. */
  lemma DailyRunTimeStops(runTime: real, stageDuration: int, maxDailyUsers: int)
    requires runTime >= 0.0 && stageDuration > 0
    ensures DailyLoadTick(false, 0, 0, runTime, stageDuration, maxDailyUsers) == Stop <==>
      StageIndex(runTime, stageDuration) % 8 == 7
      && StageRunTime(runTime, stageDuration) > stageDuration as real - KillTime(stageDuration)
  {
  }

  /** Eight stages later the daily shape on the run time does the same. */
  lemma DailyRunTimePeriodic(runTime: real, stageDuration: int, maxDailyUsers: int)
    requires runTime >= 0.0 && stageDuration > 0
    ensures DailyLoadTick(false, 0, 0, runTime + 8.0 * stageDuration as real, stageDuration, maxDailyUsers)
         == DailyLoadTick(false, 0, 0, runTime, stageDuration, maxDailyUsers)
  {
    StageShift(runTime, stageDuration);
    assert RunTimeStage(runTime + 8.0 * stageDuration as real, stageDuration) == RunTimeStage(runTime, stageDuration);
  }

  /** Eight stage durations later, the stage index is eight more and the
      time into the stage is the same. */
  lemma StageShift(runTime: real, stageDuration: int)
    requires runTime >= 0.0 && stageDuration > 0
    ensures StageIndex(runTime + 8.0 * stageDuration as real, stageDuration) == StageIndex(runTime, stageDuration) + 8
    ensures StageRunTime(runTime + 8.0 * stageDuration as real, stageDuration) == StageRunTime(runTime, stageDuration)
  {
    var d := stageDuration as real;
    var i := StageIndex(runTime, stageDuration);
    ShiftByStages(runTime, d, 8.0);
    assert StageIndex(runTime + 8.0 * d, stageDuration) == i + 8;
    assert (i + 8) as real * d == i as real * d + 8.0 * d;
  }

  /** Adding `k` stage durations adds `k` to the number of stages. */
  lemma ShiftByStages(runTime: real, d: real, k: real)
    requires d > 0.0
    ensures (runTime + k * d) / d == runTime / d + k
  {
    assert (runTime / d + k) * d == runTime + k * d;
  }

  /** On the clock, hours 22 and 23 map to the last stage, so the daily
      shape stops the test at 22:59; every earlier hour only pauses it. */
  lemma DailyRealTimeStops(hour: int, minute: int, runTime: real, stageDuration: int, maxDailyUsers: int)
    requires 0 <= hour < 24 && 0 <= minute < 60 && runTime >= 0.0 && stageDuration > 0
    ensures DailyLoadTick(true, hour, minute, runTime, stageDuration, maxDailyUsers) == Stop <==> hour >= 22 && minute == 59
  {
    var x := hour as real * 7.0 / 23.0;
    assert hour as real / HoursPerStage == x;
    if hour >= 22 {
      assert x >= 6.5;
    } else {
      assert x <= 147.0 / 23.0;
      assert x < 6.5;
    }
  }
}
