/** The deployer service's log endpoints: `GET /api/logs` and the
    server-sent-event stream `GET /api/logs/stream`.  The same handlers exist
    twice, in the logs router and in the service module.  The shared log buffer
    is not part of this model: every read of it is a parameter, either a
    snapshot (its version, bumped by each clear, and its lines) or the message
    of the exception the read raised.  An event is the JSON payload of one
    `data: ...` frame. */
module LogStream {
  import opened Wrappers
  import opened Json

  datatype Snapshot = Snapshot(version: int, logs: seq<string>)

  /** The log lines as JSON strings. */
  function Strs(logs: seq<string>): (r: seq<Value>)
    ensures |r| == |logs|
    ensures forall i :: 0 <= i < |logs| ==> r[i] == Str(logs[i])
  {
    seq(|logs|, i requires 0 <= i < |logs| => Str(logs[i]))
  }

  /** `get_logs`: the buffer's lines with their count; when reading the buffer
      raises, an empty list, a zero count and the exception's message. */
  function GetLogs(read: Result<seq<string>, string>): (r: Value)
    ensures Field(r, "logs").Some? && Field(r, "logs").value.List?
    ensures Field(r, "count") == Some(Int(|Field(r, "logs").value.items|))
    ensures read.Ok? ==> Field(r, "logs") == Some(List(Strs(read.value))) && Field(r, "error").None?
    ensures read.Err? ==> Field(r, "logs") == Some(List([])) && Field(r, "error") == Some(Str(read.error))
  {
    match read
    case Ok(logs) => Object([("logs", List(Strs(logs))), ("count", Int(|logs|))])
    case Err(e) =>
      var fields := [("logs", List([])), ("count", Int(0)), ("error", Str(e))];
      assert fields[..2] == [("logs", List([])), ("count", Int(0))];
      assert fields[..2][..1] == [("logs", List([]))];
      assert Field(Object(fields[..2][..1]), "logs") == Some(List([]));
      assert Field(Object(fields[..2]), "logs") == Some(List([]));
      assert Field(Object(fields[..2]), "count") == Some(Int(0));
      Object(fields)
  }

  /** The payload of the event that carries one log line. */
  function LogEvent(log: string): Value {
    Object([("log", Str(log))])
  }

  /** The payload of the event that reports an exception. */
  function ErrorEvent(message: string): Value {
    Object([("error", Str(message))])
  }

  /** One event per line, in buffer order. */
  function LogEvents(logs: seq<string>): (es: seq<Value>)
    ensures |es| == |logs|
    ensures forall i :: 0 <= i < |logs| ==> es[i] == LogEvent(logs[i])
  {
    seq(|logs|, i requires 0 <= i < |logs| => LogEvent(logs[i]))
  }

  lemma LogEventsAppend(a: seq<string>, b: seq<string>)
    ensures LogEvents(a + b) == LogEvents(a) + LogEvents(b)
  {
  }

  /** The generator's two local variables. */
  datatype Counters = Counters(lastCount: nat, lastVersion: int)

  /** The stream's opening: every line of the first read, in order, with
      `last_count` set to their number; an error event when the read raises. */
  function Opening(version: int, initial: Result<seq<string>, string>): (Counters, seq<Value>) {
    match initial
    case Err(e) => (Counters(0, version), [ErrorEvent("Failed to get initial logs: " + e)])
    case Ok(logs) => (Counters(|logs|, version), LogEvents(logs))
  }

  /** One tick of the stream loop: a new buffer version (a clear) restarts the
      count at zero, and the lines past `last_count` are sent. */
  function Step(c: Counters, read: Result<Snapshot, string>): (Counters, seq<Value>) {
    match read
    case Err(e) => (c, [ErrorEvent("Stream error: " + e)])
    case Ok(s) =>
      var from := if s.version != c.lastVersion then 0 else c.lastCount;
      if |s.logs| > from then (Counters(|s.logs|, s.version), LogEvents(s.logs[from..]))
      else (Counters(from, s.version), [])
  }

  /** A finite run of ticks: the counters after the last one and every event
      sent, in order. */
  function Run(c: Counters, ticks: seq<Result<Snapshot, string>>): (Counters, seq<Value>)
    decreases |ticks|
  {
    if ticks == [] then (c, [])
    else
      var before := Run(c, ticks[..|ticks| - 1]);
      var after := Step(before.0, ticks[|ticks| - 1]);
      (after.0, before.1 + after.1)
  }

  /** The run over one more tick is the run so far followed by that tick. */
  lemma RunSnoc(c: Counters, ticks: seq<Result<Snapshot, string>>, i: nat)
    requires i < |ticks|
    ensures var before := Run(c, ticks[..i]);
            var after := Step(before.0, ticks[i]);
            Run(c, ticks[..i + 1]) == (after.0, before.1 + after.1)
  {
    assert ticks[..i + 1][..i] == ticks[..i];
  }

  lemma AppendAssoc(a: seq<Value>, b: seq<Value>, c: seq<Value>)
    ensures a + b + c == a + (b + c)
  {
  }

  /** A tick that raises sends one error event and keeps both counters. */
  lemma StepOnError(c: Counters, message: string)
    ensures Step(c, Err(message)) == (c, [ErrorEvent("Stream error: " + message)])
  {
  }

  /** Without a clear, a tick sends exactly the lines appended since the last
      one, and afterwards the count is the buffer's length. */
  lemma StepSendsAppended(c: Counters, s: Snapshot)
    requires s.version == c.lastVersion && c.lastCount <= |s.logs|
    ensures Step(c, Ok(s)) == (Counters(|s.logs|, s.version), LogEvents(s.logs[c.lastCount..]))
  {
  }

  /** After a clear, a tick sends the whole buffer. */
  lemma StepAfterClear(c: Counters, s: Snapshot)
    requires s.version != c.lastVersion
    ensures Step(c, Ok(s)) == (Counters(|s.logs|, s.version), LogEvents(s.logs))
  {
  }

  /** Without a clear, a buffer no longer than `last_count` sends nothing and
      changes nothing. */
  lemma StepWithoutGrowth(c: Counters, s: Snapshot)
    requires s.version == c.lastVersion && |s.logs| <= c.lastCount
    ensures Step(c, Ok(s)) == (c, [])
  {
  }

  /** Reads of one buffer version in which each read's lines extend the
      lines of every earlier read. */
  predicate AppendOnly(version: int, ticks: seq<Result<Snapshot, string>>) {
    (forall i :: 0 <= i < |ticks| ==> ticks[i].Ok? && ticks[i].value.version == version) &&
    (forall i, j :: 0 <= i < j < |ticks| ==> (ticks[i].Ok? && ticks[j].Ok? &&
                                              ticks[i].value.logs <= ticks[j].value.logs))
  }

  /** Over reads of an append-only buffer the ticks send every line past the
      starting count exactly once, in buffer order. */
  lemma {:induction false} RunSendsAppended(c: Counters, ticks: seq<Result<Snapshot, string>>)
    requires ticks != [] && AppendOnly(c.lastVersion, ticks)
    requires c.lastCount <= |ticks[0].value.logs|
    ensures var last := ticks[|ticks| - 1].value.logs;
            ticks[0].value.logs <= last &&
            Run(c, ticks) == (Counters(|last|, c.lastVersion), LogEvents(last[c.lastCount..]))
    decreases |ticks|
  {
    var n := |ticks|;
    var last := ticks[n - 1].value;
    if n == 1 {
      assert ticks[..0] == [];
      assert Run(c, ticks) == (Step(c, ticks[0]).0, [] + Step(c, ticks[0]).1);
      StepSendsAppended(c, last);
      assert ticks[0] == Ok(last);
      var st := Step(c, ticks[0]);
      assert [] + st.1 == st.1;
      assert Run(c, ticks).0 == st.0 && Run(c, ticks).1 == st.1;
    } else {
      var front := ticks[..n - 1];
      assert front[0] == ticks[0];
      assert AppendOnly(c.lastVersion, front) by {
        forall i, j | 0 <= i < j < |front|
          ensures front[i].value.logs <= front[j].value.logs
        {
          assert front[i] == ticks[i] && front[j] == ticks[j];
        }
      }
      RunSendsAppended(c, front);
      var prev := front[n - 2].value.logs;
      assert prev == ticks[n - 2].value.logs;
      assert prev <= last.logs;
      var mid := Counters(|prev|, c.lastVersion);
      StepSendsAppended(mid, last);
      assert last.logs[c.lastCount..] == prev[c.lastCount..] + last.logs[|prev|..];
      LogEventsAppend(prev[c.lastCount..], last.logs[|prev|..]);
    }
  }

  /** The stream mirrors an append-only buffer: the opening and the ticks that
      follow send each line of the last read exactly once, in order. */
  lemma StreamMirrorsBuffer(version: int, initial: seq<string>, ticks: seq<Result<Snapshot, string>>)
    requires ticks != [] && AppendOnly(version, ticks)
    requires initial <= ticks[0].value.logs
    ensures var start := Opening(version, Ok(initial));
            start.1 + Run(start.0, ticks).1 == LogEvents(ticks[|ticks| - 1].value.logs)
  {
    var last := ticks[|ticks| - 1].value.logs;
    var start := Counters(|initial|, version);
    RunSendsAppended(start, ticks);
    PrefixSplit(initial, ticks[0].value.logs, last);
    LogEventsAppend(initial, last[|initial|..]);
  }

  /** A prefix of a prefix of `c` leaves the rest of `c` after it. */
  lemma PrefixSplit(a: seq<string>, b: seq<string>, c: seq<string>)
    requires a <= b && b <= c
    ensures |a| <= |c| && c == a + c[|a|..]
  {
    assert c[..|a|] == a;
  }

  /** `event_generator`: its local counters, and the events it has yielded. */
  class EventGenerator {
    var lastCount: nat
    var lastVersion: int
    /** Every event yielded so far, in order. */
    var yielded: seq<Value>

    function State(): Counters
      reads this
    {
      Counters(lastCount, lastVersion)
    }

    /** The generator up to its loop: the version is read first, then the
        current lines are yielded one by one. */
    constructor (version: int, initial: Result<seq<string>, string>)
      ensures State() == Opening(version, initial).0 && yielded == Opening(version, initial).1
    {
      lastCount := 0;
      lastVersion := version;
      match initial {
        case Err(e) =>
          yielded := [ErrorEvent("Failed to get initial logs: " + e)];
        case Ok(logs) =>
          var sent: seq<Value> := [];
          if logs != [] {
            for i := 0 to |logs|
              invariant sent == LogEvents(logs[..i])
            {
              sent := sent + [LogEvent(logs[i])];
            }
            lastCount := |logs|;
          }
          assert logs[..|logs|] == logs;
          yielded := sent;
      }
    }

    /** One pass of the loop body. */
    method Tick(read: Result<Snapshot, string>)
      modifies this
      ensures State() == Step(old(State()), read).0
      ensures yielded == old(yielded) + Step(old(State()), read).1
    {
      match read {
        case Err(e) =>
          yielded := yielded + [ErrorEvent("Stream error: " + e)];
        case Ok(s) =>
          if s.version != lastVersion {
            lastVersion := s.version;
            lastCount := 0;
          }
          if |s.logs| > lastCount {
            var newLogs := s.logs[lastCount..];
            assert Step(old(State()), read).0 == Counters(|s.logs|, s.version);
            assert Step(old(State()), read).1 == LogEvents(newLogs);
            var sent: seq<Value> := [];
            for i := 0 to |newLogs|
              invariant sent == LogEvents(newLogs[..i])
            {
              sent := sent + [LogEvent(newLogs[i])];
            }
            assert newLogs[..|newLogs|] == newLogs;
            yielded := yielded + sent;
            lastCount := |s.logs|;
          } else {
            assert Step(old(State()), read).0 == State() && Step(old(State()), read).1 == [];
          }
      }
    }

    /** The loop over a finite series of ticks, one tick each. */
    method RunTicks(ticks: seq<Result<Snapshot, string>>)
      modifies this
      ensures State() == Run(old(State()), ticks).0
      ensures yielded == old(yielded) + Run(old(State()), ticks).1
    {
      for i := 0 to |ticks|
        invariant State() == Run(old(State()), ticks[..i]).0
        invariant yielded == old(yielded) + Run(old(State()), ticks[..i]).1
      {
        RunSnoc(old(State()), ticks, i);
        ghost var before := yielded;
        Tick(ticks[i]);
        AppendAssoc(old(yielded), Run(old(State()), ticks[..i]).1, yielded[|before|..]);
      }
      assert ticks[..|ticks|] == ticks;
    }
  }
}
