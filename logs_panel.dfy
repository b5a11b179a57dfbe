/** The web UI's deployment log panel: its state (the lines shown, the loading
    flag and the error) and the handlers that change it.  Network calls are
    not part of this model: a fetch's outcome and each stream message are
    parameters.  The effect's `EventSource` and polling timer, and what happens
    after unmounting, are left out. */
module LogsPanel {
  import opened Wrappers
  import opened Json
  import Text
  import LogStream

  /** The panel's React state. */
  datatype Panel = Panel(logs: seq<Value>, loading: bool, error: Option<Value>)

  const FailedToLoad: string := "Failed to load logs."

  /** JavaScript's `String(x)` for a value that is not an array. */
  function JsString(v: Value): string
    requires !v.List?
  {
    match v
    case Null => "null"
    case Bool(b) => if b then "true" else "false"
    case Int(i) => Text.IntToString(i)
    case Str(s) => s
    case Object(_) => "[object Object]"
  }

  /** The `logs` field of a `/api/logs` reply as the panel keeps it: an array
      as it is, any other truthy value as its one string, anything else (a
      falsy value or a missing field) as no lines. */
  function NormalisedLogs(logs: Option<Value>): (r: seq<Value>)
    ensures logs.Some? && logs.value.List? ==> r == logs.value.items
    ensures logs.Some? && !logs.value.List? && Truthy(logs.value) ==> r == [Str(JsString(logs.value))]
    ensures (logs.None? || !Truthy(logs.value)) ==> r == []
  {
    match logs
    case None => []
    case Some(v) =>
      if v.List? then v.items
      else if Truthy(v) then [Str(JsString(v))]
      else []
  }

  /** `fetchLogs` once its request has settled.  `reply` is the parsed body, or
      None when the request or the parse threw; reading a field of a `null`
      body throws too.  A truthy `error` field is shown and empties the lines;
      otherwise the lines are the normalised `logs` field. */
  function Fetched(p: Panel, reply: Option<Value>): (r: Panel)
    ensures !r.loading
    ensures (reply.None? || reply.value.Null?) ==> r == Panel([], false, Some(Str(FailedToLoad)))
    ensures reply.Some? && !reply.value.Null? ==>
              var e := Field(reply.value, "error");
              if e.Some? && Truthy(e.value) then r == Panel([], false, e)
              else r == Panel(NormalisedLogs(Field(reply.value, "logs")), false, None)
  {
    match reply
    case None => Panel([], false, Some(Str(FailedToLoad)))
    case Some(data) =>
      if data.Null? then Panel([], false, Some(Str(FailedToLoad)))
      else
        var e := Field(data, "error");
        if e.Some? && Truthy(e.value) then Panel([], false, e)
        else Panel(NormalisedLogs(Field(data, "logs")), false, None)
  }

  /** The panel shows exactly the lines `get_logs` returned; when reading the
      buffer failed with a non-empty message, it shows that message and no
      lines. */
  lemma FetchShowsServerLogs(p: Panel, read: Result<seq<string>, string>)
    ensures read.Ok? ==> Fetched(p, Some(LogStream.GetLogs(read))) ==
                         Panel(LogStream.Strs(read.value), false, None)
    ensures read.Err? && read.error != [] ==>
              Fetched(p, Some(LogStream.GetLogs(read))) == Panel([], false, Some(Str(read.error)))
    ensures read.Err? && read.error == [] ==> Fetched(p, Some(LogStream.GetLogs(read))) == Panel([], false, None)
  {
  }

  /** One stream message: its raw `data` text and what `JSON.parse` made of it
      (None when the parse threw). */
  datatype Message = Message(data: string, parsed: Option<Value>)

  /** `onmessage`: a truthy `log` field is appended after every line already
      shown; text that is not JSON, or that parses to `null` (whose `log` read
      throws), is appended as raw text; anything else changes nothing. */
  function OnMessage(p: Panel, m: Message): (r: Panel)
    ensures r.loading == p.loading && r.error == p.error
    ensures r.logs == p.logs || (|r.logs| == |p.logs| + 1 && r.logs[..|p.logs|] == p.logs)
    ensures m.parsed.None? ==> r.logs == p.logs + [Str(m.data)]
    ensures m.parsed.Some? && !m.parsed.value.Null? ==>
              var f := Field(m.parsed.value, "log");
              r.logs == if f.Some? && Truthy(f.value) then p.logs + [f.value] else p.logs
  {
    match m.parsed
    case None => p.(logs := p.logs + [Str(m.data)])
    case Some(v) =>
      if v.Null? then p.(logs := p.logs + [Str(m.data)])
      else
        var f := Field(v, "log");
        if f.Some? && Truthy(f.value) then p.(logs := p.logs + [f.value]) else p
  }

  /** The messages received, handled in order. */
  function Receive(p: Panel, ms: seq<Message>): Panel
    decreases |ms|
  {
    if ms == [] then p else OnMessage(Receive(p, ms[..|ms| - 1]), ms[|ms| - 1])
  }

  /** The non-empty lines, as shown: an empty line is falsy and is dropped. */
  function Shown(lines: seq<string>): (r: seq<Value>)
    ensures |r| <= |lines|
    ensures (forall i :: 0 <= i < |lines| ==> lines[i] != []) ==> r == LogStream.Strs(lines)
    decreases |lines|
  {
    if lines == [] then []
    else
      var front := lines[..|lines| - 1];
      var last := lines[|lines| - 1];
      assert forall i :: 0 <= i < |front| ==> front[i] == lines[i];
      Shown(front) + (if last != [] then [Str(last)] else [])
  }

  /** The messages whose parsed payloads are the given events. */
  predicate Carries(ms: seq<Message>, events: seq<Value>) {
    |ms| == |events| && forall i :: 0 <= i < |ms| ==> ms[i].parsed == Some(events[i])
  }

  /** The stream's log events append their non-empty lines, in order, after
      the lines already shown, and change nothing else. */
  lemma {:induction false} ReceiveLogEvents(p: Panel, ms: seq<Message>, lines: seq<string>)
    requires Carries(ms, LogStream.LogEvents(lines))
    ensures Receive(p, ms) == p.(logs := p.logs + Shown(lines))
    decreases |ms|
  {
    if ms != [] {
      var n := |ms|;
      var front, fl := ms[..n - 1], lines[..n - 1];
      CarriesFront(ms, lines);
      ReceiveLogEvents(p, front, fl);
      OnLogEvent(Receive(p, front), ms[n - 1], lines[n - 1]);
      ShownSnoc(lines);
    }
  }

  /** Dropping the last message and the last line keeps the messages
      carrying the events. */
  lemma CarriesFront(ms: seq<Message>, lines: seq<string>)
    requires ms != [] && Carries(ms, LogStream.LogEvents(lines))
    ensures lines != [] && Carries(ms[..|ms| - 1], LogStream.LogEvents(lines[..|lines| - 1]))
    ensures ms[|ms| - 1].parsed == Some(LogStream.LogEvent(lines[|lines| - 1]))
  {
    var front, fl := ms[..|ms| - 1], lines[..|lines| - 1];
    forall i | 0 <= i < |front|
      ensures front[i].parsed == Some(LogStream.LogEvents(fl)[i])
    {
      assert front[i] == ms[i] && fl[i] == lines[i];
    }
  }

  /** One log event appends its line when it is not empty. */
  lemma OnLogEvent(q: Panel, m: Message, line: string)
    requires m.parsed == Some(LogStream.LogEvent(line))
    ensures OnMessage(q, m) == q.(logs := q.logs + (if line != [] then [Str(line)] else []))
  {
    assert Field(LogStream.LogEvent(line), "log") == Some(Str(line));
  }

  lemma ShownSnoc(lines: seq<string>)
    requires lines != []
    ensures Shown(lines) == Shown(lines[..|lines| - 1]) +
                            (if lines[|lines| - 1] != [] then [Str(lines[|lines| - 1])] else [])
  {
  }

  /** `clearLogs`: the lines are emptied only after an ok reply; a failed or
      refused request leaves the panel as it was. */
  function Cleared(p: Panel, ok: bool): (r: Panel)
    ensures ok ==> r == p.(logs := [])
    ensures !ok ==> r == p
  {
    if ok then p.(logs := []) else p
  }

  /** The panel's state while no deployment runs: no lines, no error, not
      loading. */
  const Idle: Panel := Panel([], false, None)

  /** What `renderLogs` shows. */
  datatype View = LoadingNote | ErrorNote(error: Value) | NothingDeployed | WaitingNote | Lines(lines: seq<Value>)

  function Render(p: Panel, deploying: bool): (v: View)
    ensures v.Lines? <==> !(p.loading && p.logs == []) && p.error.None? && p.logs != []
    ensures v.Lines? ==> v.lines == p.logs
    ensures v.ErrorNote? <==> !(p.loading && p.logs == []) && p.error.Some?
    ensures v.NothingDeployed? ==> !deploying
  {
    if p.loading && p.logs == [] then LoadingNote
    else if p.error.Some? then ErrorNote(p.error.value)
    else if !deploying && p.logs == [] then NothingDeployed
    else if p.logs == [] then WaitingNote
    else Lines(p.logs)
  }

  /** Mounting while a deployment runs, as written: the fetched lines stay and
      the stream's messages are appended after them. */
  function Mount(p: Panel, reply: Option<Value>, ms: seq<Message>): Panel {
    Receive(Fetched(p.(loading := true, error := None), reply), ms)
  }

  /** Mounting as evidently intended: the stream, whose opening replays the
      whole buffer, starts from an empty list, so the fetched lines are not
      kept twice. */
  function MountOnce(p: Panel, reply: Option<Value>, ms: seq<Message>): Panel {
    Receive(Fetched(p.(loading := true, error := None), reply).(logs := []), ms)
  }

  /** As written, a mount while the buffer holds lines shows every one of them
      twice: once from the fetch and once from the stream's opening. */
  lemma MountShowsBufferTwice(p: Panel, version: int, lines: seq<string>, ms: seq<Message>)
    requires lines != [] && forall i :: 0 <= i < |lines| ==> lines[i] != []
    requires Carries(ms, LogStream.Opening(version, Ok(lines)).1)
    ensures Mount(p, Some(LogStream.GetLogs(Ok(lines))), ms).logs ==
            LogStream.Strs(lines) + LogStream.Strs(lines)
    ensures |Mount(p, Some(LogStream.GetLogs(Ok(lines))), ms).logs| == 2 * |lines|
  {
    var q := p.(loading := true, error := None);
    FetchShowsServerLogs(q, Ok(lines));
    ReceiveLogEvents(Fetched(q, Some(LogStream.GetLogs(Ok(lines)))), ms, lines);
  }

  /** With the corrected mount, a panel that follows an append-only buffer
      (the opening, then ticks that only add lines) shows each line of the
      latest read exactly once, in order. */
  lemma MountOnceMirrorsBuffer(p: Panel, reply: Option<Value>, version: int, initial: seq<string>,
                               ticks: seq<Result<LogStream.Snapshot, string>>, ms: seq<Message>)
    requires ticks != [] && LogStream.AppendOnly(version, ticks)
    requires initial <= ticks[0].value.logs
    requires var start := LogStream.Opening(version, Ok(initial));
             Carries(ms, start.1 + LogStream.Run(start.0, ticks).1)
    ensures var last := ticks[|ticks| - 1].value.logs;
            MountOnce(p, reply, ms).logs == Shown(last)
  {
    var last := ticks[|ticks| - 1].value.logs;
    LogStream.StreamMirrorsBuffer(version, initial, ticks);
    var q := Fetched(p.(loading := true, error := None), reply).(logs := []);
    ReceiveLogEvents(q, ms, last);
  }
}
