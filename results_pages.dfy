/** The web UI's two result lists: the results page, whose rows are the
    entries `/api/results` returns, keyed by `uuid`, and the older experiment
    results page, which reads its rows from a `results` field and keys them
    by `id`.  Both delete optimistically: once the server answers a delete
    with an ok status, the rows with that key are dropped locally.  Rows are
    kept as the JSON values received; requests are parameters. */
module ResultsPages {
  import opened Wrappers
  import opened Json

  /** `rows.filter(r => r[key] !== value)`: `value` is the clicked row's key,
      None when that row has no such field (`undefined`). */
  function WithoutKey(rows: seq<Value>, key: string, value: Option<Value>): (r: seq<Value>)
    ensures forall x :: x in r <==> x in rows && Field(x, key) != value
    ensures |r| <= |rows|
  {
    if rows == [] then []
    else (if Field(rows[0], key) == value then [] else [rows[0]]) + WithoutKey(rows[1..], key, value)
  }

  /** `handleDelete` once the request settled: `ok` when the server answered
      with an ok status; a failed request or an error status leaves the rows. */
  function Deleted(rows: seq<Value>, key: string, value: Option<Value>, ok: bool): (r: seq<Value>)
    ensures !ok ==> r == rows
    ensures ok ==> forall x :: x in r <==> x in rows && Field(x, key) != value
  {
    if ok then WithoutKey(rows, key, value) else rows
  }

  /** The results page: after an ok delete exactly the rows with that uuid
      are gone. */
  function DeleteByUuid(rows: seq<Value>, uuid: string, ok: bool): (r: seq<Value>)
    ensures !ok ==> r == rows
    ensures ok ==> forall x :: x in r <==> x in rows && Field(x, "uuid") != Some(Str(uuid))
  {
    Deleted(rows, "uuid", Some(Str(uuid)), ok)
  }

  /** Rows without that uuid survive the delete in their order. */
  lemma {:induction false} DeleteKeepsOthers(rows: seq<Value>, uuid: string)
    requires forall i :: 0 <= i < |rows| ==> Field(rows[i], "uuid") != Some(Str(uuid))
    ensures DeleteByUuid(rows, uuid, true) == rows
  {
    if rows != [] {
      DeleteKeepsOthers(rows[1..], uuid);
      assert [rows[0]] + rows[1..] == rows;
    }
  }

  /** The experiment results page deletes by `id`, a field the entries
      `/api/results` sends do not have: the clicked row's id is `undefined`,
      and an ok delete drops every such row. */
  lemma {:induction false} DeleteByMissingIdDropsAll(rows: seq<Value>)
    requires forall i :: 0 <= i < |rows| ==> Field(rows[i], "id").None?
    ensures Deleted(rows, "id", None, true) == []
  {
    if rows != [] {
      DeleteByMissingIdDropsAll(rows[1..]);
    }
  }

  /** The results page's list after the initial fetch: `reply` is the parsed
      array, None when the request failed, in which case the list stays. */
  function ResultsFetched(rows: seq<Value>, reply: Option<seq<Value>>): (r: seq<Value>)
    ensures reply.Some? ==> r == reply.value
    ensures reply.None? ==> r == rows
  {
    if reply.Some? then reply.value else rows
  }

  /** A failed first fetch leaves the results page empty. */
  lemma FailedFetchLeavesEmpty()
    ensures ResultsFetched([], None) == []
  {
  }

  /** The experiment results page's list after its fetch: the `results`
      field of the reply, or None (`undefined`) when the reply has no array
      there.  A failed request leaves the list as it was, and so does a
      `null` reply: reading `data.results` on it throws, and the `catch`
      swallows the error before `setResults` runs. */
  function ExperimentResultsFetched(rows: Option<seq<Value>>, reply: Option<Value>): (r: Option<seq<Value>>)
    ensures reply.None? || reply == Some(Null) ==> r == rows
    ensures reply.Some? && (exists items :: Field(reply.value, "results") == Some(List(items))) ==>
              r == Some(Field(reply.value, "results").value.items)
    ensures reply.Some? && reply != Some(Null) && !(exists items :: Field(reply.value, "results") == Some(List(items))) ==>
              r.None?
  {
    match reply
    case None => rows
    case Some(Null) => rows
    case Some(data) =>
      match Field(data, "results")
      case Some(List(items)) => Some(items)
      case _ => None
  }

  /** `/api/results` answers with a bare array, which has no `results`
      field: the experiment results page is left without a list. */
  lemma ArrayReplyLeavesNoList(rows: Option<seq<Value>>, items: seq<Value>)
    ensures ExperimentResultsFetched(rows, Some(List(items))).None?
  {
  }

  /** The text colour of a status cell. */
  datatype Colour = Orange | Red | Green | Gray

  /** `getStatusColor`: the three known statuses have their colours, any
      other status is gray. */
  function StatusColour(status: string): (c: Colour)
    ensures c == Orange <==> status == "STARTED"
    ensures c == Red <==> status == "FAILED"
    ensures c == Green <==> status == "COMPLETED"
  {
    if status == "STARTED" then Orange
    else if status == "FAILED" then Red
    else if status == "COMPLETED" then Green
    else Gray
  }
}
