/** The web UI's dashboard: the queue shown from `/api/queue/status` and the
    index of the entry on display, moved by the "previous" and "next"
    buttons.  A fetch's outcome is a parameter. */
module DashboardPage {
  import opened Wrappers
  import opened Json
  import DeploymentForm

  /** The queue (its entries as the service sent them) and the index shown. */
  datatype Dashboard = Dashboard(queue: seq<Value>, index: int)

  const Initial: Dashboard := Dashboard([], 0)

  /** The index points at an entry, or is 0 for an empty queue. */
  predicate Valid(d: Dashboard) {
    0 <= d.index && (d.index < |d.queue| || d.index == 0)
  }

  /** The reply as `fetchQueue` keeps it: an object or array whose `queue`
      field is an array gives that array; a falsy reply, a scalar, or any
      other `queue` gives an empty queue. */
  function QueueOf(data: Value): (q: seq<Value>)
    ensures (exists items :: Field(data, "queue") == Some(List(items))) ==> q == Field(data, "queue").value.items
    ensures !(exists items :: Field(data, "queue") == Some(List(items))) ==> q == []
  {
    if !Truthy(data) || !(data.Object? || data.List?) then []
    else match Field(data, "queue")
      case Some(List(items)) => items
      case _ => []
  }

  /** The state after `fetchQueue` settled.  `reply` is None when the request
      failed, answered with an error status or was not JSON: the queue is
      emptied and the index reset.  Otherwise the queue is replaced, and an
      index past its end goes back to 0. */
  function Fetched(d: Dashboard, reply: Option<Value>): (r: Dashboard)
    requires d.index >= 0
    ensures Valid(r)
    ensures reply.None? ==> r == Dashboard([], 0)
    ensures reply.Some? ==> r.queue == QueueOf(reply.value) &&
                            r.index == (if d.index >= |r.queue| then 0 else d.index)
  {
    match reply
    case None => Dashboard([], 0)
    case Some(data) =>
      var q := QueueOf(data);
      Dashboard(q, if d.index >= |q| then 0 else d.index)
  }

  /** "Next" moves on only while a later entry exists. */
  function Next(d: Dashboard): (r: Dashboard)
    ensures r.queue == d.queue
    ensures r.index == (if d.index < |d.queue| - 1 then d.index + 1 else d.index)
  {
    if d.index < |d.queue| - 1 then d.(index := d.index + 1) else d
  }

  /** "Previous" moves back only while an earlier entry exists. */
  function Previous(d: Dashboard): (r: Dashboard)
    ensures r.queue == d.queue
    ensures r.index == (if d.index > 0 then d.index - 1 else d.index)
  {
    if d.index > 0 then d.(index := d.index - 1) else d
  }

  /** The buttons keep the index on an entry. */
  lemma NavigationKeepsIndexValid(d: Dashboard)
    requires Valid(d)
    ensures Valid(Next(d)) && Valid(Previous(d))
  {
  }

  /** "Previous" undoes a "next" that moved, and the other way round. */
  lemma NavigationUndoes(d: Dashboard)
    requires Valid(d)
    ensures Next(d).index != d.index ==> Previous(Next(d)) == d
    ensures Previous(d).index != d.index ==> Next(Previous(d)) == d
  {
  }

  /** Pressing "next" often enough reaches the last entry and stays there. */
  lemma {:induction false} NextReachesLast(d: Dashboard, n: nat)
    requires Valid(d) && |d.queue| > 0
    requires n >= |d.queue| - 1 - d.index
    ensures Iterate(d, n).index == |d.queue| - 1
    decreases n
  {
    if n > 0 {
      NextReachesLast(Next(d), n - 1);
    }
  }

  function Iterate(d: Dashboard, n: nat): Dashboard
    decreases n
  {
    if n == 0 then d else Iterate(Next(d), n - 1)
  }

  /** What the panel shows. */
  datatype Shown = Entry(item: Value) | Draft(form: DeploymentForm.Form)

  /** `currentQueue[index] || currentDeployment`: the entry at the index
      when there is one and it is truthy, otherwise the draft form. */
  function Displayed(d: Dashboard, draft: DeploymentForm.Form): (r: Shown)
    ensures r.Entry? <==> 0 <= d.index < |d.queue| && Truthy(d.queue[d.index])
    ensures r.Entry? ==> r.item == d.queue[d.index]
    ensures r.Draft? ==> r.form == draft
  {
    if 0 <= d.index < |d.queue| && Truthy(d.queue[d.index]) then Entry(d.queue[d.index]) else Draft(draft)
  }

  /** An empty queue always shows the draft. */
  lemma EmptyQueueShowsDraft(d: Dashboard, draft: DeploymentForm.Form)
    requires d.queue == []
    ensures Displayed(d, draft) == Draft(draft)
  {
  }
}
