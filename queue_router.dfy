/** The HTTP handlers of `/api/queue/...` that act on the deployer's
    `ExperimentQueue`: enqueue a list of requests, report the status, remove
    one entry, flush. */
module QueueRouter {
  import opened Wrappers
  import opened DeployRequests
  import opened ExperimentQueues
  import Text
  import Seqs

  datatype Reply =
    | Accepted(message: string)
    | NoContent
    | QueueStatus(queueSize: nat, queue: seq<DeployRequest>)
    | HttpError(code: nat, detail: string)

  function EnqueuedMessage(n: nat): string {
    "Enqueued " + Text.NatToString(n) + " deployment requests."
  }

  /** `POST /api/queue/enqueue`: an empty list is a 400 and enqueues nothing;
      otherwise every request is enqueued, in the order given, and the reply
      reports how many. */
  method EnqueueExperiment(q: ExperimentQueue, request: seq<DeployRequest>) returns (reply: Reply)
    requires q.Valid()
    modifies q
    ensures q.Valid()
    ensures request == [] ==> reply == HttpError(400, "Request body cannot be empty") && q.queue == old(q.queue)
    ensures request != [] ==> reply == Accepted(EnqueuedMessage(|request|)) && q.queue == old(q.queue) + request
    ensures q.unfinishedTasks == old(q.unfinishedTasks) + |request|
    ensures q.lastExperiment == old(q.lastExperiment)
  {
    if request == [] {
      return HttpError(400, "Request body cannot be empty");
    }
    var i := 0;
    while i < |request|
      invariant 0 <= i <= |request|
      invariant q.Valid()
      invariant q.queue == old(q.queue) + request[..i]
      invariant q.unfinishedTasks == old(q.unfinishedTasks) + i
      invariant q.lastExperiment == old(q.lastExperiment)
    {
      q.Enqueue(request[i]);
      assert request[..i + 1] == request[..i] + [request[i]];
      i := i + 1;
    }
    assert request[..i] == request;
    reply := Accepted(EnqueuedMessage(|request|));
  }

  /** `GET /api/queue/status`: the size together with the whole queue. */
  function GetQueueStatus(q: ExperimentQueue): (reply: Reply)
    reads q
    ensures reply.QueueStatus? && reply.queueSize == |reply.queue| && reply.queue == q.GetAll()
  {
    QueueStatus(q.Size(), q.GetAll())
  }

  /** `DELETE /api/queue/remove/{queue_index}` as written: the handler calls
      `remove`, which `ExperimentQueue` does not define, so the call raises
      AttributeError.  That is not the IndexError the handler catches, and the
      framework answers 500; the queue is never changed.  The index also arrives
      as an untyped path string.  Result: the reply and the queue afterwards. */
  function DeleteQueueItemAsWritten(queue: seq<DeployRequest>, queueIndex: string): (r: (Reply, seq<DeployRequest>))
    ensures r.0 == HttpError(500, "Internal Server Error") && r.1 == queue
  {
    (HttpError(500, "Internal Server Error"), queue)
  }

  /** The evident intent: remove the entry through `remove_item_at_index`,
      answer 404 for an index out of range and 204 otherwise. */
  method DeleteQueueItem(q: ExperimentQueue, queueIndex: int) returns (reply: Reply)
    requires q.Valid()
    modifies q
    ensures q.Valid()
    ensures !(-|old(q.queue)| <= queueIndex < |old(q.queue)|) ==>
      reply.HttpError? && reply.code == 404 && q.queue == old(q.queue)
    ensures 0 <= queueIndex < |old(q.queue)| ==>
      reply == NoContent && q.queue == Seqs.RemoveAt(old(q.queue), queueIndex)
    ensures -|old(q.queue)| <= queueIndex < 0 ==>
      reply == NoContent && q.queue == Seqs.RemoveAt(old(q.queue), queueIndex + |old(q.queue)|)
  {
    var r := q.RemoveItemAtIndex(queueIndex);
    if r.Err? {
      return HttpError(404, "Index " + Text.IntToString(queueIndex) + " out of range for the queue.");
    }
    reply := NoContent;
  }

  /** The discrepancy: with one queued request and index "0", the handler as
      written answers 500 and keeps the request, where removing it was meant. */
  lemma DeleteAsWrittenNeverRemoves(x: DeployRequest)
    ensures DeleteQueueItemAsWritten([x], "0").0.code == 500
    ensures DeleteQueueItemAsWritten([x], "0").1 == [x]
    ensures Seqs.RemoveAt([x], 0) == []
  {
  }

  /** `DELETE /api/queue/flush`. */
  method FlushQueue(q: ExperimentQueue) returns (reply: Reply)
    modifies q
    ensures q.Valid() && q.queue == [] && reply == NoContent
  {
    q.Flush();
    reply := NoContent;
  }
}
