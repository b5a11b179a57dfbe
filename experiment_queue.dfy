/** `ExperimentQueue`: a `queue.Queue` of deployment requests extended with
    indexed access, removal by index, a flush, and the last request dequeued.
    `Queue.put` raises the count of unfinished tasks and nothing in the system
    ever calls `task_done`, so that count never falls below the queue length. */
module ExperimentQueues {
  import opened Wrappers
  import opened DeployRequests
  import Seqs

  datatype QueueError = ValueError | IndexError

  class ExperimentQueue {
    var queue: seq<DeployRequest>
    var unfinishedTasks: int
    var lastExperiment: Option<DeployRequest>

    ghost predicate Valid()
      reads this
    {
      unfinishedTasks >= |queue|
    }

    constructor ()
      ensures Valid() && queue == [] && unfinishedTasks == 0 && lastExperiment == None
    {
      queue := [];
      unfinishedTasks := 0;
      lastExperiment := None;
    }

    /** Reading the property before anything was dequeued raises ValueError. */
    function LastExperiment(): (r: Result<DeployRequest, QueueError>)
      reads this
      ensures r == Err(ValueError) <==> lastExperiment == None
      ensures lastExperiment.Some? ==> r == Ok(lastExperiment.value)
    {
      if lastExperiment.None? then Err(ValueError) else Ok(lastExperiment.value)
    }

    /** `put`: the request goes to the back and one more task is unfinished. */
    method Enqueue(x: DeployRequest)
      requires Valid()
      modifies this
      ensures Valid()
      ensures queue == old(queue) + [x] && unfinishedTasks == old(unfinishedTasks) + 1
      ensures lastExperiment == old(lastExperiment)
    {
      queue := queue + [x];
      unfinishedTasks := unfinishedTasks + 1;
    }

    /** `get` on a non-empty queue: the front request, which also becomes the
        last experiment.  `get` does not touch the unfinished-task count. */
    method Dequeue() returns (x: DeployRequest)
      requires Valid() && queue != []
      modifies this
      ensures Valid()
      ensures x == old(queue)[0] && queue == old(queue)[1..]
      ensures lastExperiment == Some(x) && unfinishedTasks == old(unfinishedTasks)
    {
      x := queue[0];
      queue := queue[1..];
      lastExperiment := Some(x);
    }

    /** `self.queue[index]` on the underlying deque: Python indexing, with
        negative indices counted from the back, and IndexError outside. */
    function GetItemAtIndex(index: int): (r: Result<DeployRequest, QueueError>)
      reads this
      ensures r.Err? <==> !(-|queue| <= index < |queue|)
      ensures 0 <= index < |queue| ==> r == Ok(queue[index])
      ensures -|queue| <= index < 0 ==> r == Ok(queue[|queue| + index])
    {
      match Seqs.PyIndex(index, |queue|)
      case None => Err(IndexError)
      case Some(k) => Ok(queue[k])
    }

    /** Deletes exactly the indexed request, returns it, and lowers the
        unfinished-task count by one; an invalid index changes nothing. */
    method RemoveItemAtIndex(index: int) returns (r: Result<DeployRequest, QueueError>)
      requires Valid()
      modifies this
      ensures Valid()
      ensures !(-|old(queue)| <= index < |old(queue)|) ==>
        r == Err(IndexError) && queue == old(queue) && unfinishedTasks == old(unfinishedTasks)
      ensures -|old(queue)| <= index < |old(queue)| ==>
        var k := if index < 0 then index + |old(queue)| else index;
        && r == Ok(old(queue)[k])
        && queue == Seqs.RemoveAt(old(queue), k)
        && unfinishedTasks == old(unfinishedTasks) - 1
      ensures lastExperiment == old(lastExperiment)
    {
      var k := Seqs.PyIndex(index, |queue|);
      if k.None? {
        return Err(IndexError);
      }
      r := Ok(queue[k.value]);
      queue := Seqs.RemoveAt(queue, k.value);
      unfinishedTasks := unfinishedTasks - 1;
    }

    function IsEmpty(): (b: bool)
      reads this
      ensures b <==> queue == []
    {
      |queue| == 0
    }

    function Size(): (n: nat)
      reads this
      ensures n == |queue|
    {
      |queue|
    }

    /** Every request is dropped and no task is left unfinished; the last
        experiment is kept. */
    method Flush()
      modifies this
      ensures Valid() && queue == [] && unfinishedTasks == 0
      ensures lastExperiment == old(lastExperiment)
    {
      queue := [];
      unfinishedTasks := 0;
    }

    /** A copy of the requests, front first. */
    function GetAll(): (r: seq<DeployRequest>)
      reads this
      ensures |r| == Size() && forall i :: 0 <= i < |r| ==> GetItemAtIndex(i) == Ok(r[i])
    {
      queue
    }
  }
}
