/** `SharedExperimentQueue`: a FIFO list of deployment requests shared between
    processes, with removal by position, a flush, and a record of the request
    most recently taken off the front.  The manager's lock and condition only
    serialise the calls; the model is the sequential contents. */
module SharedQueue {
  import opened Wrappers
  import opened DeployRequests
  import Seqs

  datatype QueueError = TypeError | ValueError | IndexError

  /** What a caller hands to `enqueue`: a deployment request or any other value. */
  datatype Payload = Request(request: DeployRequest) | NotARequest

  class SharedExperimentQueue {
    var items: seq<DeployRequest>
    var lastDeployRequest: Option<DeployRequest>

    constructor ()
      ensures items == [] && lastDeployRequest == None
    {
      items := [];
      lastDeployRequest := None;
    }

    /** Anything that is not a request is refused with a TypeError and changes
        nothing; a request goes to the back. */
    method Enqueue(x: Payload) returns (err: Option<QueueError>)
      modifies this
      ensures x.NotARequest? ==> err == Some(TypeError) && items == old(items)
      ensures x.Request? ==> err == None && items == old(items) + [x.request]
      ensures lastDeployRequest == old(lastDeployRequest)
    {
      if x.NotARequest? {
        return Some(TypeError);
      }
      items := items + [x.request];
      err := None;
    }

    /** The front request is removed, returned and remembered; an empty queue
        raises ValueError and changes nothing. */
    method Dequeue() returns (r: Result<DeployRequest, QueueError>)
      modifies this
      ensures old(items) == [] ==> r == Err(ValueError) && items == [] && lastDeployRequest == old(lastDeployRequest)
      ensures old(items) != [] ==>
        && r == Ok(old(items)[0])
        && items == old(items)[1..]
        && lastDeployRequest == Some(old(items)[0])
    {
      if items == [] {
        return Err(ValueError);
      }
      var front := items[0];
      items := items[1..];
      lastDeployRequest := Some(front);
      r := Ok(front);
    }

    /** The waiting variant, for a caller that has already seen a request
        arrive: it never raises.  This is the dequeue the source intends; as
        written, `dequeue` takes the lock the condition already holds, and a
        non-reentrant lock makes that wait forever. */
    method DequeueBlocking() returns (r: DeployRequest)
      requires items != []
      modifies this
      ensures r == old(items)[0] && items == old(items)[1..] && lastDeployRequest == Some(r)
    {
      var res := Dequeue();
      r := res.value;
    }

    /** A copy of the requests in queue order. */
    function GetAll(): (r: seq<DeployRequest>)
      reads this
      ensures |r| == Size() && forall i :: 0 <= i < |r| ==> r[i] == items[i]
    {
      items
    }

    function Size(): (n: nat)
      reads this
      ensures n == |items|
    {
      |items|
    }

    function IsEmpty(): (b: bool)
      reads this
      ensures b <==> Size() == 0
    {
      |items| == 0
    }

    /** Outside `0 <= index < size` an IndexError leaves the queue alone;
        otherwise exactly that request is taken out and returned. */
    method RemoveItemAtIndex(index: int) returns (r: Result<DeployRequest, QueueError>)
      modifies this
      ensures !(0 <= index < |old(items)|) ==> r == Err(IndexError) && items == old(items)
      ensures 0 <= index < |old(items)| ==>
        r == Ok(old(items)[index]) && items == Seqs.RemoveAt(old(items), index)
      ensures lastDeployRequest == old(lastDeployRequest)
    {
      if index < 0 || index >= |items| {
        return Err(IndexError);
      }
      r := Ok(items[index]);
      items := items[..index] + items[index + 1..];
    }

    method Flush()
      modifies this
      ensures items == [] && lastDeployRequest == None
    {
      items := [];
      lastDeployRequest := None;
    }
  }
}
