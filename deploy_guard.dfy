/** The service's deployment guard: the shared `is_deploying` flag that
    `POST /api/deploy/sut` sets under the state lock, that the deployment
    process clears when it ends, and that `GET /api/status` reports.  The
    lock is not modelled: each request and each process end is one atomic
    step, and whether the SUT file exists, whether its configuration loads
    and whether the process starts are parameters. */
module DeployGuard {
  import opened Wrappers

  /** What happens to the guard: a deploy request for a SUT, or the end of
      the deployment process (its `finally` block).  `configOk` says whether
      `Config(...)` loads the SUT's configuration. */
  datatype Event = Request(sut: string, sutExists: bool, configOk: bool, startOk: bool) | Finished

  /** The reply to an event: 202 with its message, an error status, or none
      for a process end. */
  datatype Reply = Accepted(message: string) | Refused(code: int) | NoReply

  function StartedMessage(sut: string): string {
    "Deployment of SUT " + sut + " has been started."
  }

  /** One step of the guard on the flag.  `loadInTry` says where the
      configuration is loaded: false as written, before the `try` that
      clears the flag, so a failed load is answered 500 by the framework
      with the flag still set; true when the load is moved into that `try`. */
  function Step(flag: int, e: Event, loadInTry: bool): (r: (int, Reply))
    ensures e.Request? && flag == 1 ==> r == (flag, Refused(409))
    ensures e.Request? && flag != 1 ==>
              (r.1.Accepted? <==> e.sutExists && e.configOk && e.startOk) &&
              (r.1.Accepted? ==> r == (1, Accepted(StartedMessage(e.sut)))) &&
              (!e.sutExists ==> r == (0, Refused(404))) &&
              (e.sutExists && !e.configOk ==> r == (if loadInTry then 0 else 1, Refused(500))) &&
              (e.sutExists && e.configOk && !e.startOk ==> r == (0, Refused(500)))
    ensures e.Finished? ==> r == (0, NoReply)
  {
    match e
    case Finished => (0, NoReply)
    case Request(sut, sutExists, configOk, startOk) =>
      if flag == 1 then (flag, Refused(409))
      else if !sutExists then (0, Refused(404))
      else if !configOk then (if loadInTry then 0 else 1, Refused(500))
      else if !startOk then (0, Refused(500))
      else (1, Accepted(StartedMessage(sut)))
  }

  /** The flag after the first `m` events, starting from 0. */
  function FlagAt(events: seq<Event>, m: nat, loadInTry: bool): int
    requires m <= |events|
  {
    if m == 0 then 0 else Step(FlagAt(events, m - 1, loadInTry), events[m - 1], loadInTry).0
  }

  /** The reply to event `m`. */
  function ReplyAt(events: seq<Event>, m: nat, loadInTry: bool): Reply
    requires m < |events|
  {
    Step(FlagAt(events, m, loadInTry), events[m], loadInTry).1
  }

  /** Event `i` is a request that found the flag clear and left it set. */
  predicate SetsFlag(events: seq<Event>, i: nat, loadInTry: bool)
    requires i < |events|
  {
    events[i].Request? && FlagAt(events, i, loadInTry) != 1 && FlagAt(events, i + 1, loadInTry) == 1
  }

  /** The requests that set the flag: the accepted ones, and, as written, a
      failed configuration load as well. */
  lemma SetsFlagWhen(events: seq<Event>, i: nat, loadInTry: bool)
    requires i < |events|
    ensures SetsFlag(events, i, loadInTry) <==>
              ReplyAt(events, i, loadInTry).Accepted? ||
              (!loadInTry && events[i].Request? && FlagAt(events, i, loadInTry) != 1 &&
               events[i].sutExists && !events[i].configOk)
  {
  }

  /** The flag only ever holds 0 or 1. */
  lemma {:induction false} FlagIsBit(events: seq<Event>, m: nat, loadInTry: bool)
    requires m <= |events|
    ensures FlagAt(events, m, loadInTry) == 0 || FlagAt(events, m, loadInTry) == 1
  {
    if m > 0 {
      FlagIsBit(events, m - 1, loadInTry);
    }
  }

  /** Once a request sets the flag, it stays set until a process ends. */
  lemma {:induction false} StaysDeploying(events: seq<Event>, i: nat, m: nat, loadInTry: bool)
    requires i < m <= |events| && SetsFlag(events, i, loadInTry)
    requires forall k :: i < k < m ==> !events[k].Finished?
    ensures FlagAt(events, m, loadInTry) == 1
  {
    if m > i + 1 {
      StaysDeploying(events, i, m - 1, loadInTry);
    }
  }

  /** Only one deployment runs at a time: between two accepted deploys a
      deployment process has ended. */
  lemma OneDeploymentAtATime(events: seq<Event>, i: nat, j: nat, loadInTry: bool)
    requires i < j < |events|
    requires ReplyAt(events, i, loadInTry).Accepted? && ReplyAt(events, j, loadInTry).Accepted?
    ensures exists k :: i < k < j && events[k].Finished?
  {
    if forall k :: i < k < j ==> !events[k].Finished? {
      StaysDeploying(events, i, j, loadInTry);
    }
  }

  /** A request is refused with 409 exactly while a request that set the
      flag has not been followed by a process end. */
  lemma {:induction false} BusyIffDeploying(events: seq<Event>, m: nat, loadInTry: bool)
    requires m <= |events|
    ensures FlagAt(events, m, loadInTry) == 1 <==>
            exists i :: 0 <= i < m && SetsFlag(events, i, loadInTry) &&
                        forall k :: i < k < m ==> !events[k].Finished?
  {
    if m > 0 {
      BusyIffDeploying(events, m - 1, loadInTry);
      var e := events[m - 1];
      FlagIsBit(events, m - 1, loadInTry);
      if FlagAt(events, m, loadInTry) == 1 {
        if !SetsFlag(events, m - 1, loadInTry) {
          assert FlagAt(events, m - 1, loadInTry) == 1 && !e.Finished?;
          var i :| 0 <= i < m - 1 && SetsFlag(events, i, loadInTry) &&
                   forall k :: i < k < m - 1 ==> !events[k].Finished?;
          assert forall k :: i < k < m ==> !events[k].Finished?;
        }
      } else {
        if i :| 0 <= i < m && SetsFlag(events, i, loadInTry) && forall k :: i < k < m ==> !events[k].Finished? {
          StaysDeploying(events, i, m, loadInTry);
        }
      }
    }
  }

  /** As written, a configuration that fails to load leaves the flag set
      without starting a process, so every later request is refused with 409
      until some process end, which no running deployment will deliver. */
  lemma FailedLoadBlocksRequests(events: seq<Event>, i: nat, j: nat)
    requires i < j < |events| && events[i].Request? && FlagAt(events, i, false) != 1
    requires events[i].sutExists && !events[i].configOk
    requires events[j].Request? && forall k :: i < k < j ==> !events[k].Finished?
    ensures ReplyAt(events, i, false) == Refused(500)
    ensures ReplyAt(events, j, false) == Refused(409)
  {
    FlagIsBit(events, i, false);
    StaysDeploying(events, i, j, false);
  }

  /** With the load inside the `try`, the flag is set exactly while an
      accepted deployment has not ended. */
  lemma FixedBusyIffDeploying(events: seq<Event>, m: nat)
    requires m <= |events|
    ensures FlagAt(events, m, true) == 1 <==>
            exists i :: 0 <= i < m && ReplyAt(events, i, true).Accepted? &&
                        forall k :: i < k < m ==> !events[k].Finished?
  {
    BusyIffDeploying(events, m, true);
    forall i | 0 <= i < m
      ensures SetsFlag(events, i, true) <==> ReplyAt(events, i, true).Accepted?
    {
      SetsFlagWhen(events, i, true);
    }
  }

  /** The shared flag and, for the model, the SUTs whose deployment process
      was started. */
  class Guard {
    var isDeploying: int
    var started: seq<string>

    constructor ()
      ensures isDeploying == 0 && started == []
    {
      isDeploying := 0;
      started := [];
    }

    /** `read_status`: whether a deployment is in progress. */
    function Status(): (deploying: bool)
      reads this
      ensures deploying <==> isDeploying != 0
    {
      isDeploying != 0
    }

    /** `deploy_sut` as written: a configuration that fails to load raises
        before the `try`, leaving the flag set. */
    method Deploy(sut: string, sutExists: bool, configOk: bool, startOk: bool) returns (reply: Reply)
      modifies this
      ensures (isDeploying, reply) == Step(old(isDeploying), Request(sut, sutExists, configOk, startOk), false)
      ensures started == old(started) + (if reply.Accepted? then [sut] else [])
    {
      if isDeploying == 1 {
        return Refused(409);
      }
      isDeploying := 1;
      if !sutExists {
        isDeploying := 0;
        return Refused(404);
      }
      if !configOk {
        return Refused(500);
      }
      if !startOk {
        isDeploying := 0;
        return Refused(500);
      }
      started := started + [sut];
      return Accepted(StartedMessage(sut));
    }

    /** `run_deployment`'s `finally`: the process clears the flag. */
    method Finish()
      modifies this
      ensures isDeploying == Step(old(isDeploying), Finished, false).0
      ensures started == old(started)
    {
      isDeploying := 0;
    }

    /** A series of events, one step each: the flag follows `FlagAt`. */
    method Run(events: seq<Event>) returns (replies: seq<Reply>)
      requires isDeploying == 0
      modifies this
      ensures isDeploying == FlagAt(events, |events|, false)
      ensures |replies| == |events| && forall m :: 0 <= m < |events| ==> replies[m] == ReplyAt(events, m, false)
    {
      replies := [];
      for m := 0 to |events|
        invariant isDeploying == FlagAt(events, m, false)
        invariant |replies| == m && forall k :: 0 <= k < m ==> replies[k] == ReplyAt(events, k, false)
      {
        var reply := NoReply;
        match events[m] {
          case Finished => Finish();
          case Request(sut, sutExists, configOk, startOk) => reply := Deploy(sut, sutExists, configOk, startOk);
        }
        replies := replies + [reply];
      }
    }
  }
}
