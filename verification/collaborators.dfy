/** Stand-ins for the two capabilities the reporter uses but does not own: the
    container runtime's forced removal and the HTTP round trip to the remote.
    Each records the calls it receives, so that a cycle's effects can be stated. */
module Collaborators {
  import opened StatusTypes
  import opened RemoteReporter

  /** The container runtime as seen by the reconciler. */
  class Runtime {
    /** IDs of the containers present on the host. */
    var live: set<string>
    /** Every forced removal requested so far, in order. */
    var removals: seq<string>
    /** IDs whose removal the runtime rejects. */
    const refused: set<string>

    constructor (live: set<string>, refused: set<string>)
      ensures this.live == live && this.refused == refused && removals == []
    {
      this.live := live;
      this.refused := refused;
      removals := [];
    }

    /** Forced removal of one container: fails for a refused ID and leaves the
        host as it was; otherwise the container is gone afterwards. */
    method RemoveForced(id: string) returns (err: Option<string>)
      modifies this
      ensures removals == old(removals) + [id]
      ensures err.Some? <==> id in refused
      ensures live == if id in refused then old(live) else old(live) - {id}
    {
      removals := removals + [id];
      if id in refused {
        err := Some("removal of " + id + " refused");
      } else {
        live := live - {id};
        err := None;
      }
    }
  }

  /** The HTTP client: every request it is given is sent, and the exchange
      yields the decoded reply or fails. */
  class HttpClient {
    /** Every request sent so far, in order. */
    var sent: seq<Request>

    constructor ()
      ensures sent == []
    {
      sent := [];
    }

    /** Sends `req`; `reply` is what the remote's answer decodes to (or the
        transport, request or decode failure) for this exchange. */
    method Do(req: Request, reply: Result<seq<RespUnit>>) returns (r: Result<seq<RespUnit>>)
      modifies this
      ensures sent == old(sent) + [req]
      ensures r == reply
    {
      sent := sent + [req];
      r := reply;
    }
  }

  /** The IDs among `gone` whose forced removal a runtime refusing `refused` accepts. */
  function Removed(gone: seq<string>, refused: set<string>): set<string> {
    set id | id in gone && id !in refused
  }
}
