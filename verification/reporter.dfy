/** The reporter's cycle: build the payload, send it, remove what the remote
    no longer tracks. */
module StatusReporter {
  import opened StatusTypes
  import opened ReportBuilder
  import opened RemoteReporter
  import opened Reconciler
  import opened Collaborators

  /** The requests one cycle sends: one for a non-empty payload, none when
      listing fails or no container is a unit. */
  function CycleRequests(config: ReporterConfig, listing: Result<seq<Listed>>): (reqs: seq<Request>)
    ensures |reqs| <= 1
    ensures reqs != [] <==> listing.Ok? && exists i :: 0 <= i < |listing.value| && !listing.value[i].inspection.NotManaged?
    ensures reqs != [] ==>
              && reqs[0].verb == "POST"
              && reqs[0].url == StatusUrl(config.tsuruEndpoint)
              && reqs[0].contentType == JsonContentType
              && reqs[0].authorization == AuthorizationValue(config.tsuruToken)
              && reqs[0].body == Payload(listing.value)
  {
    if listing.Err? then []
    else
      PayloadEmptyIff(listing.value);
      var p := Payload(listing.value);
      if p == [] then [] else [NewRequest(config, p)]
  }

  /** The forced removals one cycle issues: the gone units of the reply, when a
      request was sent and answered. */
  function CycleRemovals(listing: Result<seq<Listed>>, reply: Result<seq<RespUnit>>): (ids: seq<string>)
    ensures listing.Err? || reply.Err? ==> ids == []
    ensures forall id | id in ids :: reply.Ok? && exists i :: 0 <= i < |reply.value| && !reply.value[i].found && reply.value[i].id == id
  {
    if listing.Err? || Payload(listing.value) == [] || reply.Err? || reply.value == [] then []
    else
      var gone := GoneIds(reply.value);
      assert forall id | id in gone :: exists i :: 0 <= i < |reply.value| && !reply.value[i].found && reply.value[i].id == id by {
        forall id | id in gone
          ensures exists i :: 0 <= i < |reply.value| && !reply.value[i].found && reply.value[i].id == id
        {
          GoneIdsMembers(reply.value, id);
        }
      }
      gone
  }

  /** A cycle that sends nothing removes nothing. */
  lemma NoRequestNoRemoval(config: ReporterConfig, listing: Result<seq<Listed>>, reply: Result<seq<RespUnit>>)
    requires CycleRequests(config, listing) == []
    ensures CycleRemovals(listing, reply) == []
  {
  }

  /** A cycle whose request was answered removes exactly the units the reply
      says were not found, in reply order. */
  lemma AnsweredCycleRemovesGone(config: ReporterConfig, listing: Result<seq<Listed>>, resp: seq<RespUnit>)
    requires CycleRequests(config, listing) != []
    ensures CycleRemovals(listing, Ok(resp)) == GoneIds(resp)
  {
  }

  /** Removal is keyed on the reply alone: an ID the remote answers with is
      removed even when this cycle did not report it. */
  lemma RemovalFollowsReplyOnly()
    ensures var listing := Ok([Listed(ApiContainer("a", ["/app-a"]), Inspected(false, true))]);
            var reply := Ok([RespUnit("z", false)]);
            && (forall e | e in Payload(listing.value) :: e.id != "z")
            && CycleRemovals(listing, reply) == ["z"]
  {
  }

  /** One reporter: its configuration and the collaborators it drives. */
  class Reporter {
    const config: ReporterConfig
    const runtime: Runtime
    const http: HttpClient

    constructor (config: ReporterConfig, runtime: Runtime, http: HttpClient)
      ensures this.config == config && this.runtime == runtime && this.http == http
    {
      this.config := config;
      this.runtime := runtime;
      this.http := http;
    }

    /** Builds the payload and, unless it is empty, posts it and returns the
        reply; an empty payload returns an empty reply without sending. */
    method UpdateUnits(listed: seq<Listed>, reply: Result<seq<RespUnit>>) returns (r: Result<seq<RespUnit>>)
      modifies http
      ensures Payload(listed) == [] ==> r == Ok([]) && http.sent == old(http.sent)
      ensures Payload(listed) != [] ==> r == reply && http.sent == old(http.sent) + [NewRequest(config, Payload(listed))]
    {
      var payload := BuildPayload(listed);
      if |payload| == 0 {
        return Ok([]);
      }
      var request := NewRequest(config, payload);
      r := http.Do(request, reply);
    }

    /** Requests a forced removal of every gone unit, going on after a failed
        removal; never reports an error. */
    method HandleResponse(resp: seq<RespUnit>) returns (err: Option<string>)
      modifies runtime
      ensures err == None
      ensures runtime.removals == old(runtime.removals) + GoneIds(resp)
      ensures runtime.live == old(runtime.live) - Removed(GoneIds(resp), runtime.refused)
    {
      var gone := CollectGone(resp);
      for i := 0 to |gone|
        invariant runtime.removals == old(runtime.removals) + gone[..i]
        invariant runtime.live == old(runtime.live) - Removed(gone[..i], runtime.refused)
      {
        assert gone[..i + 1] == gone[..i] + [gone[i]];
        // A failed removal is only logged; the loop goes on with the next ID.
        var removeErr := runtime.RemoveForced(gone[i]);
      }
      assert gone[..|gone|] == gone;
      err := None;
    }

    /** One report cycle. `listing` is the runtime's container list with each
        container's inspection outcome, or the listing failure; `reply` is what
        the exchange with the remote yields if a request is sent. */
    method ReportStatus(listing: Result<seq<Listed>>, reply: Result<seq<RespUnit>>)
      modifies http, runtime
      ensures http.sent == old(http.sent) + CycleRequests(config, listing)
      ensures runtime.removals == old(runtime.removals) + CycleRemovals(listing, reply)
      ensures runtime.live == old(runtime.live) - Removed(CycleRemovals(listing, reply), runtime.refused)
    {
      if listing.Err? {
        return;
      }
      var resp := UpdateUnits(listing.value, reply);
      if resp.Err? {
        return;
      }
      if |resp.value| == 0 {
        return;
      }
      var err := HandleResponse(resp.value);
    }
  }
}
