/**
 The API client's module state in its own form: local storage and the shared promise are variables
 that the continuations set and clear. Each method is one stretch of code between two `await`s.
 */
module ApiModule {
  import opened Options
  import opened TokenServer
  import opened ApiClient
  import opened ApiOutcomes

  class Api {
    var access: Option<nat>
    var refresh: Option<Token>
    var refreshPromise: Option<CallId>
    var calls: map<CallId, Call>
    var reqs: map<ReqId, Req>

    ghost function State(): Client
      reads this
    {
      Client(access, refresh, refreshPromise, calls, reqs)
    }

    constructor ()
      ensures State() == NO_SESSION
    {
      access, refresh, refreshPromise, calls, reqs := None, None, None, map[], map[];
    }

    // ----- tokenStore -----

    method Set(accessToken: nat, refreshToken: Token)
      modifies this`access, this`refresh
      ensures State() == Advance(old(State()), SetTokens(accessToken, refreshToken))
      ensures access == Some(accessToken) && refresh == Some(refreshToken)
    {
      access, refresh := Some(accessToken), Some(refreshToken);
    }

    method EndSession()
      modifies this`access, this`refresh
      ensures State() == Advance(old(State()), ClearTokens)
      ensures access.None? && refresh.None?
    {
      access, refresh := None, None;
    }

    // ----- doRefresh and refreshAccessToken -----

    /** Joins the refresh under way, or starts one with the stored token. */
    method RefreshAccessToken(req: ReqId) returns (call: CallId)
      requires req in reqs && refresh.Some?
      modifies this`refreshPromise, this`calls, this`reqs
      ensures State() == JoinRefresh(old(State()), req)
      ensures refreshPromise == Some(call)
      ensures old(refreshPromise).Some? ==> calls == old(calls)
    {
      if refreshPromise.None? {
        call := |calls|;
        calls := calls[call := Call(refresh.value, Outstanding)];
        refreshPromise := Some(call);
      } else {
        call := refreshPromise.value;
      }
      reqs := reqs[req := reqs[req].(state := Joined(call), joined := Some(call))];
    }

    /** `doRefresh` once its `fetch` has been answered. */
    method RefreshAnswered(call: CallId, reply: Reply)
      requires call in calls && calls[call].state.Outstanding?
      modifies this`access, this`refresh, this`calls
      ensures State() == Advance(old(State()), CallReply(call, reply))
      ensures refresh.None? && old(refresh).Some? ==> reply.Refused?
      ensures reply.Issued? ==> access == Some(reply.access) && refresh == Some(reply.refresh)
      ensures reply.Refused? ==> access.None? && refresh.None?
      ensures !reply.Issued? && !reply.Refused? ==> access == old(access) && refresh == old(refresh)
      ensures call in calls && calls[call].state.Settled? && Means(reply, calls[call].state.result)
    {
      var result;
      match reply {
        case NetworkFailure =>
          result := Transient;
        case Broken =>
          result := Transient;
        case Refused =>
          EndSession();
          result := Ended;
        case Issued(a, r) =>
          Set(a, r);
          result := Renewed(a, r);
      }
      calls := calls[call := calls[call].(state := Settled(result))];
    }

    method RefreshFinally(call: CallId)
      requires call in calls && calls[call].state.Settled?
      modifies this`refreshPromise, this`calls
      ensures State() == Advance(old(State()), Finally(call))
      ensures refreshPromise.None? && call in calls && calls[call].state.Closed?
    {
      refreshPromise := None;
      calls := calls[call := calls[call].(state := Closed(calls[call].state.result))];
    }

    // ----- request -----

    method Request(req: ReqId, auth: bool)
      requires req !in reqs
      modifies this`reqs
      ensures State() == Advance(old(State()), Begin(req, auth))
    {
      reqs := reqs[req := Req(auth, 1, Fetching(false), None, None)];
    }

    method Conclude(req: ReqId, verdict: Verdict)
      requires req in reqs
      modifies this`reqs
      ensures State() == Finish(old(State()), req, verdict)
    {
      reqs := reqs[req := reqs[req].(state := Finished(verdict))];
    }

    /** `request` once its `fetch` has been answered. */
    method Responded(req: ReqId, status: Status)
      requires req in reqs && reqs[req].state.Fetching?
      modifies this`refreshPromise, this`calls, this`reqs
      ensures State() == Advance(old(State()), Respond(req, status))
      ensures req in reqs && (reqs[req].state.Joined? <==> Waits(old(State()), Respond(req, status), req))
      ensures status.Ok? <==> reqs[req].state == Finished(Success)
      ensures status.NoResponse? <==> reqs[req].state == Finished(Unreachable)
    {
      if status.NoResponse? {
        Conclude(req, Unreachable);
        return;
      }
      if status.Unauthorized? && reqs[req].auth && !reqs[req].state.retry && refresh.Some? {
        var _ := RefreshAccessToken(req);
        return;
      }
      Conclude(req, if status.Ok? then Success else HttpError);
    }

    /** `request` once the refresh it waited for is over. */
    method Refreshed(req: ReqId)
      requires req in reqs && reqs[req].state.Joined? && reqs[req].state.call in calls
      requires calls[reqs[req].state.call].state.Closed?
      modifies this`reqs
      ensures State() == Advance(old(State()), Resume(req))
      ensures req in reqs && reqs[req].saw == Some(old(calls[reqs[req].state.call].state.result))
      ensures reqs[req].saw.value.Renewed? ==>
                reqs[req].state == Fetching(true) && reqs[req].fetches == old(reqs[req].fetches) + 1
      ensures !reqs[req].saw.value.Renewed? ==> reqs[req].fetches == old(reqs[req].fetches)
      ensures reqs[req].saw.value.Ended? <==> reqs[req].state == Finished(SessionOver)
      ensures reqs[req].saw.value.Transient? <==> reqs[req].state == Finished(HttpError)
    {
      var r := reqs[req];
      var result := calls[r.state.call].state.result;
      match result {
        case Renewed(_, _) =>
          reqs := reqs[req := r.(state := Fetching(true), saw := Some(result), fetches := r.fetches + 1)];
        case Ended =>
          reqs := reqs[req := r.(state := Finished(SessionOver), saw := Some(result))];
        case Transient =>
          reqs := reqs[req := r.(state := Finished(HttpError), saw := Some(result))];
      }
    }
  }
}
