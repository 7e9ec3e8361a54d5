/**
 What every request of the API client comes to: when it waits for a refresh, when it is tried again, and
 which answer gives which verdict, in every run.
 */
module ApiOutcomes {
  import opened Options
  import opened TokenServer
  import opened ApiClient

  // ----- Single steps -----

  /** The request waits for the refresh `id`, and that refresh is over. */
  predicate ResumesWith(c: Client, req: ReqId, result: Result) {
    && req in c.reqs && c.reqs[req].state.Joined?
    && c.reqs[req].state.call in c.calls && c.calls[c.reqs[req].state.call].state == Closed(result)
  }

  /** A 401 makes the request wait: it carried a token, was not tried again yet, and one can be renewed. */
  predicate Waits(c: Client, e: ClientEvent, req: ReqId) {
    && e == Respond(req, Unauthorized) && req in c.reqs && c.reqs[req].state == Fetching(false)
    && c.reqs[req].auth && c.refresh.Some?
  }

  /**
   The event ends the request with this verdict. Success and "unreachable" are answers to the fetch under
   way; "session over" is the end of a refresh that was refused; everything else is an HTTP error.
   */
  predicate Concludes(c: Client, e: ClientEvent, req: ReqId, v: Verdict) {
    var fetching := req in c.reqs && c.reqs[req].state.Fetching?;
    match v
    case Success => fetching && e == Respond(req, Ok)
    case Unreachable => fetching && e == Respond(req, NoResponse)
    case SessionOver => e == Resume(req) && ResumesWith(c, req, Ended)
    case HttpError =>
      || (fetching && e == Respond(req, OtherStatus))
      || (fetching && e == Respond(req, Unauthorized) && !Waits(c, e, req))
      || (e == Resume(req) && ResumesWith(c, req, Transient))
  }

  predicate EndedWith(c: Client, req: ReqId, v: Verdict) {
    req in c.reqs && c.reqs[req].state == Finished(v)
  }

  lemma ConcludesExactly(c: Client, e: ClientEvent, req: ReqId, v: Verdict)
    requires req in c.reqs ==> !c.reqs[req].state.Finished?
    ensures EndedWith(Advance(c, e), req, v) <==> Concludes(c, e, req, v)
  {
  }

  lemma FinishedStays(c: Client, e: ClientEvent, req: ReqId)
    requires req in c.reqs && c.reqs[req].state.Finished?
    ensures req in Advance(c, e).reqs && Advance(c, e).reqs[req] == c.reqs[req]
  {
  }

  /** The request waits exactly under `Waits`; it then shares the promise, or starts a call with the stored token. */
  lemma WaitsExactly(c: Client, e: ClientEvent, req: ReqId)
    requires ClientInv(c) && req in c.reqs && c.reqs[req].state.Fetching?
    ensures var d := Advance(c, e);
            && req in d.reqs && (d.reqs[req].state.Joined? <==> Waits(c, e, req))
            && (Waits(c, e, req) ==>
                  && d.promise == Some(d.reqs[req].state.call) && d.reqs[req].joined == d.promise
                  && (c.promise.Some? ==> d.promise == c.promise && d.calls == c.calls)
                  && (c.promise.None? ==>
                        && d.promise.value !in c.calls
                        && d.calls == c.calls[d.promise.value := Call(c.refresh.value, Outstanding)]))
  {
    assert |c.calls| !in c.calls;
  }

  /** A renewal repeats the request, once; any other end of the refresh ends it. Nothing else changes. */
  lemma ResumeExactly(c: Client, req: ReqId, result: Result)
    requires ResumesWith(c, req, result)
    ensures var r, d := c.reqs[req], Advance(c, Resume(req));
            d == c.(reqs := c.reqs[req := match result
                case Renewed(_, _) => Req(r.auth, r.fetches + 1, Fetching(true), r.joined, Some(result))
                case Ended => Req(r.auth, r.fetches, Finished(SessionOver), r.joined, Some(result))
                case Transient => Req(r.auth, r.fetches, Finished(HttpError), r.joined, Some(result))])
  {
  }

  /** What the answer of the refresh endpoint means to everybody who waits for it. */
  predicate Means(reply: Reply, result: Result) {
    match reply
    case Issued(a, r) => result == Renewed(a, r)
    case Refused => result == Ended
    case NetworkFailure => result == Transient
    case Broken => result == Transient
  }

  /** The stored tokens after a refresh was answered: the new pair, none, or those there were. */
  lemma ReplyTokens(c: Client, call: CallId, reply: Reply)
    requires call in c.calls && c.calls[call].state.Outstanding?
    ensures var d := Advance(c, CallReply(call, reply));
            && d.reqs == c.reqs && d.promise == c.promise
            && (reply.Issued? ==> d.access == Some(reply.access) && d.refresh == Some(reply.refresh))
            && (reply.Refused? ==> d.access.None? && d.refresh.None?)
            && (reply.NetworkFailure? || reply.Broken? ==> d.access == c.access && d.refresh == c.refresh)
  {
  }

  /** What the application does itself: it opens a request, stores a pair of tokens, or drops it. */
  lemma AppEvents(c: Client, req: ReqId, auth: bool, access: nat, refresh: Token)
    ensures req !in c.reqs ==>
              Advance(c, Begin(req, auth)) == c.(reqs := c.reqs[req := Req(auth, 1, Fetching(false), None, None)])
    ensures Advance(c, SetTokens(access, refresh)) ==
            Client(Some(access), Some(refresh), c.promise, c.calls, c.reqs)
    ensures Advance(c, ClearTokens) == Client(None, None, c.promise, c.calls, c.reqs)
  {
  }

  /** `finally` closes the call with its result and clears the promise, so that the next 401 starts anew. */
  lemma FinallyCloses(c: Client, call: CallId, result: Result)
    requires call in c.calls && c.calls[call].state == Settled(result)
    ensures Advance(c, Finally(call))
         == Client(c.access, c.refresh, None, c.calls[call := Call(c.calls[call].token, Closed(result))], c.reqs)
  {
  }

  predicate Over(c: Client, call: CallId, result: Result) {
    call in c.calls && (c.calls[call].state == Settled(result) || c.calls[call].state == Closed(result))
  }

  predicate AnsweredBy(c: Client, e: ClientEvent, call: CallId, result: Result) {
    && call in c.calls && c.calls[call].state.Outstanding?
    && e.CallReply? && e.call == call && Means(e.reply, result)
  }

  lemma OverStep(c: Client, e: ClientEvent, call: CallId, result: Result)
    requires OneFlight(c)
    ensures Over(Advance(c, e), call, result) <==> Over(c, call, result) || AnsweredBy(c, e, call, result)
  {
    assert |c.calls| !in c.calls;
  }

  // ----- Requests over runs -----

  /** The record of a request, read as its history. */
  ghost predicate Tells(r: Req) {
    && (r.fetches == 2 <==> r.saw.Some? && r.saw.value.Renewed?)
    && (r.state == Finished(SessionOver) <==> r.saw == Some(Ended))
    && (r.saw == Some(Transient) ==> r.state == Finished(HttpError))
    && (r.state == Fetching(true) ==> r.fetches == 2)
    && (r.fetches == 2 ==> r.state == Fetching(true) || r.state.Finished?)
    && (r.joined.Some? && r.saw.None? ==> r.state == Joined(r.joined.value))
    && (r.joined.None? ==> r.saw.None? && !r.state.Joined?)
    && (!r.auth ==> r.joined.None?)
  }

  lemma TellsStep(c: Client, e: ClientEvent, req: ReqId)
    requires ClientInv(c) && (req in c.reqs ==> Tells(c.reqs[req]))
    ensures req in Advance(c, e).reqs ==> Tells(Advance(c, e).reqs[req])
  {
    if req in c.reqs {
      assert ReqOk(c, c.reqs[req]);
      if (e.Respond? || e.Resume?) && e.req == req {
        TellsOwn(c, e, req);
      } else {
        OtherOrSame(c, e, req);
      }
    }
  }

  lemma TellsOwn(c: Client, e: ClientEvent, req: ReqId)
    requires req in c.reqs && ReqOk(c, c.reqs[req]) && Tells(c.reqs[req])
    requires (e.Respond? || e.Resume?) && e.req == req
    ensures Tells(Advance(c, e).reqs[req])
  {
  }

  lemma {:induction false} TellsRun(es: seq<ClientEvent>, req: ReqId)
    ensures var c := Play(NO_SESSION, es); ClientInv(c) && (req in c.reqs ==> Tells(c.reqs[req]))
  {
    StartInv();
    PlayInv(NO_SESSION, es);
    if es != [] {
      TellsRun(es[..|es| - 1], req);
      TellsStep(Play(NO_SESSION, es[..|es| - 1]), es[|es| - 1], req);
    }
  }

  /**
   In every run a request fetches a second time if and only if the refresh it waited for renewed the
   tokens; it reports that the session is over if and only if that refresh was refused; a refresh that
   failed otherwise makes it an HTTP error; and a request without a token never waits for one.
   */
  lemma RetriedExactly(es: seq<ClientEvent>, req: ReqId)
    requires req in Play(NO_SESSION, es).reqs
    ensures var r := Play(NO_SESSION, es).reqs[req];
            && (r.fetches == 2 <==> r.saw.Some? && r.saw.value.Renewed?)
            && (r.fetches == 2 ==> r.state == Fetching(true) || r.state.Finished?)
            && (r.fetches != 2 ==> r.fetches == 1)
            && (r.state == Finished(SessionOver) <==> r.saw == Some(Ended))
            && (r.saw == Some(Transient) ==> r.state == Finished(HttpError))
            && (r.joined.Some? && r.saw.None? ==> r.state == Joined(r.joined.value))
            && (!r.auth ==> r.joined.None? && r.saw.None?)
  {
    TellsRun(es, req);
    assert ReqOk(Play(NO_SESSION, es), Play(NO_SESSION, es).reqs[req]);
  }

  /** Event `k` of the run ended the request, and its record is what that event left. */
  predicate ConcludedAt(es: seq<ClientEvent>, k: nat, req: ReqId, v: Verdict) {
    && k < |es|
    && (req in Play(NO_SESSION, es[..k]).reqs ==> !Play(NO_SESSION, es[..k]).reqs[req].state.Finished?)
    && Concludes(Play(NO_SESSION, es[..k]), es[k], req, v)
  }

  /** The request ended at `k` and has not changed since. */
  predicate KeptSince(es: seq<ClientEvent>, k: nat, req: ReqId) {
    && k < |es| && req in Play(NO_SESSION, es[..k + 1]).reqs && req in Play(NO_SESSION, es).reqs
    && Play(NO_SESSION, es).reqs[req] == Play(NO_SESSION, es[..k + 1]).reqs[req]
  }

  /** A request has a verdict exactly when some event of the run gave it that one, its last answer. */
  lemma {:induction false} VerdictFromEvent(es: seq<ClientEvent>, req: ReqId, v: Verdict)
    ensures EndedWith(Play(NO_SESSION, es), req, v)
            <==> exists k: nat :: ConcludedAt(es, k, req, v) && KeptSince(es, k, req)
  {
    if EndedWith(Play(NO_SESSION, es), req, v) {
      var _ := VerdictHasEvent(es, req, v);
    }
    forall k: nat | ConcludedAt(es, k, req, v) && KeptSince(es, k, req)
      ensures EndedWith(Play(NO_SESSION, es), req, v)
    {
      StepAt(es, k);
      ConcludesExactly(Play(NO_SESSION, es[..k]), es[k], req, v);
    }
  }

  lemma StepAt(es: seq<ClientEvent>, k: nat)
    requires k < |es|
    ensures Play(NO_SESSION, es[..k + 1]) == Advance(Play(NO_SESSION, es[..k]), es[k])
  {
    assert es[..k + 1][..k] == es[..k];
  }

  lemma {:induction false} VerdictHasEvent(es: seq<ClientEvent>, req: ReqId, v: Verdict) returns (k: nat)
    requires EndedWith(Play(NO_SESSION, es), req, v)
    ensures ConcludedAt(es, k, req, v) && KeptSince(es, k, req)
  {
    var most, e := es[..|es| - 1], es[|es| - 1];
    var c := Play(NO_SESSION, most);
    if req in c.reqs && c.reqs[req].state.Finished? {
      FinishedStays(c, e, req);
      k := VerdictHasEvent(most, req, v);
      assert most[..k] == es[..k] && most[..k + 1] == es[..k + 1];
    } else {
      ConcludesExactly(c, e, req, v);
      k := |es| - 1;
      assert es[..k + 1] == es;
    }
  }

  // ----- Refresh calls over runs -----

  predicate AnsweredAt(es: seq<ClientEvent>, k: nat, call: CallId, result: Result) {
    k < |es| && AnsweredBy(Play(NO_SESSION, es[..k]), es[k], call, result)
  }

  /** A refresh has the result that the answer to its one call means. */
  lemma {:induction false} CallResult(es: seq<ClientEvent>, call: CallId, result: Result)
    ensures Over(Play(NO_SESSION, es), call, result) <==> exists k: nat :: AnsweredAt(es, k, call, result)
  {
    if es != [] {
      var most := es[..|es| - 1];
      CallResult(most, call, result);
      StartInv();
      PlayInv(NO_SESSION, most);
      OverStep(Play(NO_SESSION, most), es[|es| - 1], call, result);
      AnsweredLater(es, call, result);
    }
  }

  lemma AnsweredLater(es: seq<ClientEvent>, call: CallId, result: Result)
    requires es != []
    ensures var most := es[..|es| - 1];
            (exists k: nat :: AnsweredAt(es, k, call, result))
            <==> (exists k: nat :: AnsweredAt(most, k, call, result))
                 || AnsweredBy(Play(NO_SESSION, most), es[|es| - 1], call, result)
  {
    var most := es[..|es| - 1];
    forall k: nat | k < |most|
      ensures AnsweredAt(es, k, call, result) <==> AnsweredAt(most, k, call, result)
    {
      assert most[..k] == es[..k];
    }
    assert AnsweredAt(es, |es| - 1, call, result)
           <==> AnsweredBy(Play(NO_SESSION, most), es[|es| - 1], call, result);
  }

  /** What a request saw is the result of the one refresh it joined. */
  lemma SawItsCall(es: seq<ClientEvent>, req: ReqId)
    requires var c := Play(NO_SESSION, es); req in c.reqs && c.reqs[req].saw.Some?
    ensures var r := Play(NO_SESSION, es).reqs[req];
            r.joined.Some? && exists k: nat :: AnsweredAt(es, k, r.joined.value, r.saw.value)
  {
    var c := Play(NO_SESSION, es);
    TellsRun(es, req);
    assert ReqOk(c, c.reqs[req]);
    CallResult(es, c.reqs[req].joined.value, c.reqs[req].saw.value);
  }
}
