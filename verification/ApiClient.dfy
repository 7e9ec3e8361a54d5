/**
 The browser's API client: one token store, and a refresh that concurrent requests share. Every
 continuation after an `await` is one event; events come in any order.
 */
module ApiClient {
  import opened Options
  import opened TokenServer

  type ReqId = nat
  type CallId = nat

  /** How a `doRefresh` call ends: tokens replaced, session over, or try again later. */
  datatype Result = Renewed(access: nat, refresh: Token) | Ended | Transient

  /** Between `Settled` and `Closed` the promise is resolved but `finally` has not run. */
  datatype CallState = Outstanding | Settled(result: Result) | Closed(result: Result)

  datatype Call = Call(token: Token, state: CallState)

  datatype Verdict = Success | HttpError | SessionOver | Unreachable

  datatype ReqState = Fetching(retry: bool) | Joined(call: CallId) | Finished(verdict: Verdict)

  datatype Req = Req(auth: bool, fetches: nat, state: ReqState, joined: Option<CallId>, saw: Option<Result>)

  datatype Client = Client(
    access: Option<nat>, refresh: Option<Token>, promise: Option<CallId>,
    calls: map<CallId, Call>, reqs: map<ReqId, Req>)

  datatype Status = Ok | Unauthorized | OtherStatus | NoResponse

  datatype Reply = NetworkFailure | Refused | Broken | Issued(access: nat, refresh: Token)

  datatype ClientEvent =
    | Begin(req: ReqId, auth: bool)
    | Respond(req: ReqId, status: Status)
    | CallReply(call: CallId, reply: Reply)
    | Finally(call: CallId)
    | Resume(req: ReqId)
    | SetTokens(access: nat, refresh: Token)
    | ClearTokens

  function FreshCall(c: Client): CallId {
    |c.calls|
  }

  /** `refreshAccessToken`: join the refresh under way, or start one with the stored token. */
  function JoinRefresh(c: Client, req: ReqId): Client
    requires req in c.reqs && c.refresh.Some?
  {
    var id := if c.promise.Some? then c.promise.value else FreshCall(c);
    var r := c.reqs[req].(state := Joined(id), joined := Some(id));
    if c.promise.Some? then c.(reqs := c.reqs[req := r])
    else
      c.(promise := Some(id), calls := c.calls[id := Call(c.refresh.value, Outstanding)], reqs := c.reqs[req := r])
  }

  function Finish(c: Client, req: ReqId, verdict: Verdict): Client
    requires req in c.reqs
  {
    c.(reqs := c.reqs[req := c.reqs[req].(state := Finished(verdict))])
  }

  /** The rest of `request` after its `fetch`. */
  function OnResponse(c: Client, req: ReqId, status: Status): Client
    requires req in c.reqs && c.reqs[req].state.Fetching?
  {
    var r := c.reqs[req];
    match status
    case NoResponse => Finish(c, req, Unreachable)
    case Ok => Finish(c, req, Success)
    case OtherStatus => Finish(c, req, HttpError)
    case Unauthorized =>
      if r.auth && !r.state.retry && c.refresh.Some? then JoinRefresh(c, req) else Finish(c, req, HttpError)
  }

  function Settle(c: Client, call: CallId, result: Result): Client
    requires call in c.calls
  {
    c.(calls := c.calls[call := c.calls[call].(state := Settled(result))])
  }

  /** The rest of `doRefresh` after its `fetch`. */
  function OnReply(c: Client, call: CallId, reply: Reply): Client
    requires call in c.calls
  {
    match reply
    case NetworkFailure => Settle(c, call, Transient)
    case Broken => Settle(c, call, Transient)
    case Refused => Settle(c, call, Ended).(access := None, refresh := None)
    case Issued(a, r) => Settle(c, call, Renewed(a, r)).(access := Some(a), refresh := Some(r))
  }

  /** The rest of `request` after `await refreshAccessToken()`. */
  function OnRefreshed(c: Client, req: ReqId, result: Result): Client
    requires req in c.reqs
  {
    var r := c.reqs[req];
    var state := match result
      case Renewed(_, _) => Fetching(true)
      case Ended => Finished(SessionOver)
      case Transient => Finished(HttpError);
    c.(reqs := c.reqs[req := r.(state := state, saw := Some(result),
                                fetches := if result.Renewed? then r.fetches + 1 else r.fetches)])
  }

  function Advance(c: Client, e: ClientEvent): Client {
    match e
    case Begin(req, auth) =>
      if req in c.reqs then c else c.(reqs := c.reqs[req := Req(auth, 1, Fetching(false), None, None)])
    case Respond(req, status) =>
      if req in c.reqs && c.reqs[req].state.Fetching? then OnResponse(c, req, status) else c
    case CallReply(call, reply) =>
      if call in c.calls && c.calls[call].state.Outstanding? then OnReply(c, call, reply) else c
    case Finally(call) =>
      if call in c.calls && c.calls[call].state.Settled? then
        c.(promise := None,
           calls := c.calls[call := c.calls[call].(state := Closed(c.calls[call].state.result))])
      else c
    case Resume(req) =>
      if req in c.reqs && c.reqs[req].state.Joined? && c.reqs[req].state.call in c.calls
         && c.calls[c.reqs[req].state.call].state.Closed?
      then OnRefreshed(c, req, c.calls[c.reqs[req].state.call].state.result) else c
    case SetTokens(a, r) => c.(access := Some(a), refresh := Some(r))
    case ClearTokens => c.(access := None, refresh := None)
  }

  function Play(c: Client, es: seq<ClientEvent>): Client {
    if es == [] then c else Advance(Play(c, es[..|es| - 1]), es[|es| - 1])
  }

  const NO_SESSION := Client(None, None, None, map[], map[])

  // ----- Invariant -----

  /** Calls are numbered without gaps, and the promise is set exactly while one is not closed. */
  ghost predicate OneFlight(c: Client) {
    && (forall id: CallId :: id in c.calls <==> id < |c.calls|)
    && (forall id | id in c.calls :: !c.calls[id].state.Closed? <==> c.promise == Some(id))
    && (c.promise.Some? ==> c.promise.value in c.calls)
  }

  ghost predicate ReqOk(c: Client, r: Req) {
    && (r.state.Fetching? ==> r.fetches == if r.state.retry then 2 else 1)
    && (r.state.Joined? ==> r.fetches == 1 && r.auth && r.joined == Some(r.state.call) && r.saw.None?)
    && 1 <= r.fetches <= 2 && (r.fetches == 2 ==> r.saw.Some? && r.saw.value.Renewed?)
    && (r.joined.Some? ==> r.joined.value in c.calls)
    && (r.saw.Some? ==> r.joined.Some? && c.calls[r.joined.value].state == Closed(r.saw.value))
    && (r.state == Fetching(false) ==> r.saw.None?)
  }

  ghost predicate ClientInv(c: Client) {
    OneFlight(c) && forall q | q in c.reqs :: ReqOk(c, c.reqs[q])
  }

  lemma FlightStep(c: Client, e: ClientEvent)
    requires OneFlight(c)
    ensures OneFlight(Advance(c, e))
  {
    if e.Respond? {
      RespondFlight(c, e.req, e.status);
    } else if e.CallReply? {
      ReplyFlight(c, e.call, e.reply);
    }
  }

  lemma RespondFlight(c: Client, req: ReqId, status: Status)
    requires OneFlight(c)
    ensures OneFlight(Advance(c, Respond(req, status)))
  {
  }

  lemma ReplyFlight(c: Client, call: CallId, reply: Reply)
    requires OneFlight(c)
    ensures OneFlight(Advance(c, CallReply(call, reply)))
  {
  }

  /** Calls are never removed and a closed call keeps its result. */
  ghost predicate CallsGrow(c: Client, d: Client) {
    forall id | id in c.calls :: id in d.calls && (c.calls[id].state.Closed? ==> d.calls[id] == c.calls[id])
  }

  lemma CallsGrowStep(c: Client, e: ClientEvent)
    requires OneFlight(c)
    ensures CallsGrow(c, Advance(c, e))
  {
  }

  lemma ReqOkGrows(c: Client, d: Client, r: Req)
    requires ReqOk(c, r) && CallsGrow(c, d)
    ensures ReqOk(d, r)
  {
  }

  lemma RespondOk(c: Client, req: ReqId, status: Status)
    requires ClientInv(c)
    ensures var d := Advance(c, Respond(req, status)); req in d.reqs ==> ReqOk(d, d.reqs[req])
  {
    CallsGrowStep(c, Respond(req, status));
    if req in c.reqs {
      assert ReqOk(c, c.reqs[req]);
      ReqOkGrows(c, Advance(c, Respond(req, status)), c.reqs[req]);
    }
  }

  lemma ResumeOk(c: Client, req: ReqId)
    requires ClientInv(c)
    ensures var d := Advance(c, Resume(req)); req in d.reqs ==> ReqOk(d, d.reqs[req])
  {
    if req in c.reqs {
      assert ReqOk(c, c.reqs[req]);
    }
  }

  lemma ReqsStep(c: Client, e: ClientEvent)
    requires ClientInv(c)
    ensures forall q | q in Advance(c, e).reqs :: ReqOk(Advance(c, e), Advance(c, e).reqs[q])
  {
    var d := Advance(c, e);
    forall q | q in d.reqs
      ensures ReqOk(d, d.reqs[q])
    {
      if e.Respond? && e.req == q {
        RespondOk(c, q, e.status);
      } else if e.Resume? && e.req == q {
        ResumeOk(c, q);
      } else if q in c.reqs {
        assert ReqOk(c, c.reqs[q]);
        CallsGrowStep(c, e);
        OtherOrSame(c, e, q);
        ReqOkGrows(c, d, c.reqs[q]);
      }
    }
  }

  lemma OtherOrSame(c: Client, e: ClientEvent, req: ReqId)
    requires req in c.reqs && !((e.Respond? || e.Resume?) && e.req == req)
    ensures req in Advance(c, e).reqs && Advance(c, e).reqs[req] == c.reqs[req]
  {
  }

  lemma StartInv()
    ensures ClientInv(NO_SESSION)
  {
    assert |NO_SESSION.calls| == 0;
  }

  lemma {:induction false} PlayInv(c: Client, es: seq<ClientEvent>)
    requires ClientInv(c)
    ensures ClientInv(Play(c, es))
  {
    if es != [] {
      var before := Play(c, es[..|es| - 1]);
      PlayInv(c, es[..|es| - 1]);
      FlightStep(before, es[|es| - 1]);
      ReqsStep(before, es[|es| - 1]);
    }
  }

  // ----- Main results -----

  ghost function Flying(c: Client): set<CallId> {
    set id | id in c.calls && !c.calls[id].state.Closed?
  }

  /** Single flight: in every run at most one refresh is under way, and the promise says so exactly. */
  lemma SingleFlight(es: seq<ClientEvent>)
    ensures var c := Play(NO_SESSION, es);
            && |Flying(c)| <= 1
            && (c.promise.Some? <==> Flying(c) != {})
            && (c.promise.Some? ==> Flying(c) == {c.promise.value})
  {
    StartInv();
    PlayInv(NO_SESSION, es);
    var c := Play(NO_SESSION, es);
    if c.promise.Some? {
      assert Flying(c) == {c.promise.value};
    } else {
      assert Flying(c) == {};
    }
  }

  /** Every request fetches its endpoint at most twice, and only a renewed token buys the second try. */
  lemma AtMostOneRetry(es: seq<ClientEvent>, req: ReqId)
    ensures var c := Play(NO_SESSION, es);
            req in c.reqs ==>
              && 1 <= c.reqs[req].fetches <= 2
              && (c.reqs[req].fetches == 2 ==> c.reqs[req].saw.Some? && c.reqs[req].saw.value.Renewed?)
  {
    StartInv();
    PlayInv(NO_SESSION, es);
  }

  /** All requests that joined one refresh see the same outcome, the one it closed with. */
  lemma SharedOutcome(es: seq<ClientEvent>, p: ReqId, q: ReqId)
    ensures var c := Play(NO_SESSION, es);
            p in c.reqs && q in c.reqs && c.reqs[p].joined == c.reqs[q].joined
            && c.reqs[p].saw.Some? && c.reqs[q].saw.Some? ==>
              c.reqs[p].saw == c.reqs[q].saw
  {
    StartInv();
    PlayInv(NO_SESSION, es);
    var c := Play(NO_SESSION, es);
    if p in c.reqs && q in c.reqs {
      assert ReqOk(c, c.reqs[p]) && ReqOk(c, c.reqs[q]);
    }
  }

  /** Tokens disappear only when the app clears them or a refresh was answered 401 or 403. */
  lemma ClearedOnlyOnRefusal(c: Client, e: ClientEvent)
    requires c.refresh.Some? && Advance(c, e).refresh.None?
    ensures e.ClearTokens?
         || (e.CallReply? && e.reply.Refused? && e.call in c.calls && c.calls[e.call].state.Outstanding?)
    ensures e.CallReply? ==> Advance(c, e).calls[e.call].state == Settled(Ended)
  {
  }
}
