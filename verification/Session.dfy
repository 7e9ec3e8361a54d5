/**
 The browser's API client and the token server together: one tab, one login, everybody else's
 requests interleaved. Shows that the stored refresh token is the live end of its rotation chain.
 */
module Session {
  import opened Options
  import opened TokenServer
  import opened ApiClient

  /** `link` maps a client's refresh call to the handler it reached; `chain` collects the session's tokens. */
  datatype Session = Session(client: Client, server: Server, link: map<CallId, Pid>, chain: set<Token>)

  datatype Move =
    | Local(ce: ClientEvent)
    | Unsent(call: CallId, reply: Reply)
    | Arrive(call: CallId, pid: Pid)
    | Serve(se: Event)
    | Deliver(call: CallId)
    | SignOut

  predicate Waiting(s: Session, call: CallId) {
    call in s.client.calls && s.client.calls[call].state.Outstanding?
  }

  predicate Ours(s: Session, pid: Pid) {
    pid in s.link.Values
  }

  function ReplyOf(outcome: Outcome): Reply {
    match outcome
    case Granted(t) => Issued(t, t)
    case Denied => Refused
    case Failed => Broken
  }

  /**
   The assumptions: a request that was served is answered, the two writes of a rotation of this
   session succeed, nobody else presents its tokens, and the user signs out only between refreshes.
   */
  predicate Allowed(s: Session, m: Move) {
    match m
    case Local(e) => e.Begin? || e.Respond? || e.Finally? || e.Resume?
    case Unsent(call, reply) => Waiting(s, call) && call !in s.link && (reply.NetworkFailure? || reply.Broken?)
    case Arrive(call, pid) => Waiting(s, call) && call !in s.link && pid !in s.server.procs
    case Serve(e) =>
      (match e
       case Start(_, token) => token !in s.chain
       case Logout(token, _) => token !in s.chain
       case Revoke(pid, writeOk) => Ours(s, pid) ==> writeOk
       case Store(pid, writeOk) => Ours(s, pid) ==> writeOk
       case _ => true)
    case Deliver(call) =>
      Waiting(s, call) && call in s.link && s.link[call] in s.server.procs && s.server.procs[s.link[call]].pc.Done?
    case SignOut => s.client.promise.None? && s.client.refresh.Some?
  }

  /** A move that is not allowed does not happen. */
  function Next(s: Session, m: Move): Session {
    if !Allowed(s, m) then s
    else
      match m
      case Local(e) => s.(client := Advance(s.client, e))
      case Unsent(call, reply) => s.(client := Advance(s.client, CallReply(call, reply)))
      case Arrive(call, pid) =>
        s.(server := Step(s.server, Start(pid, s.client.calls[call].token)), link := s.link[call := pid])
      case Serve(e) =>
        s.(server := Step(s.server, e), chain := if Rotates(s, e) then s.chain + {s.server.next} else s.chain)
      case Deliver(call) =>
        s.(client := Advance(s.client, CallReply(call, ReplyOf(s.server.procs[s.link[call]].pc.outcome))))
      case SignOut =>
        s.(client := Advance(s.client, ClearTokens),
           server := Step(s.server, Logout(s.client.refresh.value, true)))
  }

  /** The event issues the next token of this session. */
  predicate Rotates(s: Session, e: Event) {
    e.Store? && Ours(s, e.pid) && At(s.server, e.pid, Storing)
  }

  function RunMoves(s: Session, ms: seq<Move>): Session {
    if ms == [] then s else Next(RunMoves(s, ms[..|ms| - 1]), ms[|ms| - 1])
  }

  // ----- Invariant -----

  /** `t` is the only live token of the session. */
  ghost predicate Leaf(s: Session, t: Token) {
    t in s.chain && forall u | u in s.chain :: Live(s.server.rows, u) <==> u == t
  }

  ghost predicate NoLeaf(s: Session) {
    forall u | u in s.chain :: !Live(s.server.rows, u)
  }

  ghost predicate ChainOk(s: Session) {
    && FreshNext(s.server)
    && (forall u | u in s.chain :: u in s.server.rows && u in s.server.signed)
  }

  ghost predicate LinkOk(s: Session) {
    && (forall c | c in s.link :: c in s.client.calls && s.link[c] in s.server.procs
          && s.server.procs[s.link[c]].token == s.client.calls[c].token)
    && (forall c, d | c in s.link && d in s.link && s.link[c] == s.link[d] :: c == d)
    && (forall c | c in s.link && !Waiting(s, c) :: s.server.procs[s.link[c]].pc.Done?)
  }

  /** Handlers of other clients never hold a token of this session. */
  ghost predicate OthersApart(s: Session) {
    forall p | p in s.server.procs && !Ours(s, p) && !s.server.procs[p].pc.Done? ::
      s.server.procs[p].token in s.server.signed && s.server.procs[p].token !in s.chain
  }

  /** How far a refresh call has come, and which token is live at that point. */
  ghost predicate CallOk(s: Session, call: CallId)
    requires Waiting(s, call)
  {
    var t := s.client.calls[call].token;
    && s.client.refresh == Some(t) && t in s.chain
    && (call !in s.link ==> Leaf(s, t))
    && (call in s.link && s.link[call] in s.server.procs ==>
          match s.server.procs[s.link[call]].pc
          case Storing => NoLeaf(s)
          case Checking(found) => Leaf(s, t) && (found.DbError? || found == Found(s.server.rows[t]))
          case Done(outcome) => if outcome.Granted? then Leaf(s, outcome.token) else Leaf(s, t)
          case _ => Leaf(s, t))
  }

  ghost predicate Joint(s: Session) {
    && OneFlight(s.client) && ChainOk(s) && LinkOk(s) && OthersApart(s)
    && (forall c | c in s.client.calls && Waiting(s, c) :: CallOk(s, c))
    && ((forall c | c in s.client.calls :: !Waiting(s, c)) && s.client.refresh.Some? ==>
          Leaf(s, s.client.refresh.value))
  }

  /** Just after a login: one token, stored in the browser and live on the server. */
  ghost predicate LoggedIn(s: Session) {
    && s.client.calls == map[] && s.client.promise.None? && s.client.reqs == map[]
    && s.link == map[] && FreshNext(s.server)
    && s.client.refresh.Some? && s.chain == {s.client.refresh.value}
    && Live(s.server.rows, s.client.refresh.value) && s.client.refresh.value in s.server.signed
    && (forall p | p in s.server.procs && !s.server.procs[p].pc.Done? ::
          s.server.procs[p].token in s.server.signed && s.server.procs[p].token != s.client.refresh.value)
  }

  lemma LoggedInJoint(s: Session)
    requires LoggedIn(s)
    ensures Joint(s)
  {
    assert |s.client.calls| == 0;
  }

  // ----- Moves of the client -----

  /** What a client event other than a reply may do to the refresh calls. */
  ghost predicate OnlyStarts(c: Client, d: Client) {
    && d.refresh == c.refresh
    && (forall id | id in c.calls :: id in d.calls && d.calls[id].token == c.calls[id].token
          && (d.calls[id].state.Outstanding? <==> c.calls[id].state.Outstanding?))
    && (forall id | id in d.calls && id !in c.calls ::
          c.promise.None? && c.refresh == Some(d.calls[id].token) && d.calls[id].state.Outstanding?)
  }

  lemma LocalOnlyStarts(c: Client, e: ClientEvent)
    requires OneFlight(c) && (e.Begin? || e.Respond? || e.Finally? || e.Resume?)
    ensures OnlyStarts(c, Advance(c, e))
  {
  }

  lemma StartsKeepJoint(s: Session, d: Client)
    requires Joint(s) && OnlyStarts(s.client, d) && OneFlight(d)
    ensures Joint(s.(client := d))
  {
    var t := s.(client := d);
    forall c | c in d.calls && Waiting(t, c)
      ensures CallOk(t, c)
    {
      if c in s.client.calls {
        assert Waiting(s, c) && CallOk(s, c);
      } else {
        assert forall b | b in s.client.calls :: !Waiting(s, b);
        assert c !in s.link;
      }
    }
    if (forall c | c in d.calls :: !Waiting(t, c)) && d.refresh.Some? {
      forall c | c in s.client.calls
        ensures !Waiting(s, c)
      {
        assert !Waiting(t, c);
      }
    }
  }

  lemma LocalStep(s: Session, e: ClientEvent)
    requires Joint(s) && Allowed(s, Local(e))
    ensures Joint(Next(s, Local(e)))
  {
    FlightStep(s.client, e);
    LocalOnlyStarts(s.client, e);
    StartsKeepJoint(s, Advance(s.client, e));
  }

  /** What a reply does: its call is no longer outstanding, all others are as they were. */
  ghost predicate OnlySettles(c: Client, d: Client, call: CallId, refresh: Option<Token>) {
    && d.refresh == refresh && call in d.calls && !d.calls[call].state.Outstanding?
    && (forall id :: id in d.calls <==> id in c.calls)
    && (forall id | id in c.calls :: d.calls[id].token == c.calls[id].token)
    && (forall id | id in c.calls && id != call :: d.calls[id] == c.calls[id])
  }

  lemma ReplySettles(c: Client, call: CallId, reply: Reply)
    requires call in c.calls && c.calls[call].state.Outstanding?
    ensures OnlySettles(c, Advance(c, CallReply(call, reply)), call,
              if reply.Refused? then None else if reply.Issued? then Some(reply.refresh) else c.refresh)
  {
  }

  /** Once a refresh has settled, the stored token must be the live one. */
  lemma SettleKeepsJoint(s: Session, d: Client, call: CallId, refresh: Option<Token>)
    requires Joint(s) && Waiting(s, call) && OneFlight(d) && OnlySettles(s.client, d, call, refresh)
    requires call in s.link ==> s.server.procs[s.link[call]].pc.Done?
    requires refresh.Some? ==> Leaf(s, refresh.value)
    ensures Joint(s.(client := d))
  {
    var t := s.(client := d);
    forall c | c in d.calls
      ensures !Waiting(t, c)
    {
      if c != call {
        assert s.client.promise == Some(call);
        assert s.client.calls[c].state.Closed?;
      }
    }
  }

  lemma UnsentStep(s: Session, call: CallId, reply: Reply)
    requires Joint(s) && Allowed(s, Unsent(call, reply))
    ensures Joint(Next(s, Unsent(call, reply)))
  {
    assert CallOk(s, call);
    FlightStep(s.client, CallReply(call, reply));
    ReplySettles(s.client, call, reply);
    SettleKeepsJoint(s, Advance(s.client, CallReply(call, reply)), call, s.client.refresh);
  }

  lemma DeliverStep(s: Session, call: CallId)
    requires Joint(s) && Allowed(s, Deliver(call))
    ensures Joint(Next(s, Deliver(call)))
  {
    var outcome := s.server.procs[s.link[call]].pc.outcome;
    var reply := ReplyOf(outcome);
    assert CallOk(s, call);
    FlightStep(s.client, CallReply(call, reply));
    ReplySettles(s.client, call, reply);
    SettleKeepsJoint(s, Advance(s.client, CallReply(call, reply)), call,
      if outcome.Denied? then None else if outcome.Granted? then Some(outcome.token) else s.client.refresh);
  }

  // ----- Moves of the server -----

  lemma OnlyWaiting(s: Session, call: CallId)
    requires OneFlight(s.client) && Waiting(s, call)
    ensures forall c | c in s.client.calls && Waiting(s, c) :: c == call
  {
    assert s.client.promise == Some(call);
  }

  lemma ArriveStep(s: Session, call: CallId, pid: Pid)
    requires Joint(s) && Allowed(s, Arrive(call, pid))
    ensures Joint(Next(s, Arrive(call, pid)))
  {
    var t := Next(s, Arrive(call, pid));
    OnlyWaiting(s, call);
    assert CallOk(s, call);
    assert !Ours(s, pid) by {
      assert forall c | c in s.link :: s.link[c] in s.server.procs;
    }
    forall p | p in t.server.procs && !Ours(t, p)
      ensures !Ours(s, p) && p in s.server.procs && t.server.procs[p] == s.server.procs[p]
    {
      assert t.link[call] == pid;
      assert forall c | c in s.link :: t.link[c] == s.link[c];
    }
    assert CallOk(t, call);
  }

  /** An event that is not a step of one of this session's own handlers. */
  predicate Foreign(s: Session, e: Event) {
    match e
    case Find(pid, _) => !Ours(s, pid)
    case Check(pid) => !Ours(s, pid)
    case LoadUser(pid, _) => !Ours(s, pid)
    case Revoke(pid, _) => !Ours(s, pid)
    case Store(pid, _) => !Ours(s, pid)
    case _ => true
  }

  /** The session's rows and handlers are as before, and other clients still lack its tokens. */
  ghost predicate Untouched(s: Session, t: Server) {
    && FreshNext(t)
    && (forall u | u in s.chain :: u in t.rows && u in s.server.rows && t.rows[u] == s.server.rows[u] && u in t.signed)
    && (forall p | p in s.server.procs :: p in t.procs)
    && (forall p | p in s.server.procs && Ours(s, p) :: t.procs[p] == s.server.procs[p])
    && (forall p | p in t.procs && !Ours(s, p) && !t.procs[p].pc.Done? ::
          t.procs[p].token in t.signed && t.procs[p].token !in s.chain)
  }

  lemma ForeignRows(s: Session, e: Event)
    requires Joint(s) && Allowed(s, Serve(e)) && Foreign(s, e)
    ensures var t := Step(s.server, e);
            forall u | u in s.chain :: u in t.rows && t.rows[u] == s.server.rows[u] && u in t.signed
  {
    if e.Revoke? && At(s.server, e.pid, Revoking) {
      assert s.server.procs[e.pid].token !in s.chain;
    }
  }

  lemma ForeignProcs(s: Session, e: Event)
    requires Foreign(s, e)
    ensures var t := Step(s.server, e);
            && (forall p | p in s.server.procs :: p in t.procs && t.procs[p].token == s.server.procs[p].token)
            && (forall p | p in s.server.procs && s.server.procs[p].pc.Done? :: t.procs[p] == s.server.procs[p])
            && (forall p | p in s.server.procs && Ours(s, p) :: t.procs[p] == s.server.procs[p])
  {
  }

  lemma ForeignStarts(s: Session, e: Event)
    requires Allowed(s, Serve(e))
    ensures var t := Step(s.server, e);
            && (forall k | k in s.server.signed :: k in t.signed)
            && (forall p | p in t.procs && p !in s.server.procs && !t.procs[p].pc.Done? ::
                  t.procs[p].token in t.signed && t.procs[p].token !in s.chain)
  {
  }

  lemma ForeignUntouched(s: Session, e: Event)
    requires Joint(s) && Allowed(s, Serve(e)) && Foreign(s, e)
    ensures Untouched(s, Step(s.server, e))
  {
    FreshStep(s.server, e);
    ForeignRows(s, e);
    ForeignProcs(s, e);
    ForeignStarts(s, e);
  }

  lemma UntouchedJoint(s: Session, t: Server)
    requires Joint(s) && Untouched(s, t)
    ensures Joint(s.(server := t))
  {
    var n := s.(server := t);
    assert forall u | u in s.chain :: Live(t.rows, u) <==> Live(s.server.rows, u);
    forall c | c in s.link
      ensures t.procs[s.link[c]] == s.server.procs[s.link[c]]
    {
      assert Ours(s, s.link[c]);
    }
    forall c | c in n.client.calls && Waiting(n, c)
      ensures CallOk(n, c)
    {
      assert CallOk(s, c);
    }
  }

  /** What a step of the session's own handler may change. */
  ghost predicate OwnChange(s: Session, n: Session, call: CallId) {
    && call in s.link && n.client == s.client && n.link == s.link && FreshNext(n.server)
    && (forall u | u in n.chain :: u in n.server.rows && u in n.server.signed)
    && (forall p | p in n.server.procs :: p in s.server.procs && n.server.procs[p].token == s.server.procs[p].token)
    && (forall p | p in s.server.procs :: p in n.server.procs)
    && (forall p | p in s.server.procs && p != s.link[call] :: n.server.procs[p] == s.server.procs[p])
    && (forall k | k in s.server.signed :: k in n.server.signed)
    && (forall k | k in s.server.signed :: k in n.chain ==> k in s.chain)
  }

  lemma OwnJoint(s: Session, n: Session, call: CallId)
    requires Joint(s) && OwnChange(s, n, call) && Waiting(s, call) && CallOk(n, call)
    ensures Joint(n)
  {
    OnlyWaiting(s, call);
    forall c | c in n.link && c != call
      ensures n.server.procs[n.link[c]] == s.server.procs[s.link[c]]
    {
      assert s.link[c] != s.link[call];
    }
    forall p | p in n.server.procs && !Ours(n, p) && !n.server.procs[p].pc.Done?
      ensures n.server.procs[p].token in n.server.signed && n.server.procs[p].token !in n.chain
    {
      assert Ours(s, s.link[call]);
    }
  }

  /** Lookups of the session's own handler touch nothing but that handler. */
  lemma OwnQuiet(s: Session, e: Event, call: CallId)
    requires Joint(s) && Allowed(s, Serve(e)) && call in s.link && Waiting(s, call)
    requires match e case Find(p, _) => p == s.link[call] case Check(p) => p == s.link[call]
                     case LoadUser(p, _) => p == s.link[call] case _ => false
    ensures OwnChange(s, Next(s, Serve(e)), call)
  {
    FreshStep(s.server, e);
    QuietStep(s.server, e, s.link[call]);
  }

  lemma QuietStep(s: Server, e: Event, pid: Pid)
    requires (e.Find? || e.Check? || e.LoadUser?) && e.pid == pid
    ensures var t := Step(s, e);
            && t.rows == s.rows && t.signed == s.signed && t.procs.Keys == s.procs.Keys
            && (forall p | p in s.procs :: t.procs[p].token == s.procs[p].token)
            && (forall p | p in s.procs && p != pid :: t.procs[p] == s.procs[p])
  {
  }

  lemma OwnQuietStep(s: Session, e: Event, call: CallId)
    requires Joint(s) && Allowed(s, Serve(e)) && call in s.link && Waiting(s, call)
    requires match e case Find(p, _) => p == s.link[call] case Check(p) => p == s.link[call]
                     case LoadUser(p, _) => p == s.link[call] case _ => false
    ensures Joint(Next(s, Serve(e)))
  {
    OwnQuiet(s, e, call);
    OwnQuietCall(s, e, call);
    OwnJoint(s, Next(s, Serve(e)), call);
  }

  lemma OwnQuietCall(s: Session, e: Event, call: CallId)
    requires Joint(s) && Allowed(s, Serve(e)) && call in s.link && Waiting(s, call)
    requires match e case Find(p, _) => p == s.link[call] case Check(p) => p == s.link[call]
                     case LoadUser(p, _) => p == s.link[call] case _ => false
    ensures CallOk(Next(s, Serve(e)), call)
  {
    assert CallOk(s, call);
  }

  lemma OwnRevokeStep(s: Session, call: CallId)
    requires Joint(s) && call in s.link && Waiting(s, call)
    ensures Joint(Next(s, Serve(Revoke(s.link[call], true))))
  {
    OwnRevoke(s, call);
    assert CallOk(s, call);
    OwnJoint(s, Next(s, Serve(Revoke(s.link[call], true))), call);
  }

  lemma OwnRevoke(s: Session, call: CallId)
    requires Joint(s) && call in s.link && Waiting(s, call)
    ensures OwnChange(s, Next(s, Serve(Revoke(s.link[call], true))), call)
  {
    FreshStep(s.server, Revoke(s.link[call], true));
  }

  lemma OwnStoreStep(s: Session, call: CallId)
    requires Joint(s) && call in s.link && Waiting(s, call)
    ensures Joint(Next(s, Serve(Store(s.link[call], true))))
  {
    OwnStore(s, call);
    OwnStoreCall(s, call);
    OwnJoint(s, Next(s, Serve(Store(s.link[call], true))), call);
  }

  lemma OwnStore(s: Session, call: CallId)
    requires Joint(s) && call in s.link && Waiting(s, call)
    ensures OwnChange(s, Next(s, Serve(Store(s.link[call], true))), call)
  {
    assert Ours(s, s.link[call]);
    FreshStep(s.server, Store(s.link[call], true));
  }

  lemma OwnStoreCall(s: Session, call: CallId)
    requires Joint(s) && call in s.link && Waiting(s, call)
    ensures CallOk(Next(s, Serve(Store(s.link[call], true))), call)
  {
    assert Ours(s, s.link[call]);
    assert CallOk(s, call);
  }

  lemma ServeStep(s: Session, e: Event)
    requires Joint(s) && Allowed(s, Serve(e))
    ensures Joint(Next(s, Serve(e)))
  {
    if Foreign(s, e) {
      ForeignUntouched(s, e);
      UntouchedJoint(s, Step(s.server, e));
    } else {
      var call :| call in s.link && s.link[call] == e.pid;
      if !Waiting(s, call) {
        assert Step(s.server, e) == s.server;
      } else if e.Revoke? {
        OwnRevokeStep(s, call);
      } else if e.Store? {
        OwnStoreStep(s, call);
      } else {
        OwnQuietStep(s, e, call);
      }
    }
  }

  lemma SignOutStep(s: Session)
    requires Joint(s) && Allowed(s, SignOut)
    ensures Joint(Next(s, SignOut))
  {
    FlightStep(s.client, ClearTokens);
    FreshStep(s.server, Logout(s.client.refresh.value, true));
  }

  lemma JointStep(s: Session, m: Move)
    requires Joint(s)
    ensures Joint(Next(s, m))
  {
    if Allowed(s, m) {
      match m
      case Local(e) => LocalStep(s, e);
      case Unsent(call, reply) => UnsentStep(s, call, reply);
      case Arrive(call, pid) => ArriveStep(s, call, pid);
      case Serve(e) => ServeStep(s, e);
      case Deliver(call) => DeliverStep(s, call);
      case SignOut => SignOutStep(s);
    }
  }

  lemma {:induction false} JointRun(s: Session, ms: seq<Move>)
    requires Joint(s)
    ensures Joint(RunMoves(s, ms))
  {
    if ms != [] {
      JointRun(s, ms[..|ms| - 1]);
      JointStep(RunMoves(s, ms[..|ms| - 1]), ms[|ms| - 1]);
    }
  }

  // ----- Main results -----

  /**
   Whenever no refresh is in flight, the token in the browser's store is the one live token of the
   session: its rotation chain has exactly one unrevoked end, and the browser holds it.
   */
  lemma StoredTokenIsLeaf(s: Session, ms: seq<Move>)
    requires LoggedIn(s)
    ensures var t := RunMoves(s, ms);
            t.client.promise.None? && t.client.refresh.Some? ==> Leaf(t, t.client.refresh.value)
  {
    LoggedInJoint(s);
    JointRun(s, ms);
  }

  /**
   What the browser holds after an answer: the new token if one was granted, none if the refresh was
   refused, and what it held before if the server failed or the request never got there.
   */
  lemma TokensAfter(s: Session, call: CallId, reply: Reply)
    ensures Allowed(s, Deliver(call)) ==>
              var was, now := s.client.refresh, Next(s, Deliver(call)).client.refresh;
              match s.server.procs[s.link[call]].pc.outcome
              case Granted(t) => now == Some(t)
              case Denied => now.None?
              case Failed => now == was
    ensures Allowed(s, Unsent(call, reply)) ==> Next(s, Unsent(call, reply)).client.refresh == s.client.refresh
  {
  }

  // ----- After signing out -----

  /** The browser holds no token and no token of the session is live. */
  ghost predicate SignedOut(s: Session) {
    s.client.access.None? && s.client.refresh.None? && s.client.promise.None? && NoLeaf(s)
  }

  lemma SignOutNow(s: Session)
    requires Joint(s) && Allowed(s, SignOut)
    ensures SignedOut(Next(s, SignOut))
  {
    forall c | c in s.client.calls
      ensures !Waiting(s, c)
    {
      assert s.client.calls[c].state.Closed?;
    }
    LogoutRevokes(s.server, s.client.refresh.value, true);
  }

  /** A signed-out session has no refresh under way, on neither side. */
  lemma NothingInFlight(s: Session)
    requires Joint(s) && SignedOut(s)
    ensures forall c | c in s.client.calls :: s.client.calls[c].state.Closed?
    ensures forall p | Ours(s, p) :: p in s.server.procs && s.server.procs[p].pc.Done?
  {
    forall p | Ours(s, p)
      ensures p in s.server.procs && s.server.procs[p].pc.Done?
    {
      var c :| c in s.link && s.link[c] == p;
      assert s.client.calls[c].state.Closed?;
    }
  }

  lemma SignedOutStep(s: Session, m: Move)
    requires Joint(s) && SignedOut(s)
    ensures SignedOut(Next(s, m)) && Next(s, m).chain == s.chain
  {
    NothingInFlight(s);
    if m.Serve? && Allowed(s, m) {
      forall u | u in s.chain
        ensures !Live(Step(s.server, m.se).rows, u)
      {
        assert RevokedRow(s.server, u);
        RevokedStep(s.server, m.se, u);
      }
    }
  }

  lemma {:induction false} SignedOutRun(s: Session, ms: seq<Move>)
    requires Joint(s) && SignedOut(s)
    ensures SignedOut(RunMoves(s, ms)) && RunMoves(s, ms).chain == s.chain
  {
    if ms != [] {
      SignedOutRun(s, ms[..|ms| - 1]);
      JointRun(s, ms[..|ms| - 1]);
      SignedOutStep(RunMoves(s, ms[..|ms| - 1]), ms[|ms| - 1]);
    }
  }

  /**
   Once the user has signed out, the browser holds no token and every token the session ever had is dead
   on the server, in every continuation.
   */
  lemma SignedOutForever(s: Session, before: seq<Move>, after: seq<Move>)
    requires LoggedIn(s) && Allowed(RunMoves(s, before), SignOut)
    ensures var t := RunMoves(Next(RunMoves(s, before), SignOut), after);
            && t.client.access.None? && t.client.refresh.None?
            && t.chain == RunMoves(s, before).chain
            && (forall u | u in t.chain :: !Live(t.server.rows, u))
  {
    LoggedInJoint(s);
    JointRun(s, before);
    SignOutNow(RunMoves(s, before));
    SignOutStep(RunMoves(s, before));
    SignedOutRun(Next(RunMoves(s, before), SignOut), after);
  }

  // ----- When a refresh is refused -----

  /** The move makes the handler of `call` answer 401. */
  predicate DeniedNow(s: Session, m: Move, call: CallId) {
    && call in Next(s, m).link && At(Next(s, m).server, Next(s, m).link[call], Done(Denied))
    && !(call in s.link && At(s.server, s.link[call], Done(Denied)))
  }

  /** The signed token has expired, the row has expired, or the user could not be loaded. */
  predicate RefusalReason(s: Session, m: Move, call: CallId)
    requires Waiting(s, call)
  {
    match m
    case Arrive(c, _) =>
      var token := s.client.calls[call].token;
      c == call && token in s.server.signed && s.server.signed[token].exp <= s.server.clock
    case Serve(Check(p)) =>
      && call in s.link && s.link[call] == p && p in s.server.procs && s.server.procs[p].pc.Checking?
      && s.server.procs[p].pc.found.Found? && s.server.procs[p].pc.found.row.expiresAt < s.server.clock
    case Serve(LoadUser(p, found)) =>
      call in s.link && s.link[call] == p && !found && At(s.server, p, LoadingUser)
    case _ => false
  }

  lemma ServeDenied(s: Session, e: Event, call: CallId)
    requires Joint(s) && Waiting(s, call) && Allowed(s, Serve(e))
    ensures DeniedNow(s, Serve(e), call) <==> RefusalReason(s, Serve(e), call)
  {
    assert CallOk(s, call);
    if call in s.link && Foreign(s, e) {
      ForeignProcs(s, e);
      assert Ours(s, s.link[call]);
    }
  }

  lemma DeniedExactly(s: Session, m: Move, call: CallId)
    requires Joint(s) && Waiting(s, call) && Allowed(s, m)
    ensures DeniedNow(s, m, call) <==> RefusalReason(s, m, call)
  {
    assert CallOk(s, call);
    if m.Serve? {
      ServeDenied(s, m.se, call);
    } else if m.Arrive? {
      OnlyWaiting(s, call);
    }
  }

  /** A refresh of the session is refused exactly for expiry or a failed user lookup, never by rotation. */
  lemma RefusedOnlyFor(s: Session, ms: seq<Move>, m: Move, call: CallId)
    requires LoggedIn(s) && Waiting(RunMoves(s, ms), call) && Allowed(RunMoves(s, ms), m)
    ensures DeniedNow(RunMoves(s, ms), m, call) <==> RefusalReason(RunMoves(s, ms), m, call)
  {
    LoggedInJoint(s);
    JointRun(s, ms);
    DeniedExactly(RunMoves(s, ms), m, call);
  }

  /** A user lookup that fails once ends the session although its token is still live. */
  lemma LookupFailureEndsSession(s: Session, ms: seq<Move>, call: CallId)
    requires LoggedIn(s)
    requires var t := RunMoves(s, ms); Waiting(t, call) && call in t.link && At(t.server, t.link[call], LoadingUser)
    ensures var t := RunMoves(s, ms);
            var after := Next(Next(t, Serve(LoadUser(t.link[call], false))), Deliver(call));
            after.client.refresh.None? && Live(after.server.rows, t.client.calls[call].token)
  {
    LoggedInJoint(s);
    JointRun(s, ms);
    var t := RunMoves(s, ms);
    assert CallOk(t, call);
    var denied := Next(t, Serve(LoadUser(t.link[call], false)));
    assert denied.server.rows == t.server.rows && At(denied.server, denied.link[call], Done(Denied));
    assert Allowed(denied, Deliver(call));
  }

  // ----- The failed lookup is reachable -----

  lemma MoveMore(s: Session, ms: seq<Move>, m: Move)
    ensures RunMoves(s, ms + [m]) == Next(RunMoves(s, ms), m)
  {
    assert (ms + [m])[..|ms|] == ms;
  }

  /** The first request of a session is answered 401, and its refresh reaches the server. */
  function Opening(pid: Pid): seq<Move> {
    [] + [Local(Begin(0, true))] + [Local(Respond(0, Unauthorized))] + [Arrive(0, pid)]
  }

  lemma RefreshArrives(s: Session, pid: Pid)
    requires LoggedIn(s) && pid !in s.server.procs && JwtValid(s.server, s.client.refresh.value)
    ensures var t := RunMoves(s, Opening(pid));
            && Waiting(t, 0) && t.link == map[0 := pid]
            && t.server == s.server.(procs := s.server.procs[pid := Proc(s.client.refresh.value, Finding)])
  {
    var begin, respond := Local(Begin(0, true)), Local(Respond(0, Unauthorized));
    assert |s.client.calls| == 0;
    MoveMore(s, [], begin);
    MoveMore(s, [] + [begin], respond);
    MoveMore(s, [] + [begin] + [respond], Arrive(0, pid));
  }

  lemma ServedOwn(t: Session, e: Event)
    requires e.Find? || e.Check? || e.LoadUser?
    ensures Next(t, Serve(e)) == t.(server := Step(t.server, e))
  {
  }

  /** The refresh is looked up and checked while nothing else happens. */
  function UntilChecked(pid: Pid): seq<Move> {
    Opening(pid) + [Serve(Find(pid, true))] + [Serve(Check(pid))]
  }

  lemma CheckPasses(s: Server, pid: Pid)
    requires At(s, pid, Finding) && Live(s.rows, s.procs[pid].token)
    requires s.rows[s.procs[pid].token].expiresAt >= s.clock
    ensures var t := Step(Step(s, Find(pid, true)), Check(pid));
            At(t, pid, LoadingUser) && t.procs[pid].token == s.procs[pid].token
  {
  }

  lemma LookupReached(s: Session, pid: Pid)
    requires LoggedIn(s) && pid !in s.server.procs && JwtValid(s.server, s.client.refresh.value)
    requires s.server.rows[s.client.refresh.value].expiresAt >= s.server.clock
    ensures var t := RunMoves(s, UntilChecked(pid));
            && At(t.server, pid, LoadingUser) && t.link == map[0 := pid] && Waiting(t, 0)
            && t.server.procs[pid].token == s.client.refresh.value
  {
    var arrived := RunMoves(s, Opening(pid));
    RefreshArrives(s, pid);
    MoveMore(s, Opening(pid), Serve(Find(pid, true)));
    MoveMore(s, Opening(pid) + [Serve(Find(pid, true))], Serve(Check(pid)));
    ServedOwn(arrived, Find(pid, true));
    ServedOwn(Next(arrived, Serve(Find(pid, true))), Check(pid));
    CheckPasses(arrived.server, pid);
  }

  /**
   From every logged-in state whose token has not expired, one request answered 401 leads a refresh to
   the user lookup, and if that fails the session is over although its token is live.
   */
  lemma LookupFailureReached(s: Session, pid: Pid)
    requires LoggedIn(s) && pid !in s.server.procs && JwtValid(s.server, s.client.refresh.value)
    requires s.server.rows[s.client.refresh.value].expiresAt >= s.server.clock
    ensures var t := RunMoves(s, UntilChecked(pid));
            var after := Next(Next(t, Serve(LoadUser(pid, false))), Deliver(0));
            after.client.refresh.None? && Live(after.server.rows, s.client.refresh.value)
  {
    LookupReached(s, pid);
    LookupFailureEndsSession(s, UntilChecked(pid), 0);
    LoggedInJoint(s);
    JointRun(s, UntilChecked(pid));
    assert LinkOk(RunMoves(s, UntilChecked(pid)));
  }
}
