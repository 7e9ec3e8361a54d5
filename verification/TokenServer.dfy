/**
 Refresh-token rotation on the server. Every request handler is a process whose `await`s are step
 boundaries; a run is any sequence of events, and an event that is not enabled changes nothing.
 */
module TokenServer {
  type Token = nat
  type User = nat
  type Pid = nat

  /** What the signed token itself says. */
  datatype Claims = Claims(user: User, exp: int)

  /** A row of `refresh_tokens`; the stored hash identifies the token. */
  datatype Row = Row(user: User, expiresAt: int, revoked: bool)

  datatype Lookup = DbError | Missing | Found(row: Row)

  datatype Outcome = Granted(token: Token) | Denied | Failed

  /** Where a `refresh` handler is suspended. */
  datatype Pc =
    | Finding
    | Checking(found: Lookup)
    | LoadingUser
    | Revoking
    | Storing
    | Done(outcome: Outcome)

  datatype Proc = Proc(token: Token, pc: Pc)

  /** How often a row of each user was inserted or flipped to revoked, by kind of request. */
  datatype Ledger = Ledger(
    openings: multiset<User>, rotatedIn: multiset<User>, rotatedOut: multiset<User>, loggedOut: multiset<User>)

  datatype Server = Server(
    jwtLife: nat, rowLife: nat, clock: int, next: Token,
    signed: map<Token, Claims>, rows: map<Token, Row>, procs: map<Pid, Proc>, ledger: Ledger)

  datatype Event =
    | Tick(d: nat)
    | OpenSession(user: User, writeOk: bool)
    | Start(pid: Pid, token: Token)
    | Find(pid: Pid, dbOk: bool)
    | Check(pid: Pid)
    | LoadUser(pid: Pid, found: bool)
    | Revoke(pid: Pid, writeOk: bool)
    | Store(pid: Pid, writeOk: bool)
    | Logout(token: Token, writeOk: bool)

  function Init(jwtLife: nat, rowLife: nat, clock: int): Server {
    Server(jwtLife, rowLife, clock, 0, map[], map[], map[], Ledger(multiset{}, multiset{}, multiset{}, multiset{}))
  }

  // ----- The atomic table operations -----

  function FindRefreshToken(rows: map<Token, Row>, token: Token): Lookup {
    if token in rows then Found(rows[token]) else Missing
  }

  function RevokeRefreshToken(rows: map<Token, Row>, token: Token): map<Token, Row> {
    if token in rows then rows[token := rows[token].(revoked := true)] else rows
  }

  predicate Live(rows: map<Token, Row>, token: Token) {
    token in rows && !rows[token].revoked
  }

  // ----- Steps -----

  predicate At(s: Server, pid: Pid, pc: Pc) {
    pid in s.procs && s.procs[pid].pc == pc
  }

  function MoveTo(s: Server, pid: Pid, pc: Pc): Server
    requires pid in s.procs
  {
    s.(procs := s.procs[pid := s.procs[pid].(pc := pc)])
  }

  /** `issueTokens`: a fresh token is signed; its row may silently fail to be written. */
  function Issue(s: Server, user: User, writeOk: bool): Server {
    s.(next := s.next + 1,
       signed := s.signed[s.next := Claims(user, s.clock + s.jwtLife)],
       rows := if writeOk then s.rows[s.next := Row(user, s.clock + s.rowLife, false)] else s.rows)
  }

  predicate JwtValid(s: Server, token: Token) {
    token in s.signed && s.clock < s.signed[token].exp
  }

  predicate RowAcceptable(s: Server, found: Lookup) {
    found.Found? && !found.row.revoked && found.row.expiresAt >= s.clock
  }

  function Step(s: Server, e: Event): Server {
    match e
    case Tick(d) => s.(clock := s.clock + d)
    case OpenSession(user, writeOk) =>
      var t := Issue(s, user, writeOk);
      if writeOk then t.(ledger := s.ledger.(openings := s.ledger.openings + multiset{user})) else t
    case Start(pid, token) =>
      if pid in s.procs then s
      else s.(procs := s.procs[pid := Proc(token, if JwtValid(s, token) then Finding else Done(Denied))])
    case Find(pid, dbOk) =>
      if !At(s, pid, Finding) then s
      else MoveTo(s, pid, Checking(if dbOk then FindRefreshToken(s.rows, s.procs[pid].token) else DbError))
    case Check(pid) =>
      if pid !in s.procs || !s.procs[pid].pc.Checking? then s
      else
        var found := s.procs[pid].pc.found;
        MoveTo(s, pid, if found.DbError? then Done(Failed)
                       else if RowAcceptable(s, found) then LoadingUser else Done(Denied))
    case LoadUser(pid, found) =>
      if !At(s, pid, LoadingUser) then s
      else MoveTo(s, pid, if found then Revoking else Done(Denied))
    case Revoke(pid, writeOk) =>
      if !At(s, pid, Revoking) then s
      else
        var token := s.procs[pid].token;
        var t := MoveTo(s, pid, Storing);
        if !writeOk then t
        else
          t.(rows := RevokeRefreshToken(s.rows, token),
             ledger := if Live(s.rows, token)
                       then s.ledger.(rotatedOut := s.ledger.rotatedOut + multiset{s.rows[token].user}) else s.ledger)
    case Store(pid, writeOk) =>
      if !At(s, pid, Storing) || s.procs[pid].token !in s.signed then s
      else
        var user := s.signed[s.procs[pid].token].user;
        var t := MoveTo(Issue(s, user, writeOk), pid, Done(Granted(s.next)));
        if writeOk then t.(ledger := s.ledger.(rotatedIn := s.ledger.rotatedIn + multiset{user})) else t
    case Logout(token, writeOk) =>
      if !writeOk then s
      else
        s.(rows := RevokeRefreshToken(s.rows, token),
           ledger := if Live(s.rows, token)
                     then s.ledger.(loggedOut := s.ledger.loggedOut + multiset{s.rows[token].user}) else s.ledger)
  }

  function Run(s: Server, es: seq<Event>): Server {
    if es == [] then s else Step(Run(s, es[..|es| - 1]), es[|es| - 1])
  }

  /** Every handler of this token is done. */
  predicate TokenIdle(s: Server, token: Token) {
    forall p | p in s.procs && s.procs[p].token == token :: s.procs[p].pc.Done?
  }

  /** The handler has revoked its token and hands out, or has handed out, a new one. */
  predicate Redeemed(p: Proc) {
    p.pc.Storing? || (p.pc.Done? && p.pc.outcome.Granted?)
  }

  // ----- Revocation is final -----

  predicate RevokedRow(s: Server, token: Token) {
    token in s.rows && s.rows[token].revoked
  }

  /** Rows are only ever inserted under fresh tokens. */
  ghost predicate FreshNext(s: Server) {
    && (forall t | t in s.rows :: t < s.next)
    && (forall t | t in s.signed :: t < s.next)
  }

  lemma FreshStep(s: Server, e: Event)
    requires FreshNext(s)
    ensures FreshNext(Step(s, e))
  {
  }

  lemma RevokedStep(s: Server, e: Event, token: Token)
    requires FreshNext(s) && RevokedRow(s, token)
    ensures RevokedRow(Step(s, e), token)
  {
  }

  lemma {:induction false} FreshRun(s: Server, es: seq<Event>)
    requires FreshNext(s)
    ensures FreshNext(Run(s, es))
  {
    if es != [] {
      FreshRun(s, es[..|es| - 1]);
      FreshStep(Run(s, es[..|es| - 1]), es[|es| - 1]);
    }
  }

  /** Once revoked, a token stays revoked, whatever happens. */
  lemma {:induction false} RevokedForever(s: Server, es: seq<Event>, token: Token)
    requires FreshNext(s) && RevokedRow(s, token)
    ensures RevokedRow(Run(s, es), token)
  {
    if es != [] {
      var before := es[..|es| - 1];
      FreshRun(s, before);
      RevokedForever(s, before, token);
      RevokedStep(Run(s, before), es[|es| - 1], token);
    }
  }

  /**
   A written logout revokes the row of its token and no other; one that is not written, or finds no row,
   changes no row. Nothing that was issued, and no handler, is touched.
   */
  lemma LogoutRevokes(s: Server, token: Token, writeOk: bool)
    ensures var t := Step(s, Logout(token, writeOk));
            && t.rows.Keys == s.rows.Keys
            && (writeOk && token in s.rows ==> RevokedRow(t, token) && t.rows[token].user == s.rows[token].user)
            && (forall k | k in s.rows && (k != token || !writeOk) :: t.rows[k] == s.rows[k])
            && t.signed == s.signed && t.procs == s.procs && t.next == s.next && t.clock == s.clock
  {
    assert Step(s, Logout(token, writeOk)).rows.Keys == s.rows.Keys;
  }

  // ----- No redemption after a revocation -----

  /** Process `pid` has not read the row of `token` while it was still live. */
  ghost predicate Barred(s: Server, pid: Pid, token: Token) {
    pid in s.procs && s.procs[pid].token == token ==>
      match s.procs[pid].pc
      case Finding => true
      case Checking(found) => found.Found? ==> found.row.revoked
      case Done(outcome) => !outcome.Granted?
      case _ => false
  }

  lemma BarredStep(s: Server, e: Event, pid: Pid, token: Token)
    requires RevokedRow(s, token) && Barred(s, pid, token)
    ensures Barred(Step(s, e), pid, token)
  {
  }

  /**
   A refresh that has not yet looked its token up when the token is revoked never succeeds, in any
   interleaving with any number of other requests.
   */
  lemma {:induction false} NoRedemptionAfterRevoke(s: Server, es: seq<Event>, pid: Pid, token: Token)
    requires FreshNext(s) && RevokedRow(s, token)
    requires pid !in s.procs || At(s, pid, Finding)
    ensures var t := Run(s, es);
            pid in t.procs && t.procs[pid].token == token ==>
              !(t.procs[pid].pc.Done? && t.procs[pid].pc.outcome.Granted?)
  {
    BarredForever(s, es, pid, token);
  }

  lemma {:induction false} BarredForever(s: Server, es: seq<Event>, pid: Pid, token: Token)
    requires FreshNext(s) && RevokedRow(s, token) && Barred(s, pid, token)
    ensures Barred(Run(s, es), pid, token)
  {
    if es != [] {
      var before := es[..|es| - 1];
      RevokedForever(s, before, token);
      BarredForever(s, before, pid, token);
      BarredStep(Run(s, before), es[|es| - 1], pid, token);
    }
  }
}
