/**
 The token handlers in their own form, run without interruption: the table operations change the rows
 in place, and `refresh` looks up, checks, revokes and stores in that order. One such call is the run
 of the interleaved handler's steps with nothing in between.
 */
module AuthController {
  import opened TokenServer

  /** What the database answers to the four statements of one `refresh`. */
  datatype Db = Db(readOk: bool, userFound: bool, revokeOk: bool, storeOk: bool)

  class Tokens {
    const jwtLife: nat
    const rowLife: nat
    var clock: int
    var next: Token
    var signed: map<Token, Claims>
    var rows: map<Token, Row>

    /** The server between requests. */
    ghost function State(): Server
      reads this
    {
      Init(jwtLife, rowLife, clock).(next := next, signed := signed, rows := rows)
    }

    constructor (jwtLife: nat, rowLife: nat, clock: int)
      ensures State() == Init(jwtLife, rowLife, clock)
    {
      this.jwtLife, this.rowLife, this.clock := jwtLife, rowLife, clock;
      next, signed, rows := 0, map[], map[];
    }

    method StoreRefreshToken(token: Token, user: User, expiresAt: int, writeOk: bool)
      modifies this`rows
      ensures rows == if writeOk then old(rows)[token := Row(user, expiresAt, false)] else old(rows)
      ensures writeOk && expiresAt >= clock ==> RowAcceptable(State(), FindRefreshToken(rows, token))
      ensures forall t | t != token :: FindRefreshToken(rows, t) == FindRefreshToken(old(rows), t)
    {
      if writeOk {
        rows := rows[token := Row(user, expiresAt, false)];
      }
    }

    method FindToken(token: Token, readOk: bool) returns (found: Lookup)
      ensures found.DbError? <==> !readOk
      ensures found.Found? <==> readOk && token in rows
      ensures found.Found? ==> found.row == rows[token]
    {
      found := if readOk then FindRefreshToken(rows, token) else DbError;
    }

    method Revoke(token: Token, writeOk: bool)
      modifies this`rows
      ensures rows.Keys == old(rows).Keys
      ensures forall t | t in rows ::
                rows[t] == if writeOk && t == token then old(rows)[t].(revoked := true) else old(rows)[t]
    {
      if writeOk {
        rows := RevokeRefreshToken(rows, token);
      }
    }

    /** A failed insert is not noticed: the token is handed out all the same. */
    method IssueTokens(user: User, writeOk: bool) returns (token: Token)
      modifies this`next, this`signed, this`rows
      ensures token == old(next) && next == token + 1
      ensures signed == old(signed)[token := Claims(user, clock + jwtLife)]
      ensures rows == if writeOk then old(rows)[token := Row(user, clock + rowLife, false)] else old(rows)
    {
      token := next;
      next := next + 1;
      signed := signed[token := Claims(user, clock + jwtLife)];
      StoreRefreshToken(token, user, clock + rowLife, writeOk);
    }

    method Refresh(token: Token, db: Db) returns (r: Outcome)
      modifies this`next, this`signed, this`rows
      ensures Rotation(old(State()), token, db) == Rotated(State(), r)
    {
      if token !in signed || clock >= signed[token].exp {
        return Denied;
      }
      var found := FindToken(token, db.readOk);
      if found.DbError? {
        return Failed;
      }
      if found.Missing? || found.row.revoked || found.row.expiresAt < clock {
        return Denied;
      }
      if !db.userFound {
        return Denied;
      }
      ghost var before := rows;
      Revoke(token, db.revokeOk);
      assert rows == if db.revokeOk then RevokeRefreshToken(before, token) else before;
      var issued := IssueTokens(signed[token].user, db.storeOk);
      return Granted(issued);
    }

    method LogOut(token: Token, writeOk: bool)
      modifies this`rows
      ensures rows.Keys == old(rows).Keys
      ensures forall t | t in rows ::
                rows[t] == if writeOk && t == token then old(rows)[t].(revoked := true) else old(rows)[t]
      ensures writeOk ==> !Live(rows, token)
      ensures rows == Step(old(State()), Logout(token, writeOk)).rows
    {
      Revoke(token, writeOk);
      LogoutRevokes(old(State()), token, writeOk);
    }
  }

  datatype Rotated = Rotated(server: Server, outcome: Outcome)

  /** The token may be exchanged now. */
  predicate Redeemable(s: Server, token: Token, db: Db) {
    JwtValid(s, token) && db.readOk && RowAcceptable(s, FindRefreshToken(s.rows, token)) && db.userFound
  }

  /** What one undisturbed `refresh` does. */
  function Rotation(s: Server, token: Token, db: Db): (r: Rotated)
    ensures r.outcome.Granted? <==> Redeemable(s, token, db)
    ensures !r.outcome.Granted? ==> r.server == s
    ensures r.outcome == Failed <==> JwtValid(s, token) && !db.readOk
  {
    if !JwtValid(s, token) then Rotated(s, Denied)
    else if !db.readOk then Rotated(s, Failed)
    else if !Redeemable(s, token, db) then Rotated(s, Denied)
    else
      var t := if db.revokeOk then s.(rows := RevokeRefreshToken(s.rows, token)) else s;
      Rotated(Issue(t, s.signed[token].user, db.storeOk), Granted(s.next))
  }

  /** The steps of one handler with nothing in between. */
  function Script(pid: Pid, token: Token, db: Db): seq<Event> {
    [Start(pid, token), Find(pid, db.readOk), Check(pid), LoadUser(pid, db.userFound),
     Event.Revoke(pid, db.revokeOk), Store(pid, db.storeOk)]
  }

  lemma RunLast(s: Server, es: seq<Event>, e: Event)
    ensures Run(s, es + [e]) == Step(Run(s, es), e)
  {
    assert (es + [e])[..|es + [e]| - 1] == es;
  }

  /** Where a handler stands once its lookups and checks are over. */
  function Checked(s: Server, pid: Pid, token: Token, db: Db): Server {
    s.(procs := s.procs[pid := Proc(token,
      if Redeemable(s, token, db) then Revoking
      else Done(if JwtValid(s, token) && !db.readOk then Failed else Denied))])
  }

  lemma LookupPart(s: Server, pid: Pid, token: Token, db: Db)
    requires pid !in s.procs
    ensures Step(Step(Step(Step(s, Start(pid, token)), Find(pid, db.readOk)), Check(pid)), LoadUser(pid, db.userFound))
         == Checked(s, pid, token, db)
  {
  }

  lemma OpeningRuns(s: Server, pid: Pid, token: Token, db: Db)
    requires pid !in s.procs
    ensures Run(s, Script(pid, token, db)[..4]) == Checked(s, pid, token, db)
  {
    var es := Script(pid, token, db);
    assert es[..1] == [] + [es[0]] && es[..2] == es[..1] + [es[1]] && es[..3] == es[..2] + [es[2]];
    assert es[..4] == es[..3] + [es[3]];
    RunLast(s, [], es[0]);
    RunLast(s, es[..1], es[1]);
    RunLast(s, es[..2], es[2]);
    RunLast(s, es[..3], es[3]);
    LookupPart(s, pid, token, db);
  }

  lemma ClosingRuns(s: Server, pid: Pid, token: Token, db: Db)
    ensures Run(s, Script(pid, token, db))
         == Step(Step(Run(s, Script(pid, token, db)[..4]), Event.Revoke(pid, db.revokeOk)), Store(pid, db.storeOk))
  {
    var es := Script(pid, token, db);
    assert es[..5] == es[..4] + [es[4]] && es == es[..5] + [es[5]];
    RunLast(s, es[..4], es[4]);
    RunLast(s, es[..5], es[5]);
  }

  lemma RotationPart(s: Server, pid: Pid, token: Token, db: Db)
    requires pid in s.procs && s.procs[pid] == Proc(token, Revoking) && token in s.signed
    ensures var t := Step(Step(s, Event.Revoke(pid, db.revokeOk)), Store(pid, db.storeOk));
            var r := Issue(if db.revokeOk then s.(rows := RevokeRefreshToken(s.rows, token)) else s,
                           s.signed[token].user, db.storeOk);
            && t.rows == r.rows && t.signed == r.signed && t.next == r.next && t.clock == s.clock
            && t.procs == s.procs[pid := Proc(token, Done(Granted(s.next)))]
  {
  }

  lemma FinishedPart(s: Server, pid: Pid, db: Db)
    requires pid in s.procs && s.procs[pid].pc.Done?
    ensures Step(Step(s, Event.Revoke(pid, db.revokeOk)), Store(pid, db.storeOk)) == s
  {
  }

  lemma Overwritten(procs: map<Pid, Proc>, pid: Pid, first: Proc, second: Proc)
    ensures procs[pid := first][pid := second] == procs[pid := second]
  {
  }

  /** The two writes, or nothing, after the checks. */
  lemma ClosingRotates(s: Server, pid: Pid, token: Token, db: Db)
    requires pid !in s.procs
    ensures var t := Step(Step(Checked(s, pid, token, db), Event.Revoke(pid, db.revokeOk)), Store(pid, db.storeOk));
            var r := Rotation(s, token, db);
            && t.rows == r.server.rows && t.signed == r.server.signed && t.next == r.server.next
            && t.procs == s.procs[pid := Proc(token, Done(r.outcome))]
  {
    var m := Checked(s, pid, token, db);
    if Redeemable(s, token, db) {
      RotationPart(m, pid, token, db);
      Overwritten(s.procs, pid, Proc(token, Revoking), Proc(token, Done(Granted(s.next))));
    } else {
      FinishedPart(m, pid, db);
    }
  }

  /** Without interruption the interleaved handler does exactly what `Rotation` says. */
  lemma ScriptIsRotation(s: Server, pid: Pid, token: Token, db: Db)
    requires pid !in s.procs
    ensures var t, r := Run(s, Script(pid, token, db)), Rotation(s, token, db);
            && t.rows == r.server.rows && t.signed == r.server.signed && t.next == r.server.next
            && t.procs == s.procs[pid := Proc(token, Done(r.outcome))]
  {
    OpeningRuns(s, pid, token, db);
    ClosingRuns(s, pid, token, db);
    ClosingRotates(s, pid, token, db);
  }

  /**
   From the insert to the lookup: an issued token is exchanged by a refresh at a later time if and only
   if its row was stored and neither expiry has passed, and no other token's lookup has changed.
   */
  lemma IssuedIsRedeemable(s: Server, user: User, stored: bool, later: int, db: Db)
    requires FreshNext(s) && s.clock <= later && db.readOk && db.userFound
    ensures var t := Issue(s, user, stored).(clock := later);
            Rotation(t, s.next, db).outcome.Granted?
            <==> stored && later < s.clock + s.jwtLife && later <= s.clock + s.rowLife
    ensures forall k | k != s.next ::
              FindRefreshToken(Issue(s, user, stored).rows, k) == FindRefreshToken(s.rows, k)
  {
    assert s.next !in s.rows;
  }

  lemma FirstTwo(s: Server, a: Event, b: Event)
    ensures Run(s, [a, b]) == Step(Step(s, a), b)
  {
    RunLast(s, [], a);
    RunLast(s, [a], b);
    assert [] + [a] == [a] && [a] + [b] == [a, b];
  }

  lemma {:induction false} RunAppend(s: Server, es: seq<Event>, more: seq<Event>)
    ensures Run(s, es + more) == Run(Run(s, es), more)
  {
    if more == [] {
      assert es + more == es;
    } else {
      assert (es + more)[..|es + more| - 1] == es + more[..|more| - 1];
      RunAppend(s, es, more[..|more| - 1]);
    }
  }

  /**
   A session opened now and refreshed `d` later, undisturbed, gets a new token exactly when its row was
   stored and neither lifetime is over: the signed token expires at `jwtLife`, the row after `rowLife`.
   */
  lemma RefreshAfter(s: Server, user: User, stored: bool, d: nat, pid: Pid, db: Db)
    requires FreshNext(s) && pid !in s.procs && db.readOk && db.userFound
    ensures var t := Run(s, [OpenSession(user, stored), Tick(d)] + Script(pid, s.next, db));
            && pid in t.procs && t.procs[pid].token == s.next
            && (t.procs[pid].pc == Done(Granted(s.next + 1)) <==> stored && d < s.jwtLife && d <= s.rowLife)
            && (t.procs[pid].pc == Done(Denied) <==> !stored || d >= s.jwtLife || d > s.rowLife)
  {
    var u := Step(Step(s, OpenSession(user, stored)), Tick(d));
    FirstTwo(s, OpenSession(user, stored), Tick(d));
    RunAppend(s, [OpenSession(user, stored), Tick(d)], Script(pid, s.next, db));
    ScriptIsRotation(u, pid, s.next, db);
    assert s.next !in s.rows;
  }

  /** The new token belongs to `user`, lives for the two lifetimes, and everything older is as it was. */
  ghost predicate Hands(s: Server, t: Server, user: User, stored: bool) {
    && t.next == s.next + 1
    && t.signed == s.signed[s.next := Claims(user, s.clock + s.jwtLife)]
    && (s.next in t.rows <==> stored)
    && (stored ==> t.rows[s.next] == Row(user, s.clock + s.rowLife, false))
    && t.rows.Keys - {s.next} == s.rows.Keys
  }

  lemma OpenSessionHands(s: Server, user: User, stored: bool)
    requires FreshNext(s)
    ensures var t := Step(s, OpenSession(user, stored));
            Hands(s, t, user, stored) && (forall k | k in s.rows :: t.rows[k] == s.rows[k]) && t.procs == s.procs
  {
    assert s.next !in s.rows;
  }

  /**
   An undisturbed refresh that is granted hands out a token of the presented token's own user and revokes
   the presented token alone; one that is not granted leaves tokens and rows as they were.
   */
  lemma RefreshEffect(s: Server, pid: Pid, token: Token, db: Db)
    requires FreshNext(s) && pid !in s.procs
    ensures var t := Run(s, Script(pid, token, db));
            && (At(t, pid, Done(Granted(s.next))) ==>
                  && token in s.signed && Hands(s, t, s.signed[token].user, db.storeOk)
                  && forall k | k in s.rows :: t.rows[k] ==
                       if k == token && db.revokeOk then s.rows[k].(revoked := true) else s.rows[k])
            && (!At(t, pid, Done(Granted(s.next))) ==>
                  (At(t, pid, Done(Denied)) || At(t, pid, Done(Failed))) && t.rows == s.rows && t.signed == s.signed)
  {
    ScriptIsRotation(s, pid, token, db);
    assert s.next !in s.rows;
  }

  /** A token presented twice in a row, its revoke written, is refused the second time. */
  lemma NoSecondRotation(s: Server, token: Token, db: Db, again: Db)
    requires FreshNext(s)
    ensures Rotation(s, token, db).outcome.Granted? && db.revokeOk ==>
              !Rotation(Rotation(s, token, db).server, token, again).outcome.Granted?
  {
  }
}
