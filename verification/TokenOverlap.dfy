/**
 How often one token can be redeemed: at most once while its own refreshes do not overlap, and exactly
 when twice if they do. Requests about other tokens interleave without restriction.
 */
module TokenOverlap {
  import opened TokenServer

  // ----- Refreshes of one token that do not overlap -----

  /** A refresh of `token` starts only when the others are done, and its revokes are written. */
  predicate OwnTurn(s: Server, e: Event, token: Token) {
    match e
    case Start(_, k) => k == token ==> TokenIdle(s, token)
    case Revoke(pid, writeOk) => pid in s.procs && s.procs[pid].token == token ==> writeOk
    case _ => true
  }

  predicate OwnTurns(s: Server, es: seq<Event>, token: Token) {
    es == [] || (OwnTurns(s, es[..|es| - 1], token) && OwnTurn(Run(s, es[..|es| - 1]), es[|es| - 1], token))
  }

  ghost predicate OneHandler(s: Server, token: Token) {
    forall p, q | p in s.procs && q in s.procs && s.procs[p].token == token && s.procs[q].token == token
                  && !s.procs[p].pc.Done? && !s.procs[q].pc.Done? :: p == q
  }

  /** A handler that is past its lookup read an existing row. */
  ghost predicate ReadRow(s: Server, p: Proc) {
    match p.pc
    case Checking(found) => found.Found? ==> p.token in s.rows
    case LoadingUser => p.token in s.rows
    case Revoking => p.token in s.rows
    case _ => true
  }

  /** Once a handler has redeemed the token, its row is revoked and no other handler can succeed. */
  ghost predicate Spent(s: Server, p: Pid, token: Token) {
    p in s.procs && s.procs[p].token == token && Redeemed(s.procs[p]) ==>
      RevokedRow(s, token) && forall q | q != p :: Barred(s, q, token)
  }

  ghost predicate TokenInv(s: Server, token: Token) {
    && FreshNext(s) && OneHandler(s, token)
    && (forall p | p in s.procs :: ReadRow(s, s.procs[p]))
    && forall p :: Spent(s, p, token)
  }

  lemma RowStep(s: Server, e: Event)
    requires forall p | p in s.procs :: ReadRow(s, s.procs[p])
    ensures forall p | p in Step(s, e).procs :: ReadRow(Step(s, e), Step(s, e).procs[p])
  {
    forall p | p in Step(s, e).procs
      ensures ReadRow(Step(s, e), Step(s, e).procs[p])
    {
      assert p in s.procs ==> ReadRow(s, s.procs[p]);
    }
  }

  lemma OneHandlerStep(s: Server, e: Event, token: Token)
    requires OneHandler(s, token) && OwnTurn(s, e, token)
    ensures OneHandler(Step(s, e), token)
  {
    var t := Step(s, e);
    forall p | p in t.procs && t.procs[p].token == token && !t.procs[p].pc.Done?
      ensures if p in s.procs then s.procs[p].token == token && !s.procs[p].pc.Done?
              else e.Start? && e.pid == p && TokenIdle(s, token)
    {
    }
  }

  /** The revoke that redeems the token finds every other handler of it done and unsuccessful. */
  lemma FirstRedeem(s: Server, pid: Pid, token: Token)
    requires TokenInv(s, token) && At(s, pid, Revoking) && s.procs[pid].token == token
    ensures Spent(Step(s, Revoke(pid, true)), pid, token)
  {
    var t := Step(s, Revoke(pid, true));
    assert ReadRow(s, s.procs[pid]);
    forall q | q != pid
      ensures Barred(t, q, token)
    {
      assert Spent(s, q, token) && !Barred(s, pid, token);
    }
  }

  lemma SpentStep(s: Server, e: Event, p: Pid, token: Token)
    requires TokenInv(s, token) && OwnTurn(s, e, token)
    ensures Spent(Step(s, e), p, token)
  {
    assert Spent(s, p, token);
    if p in s.procs && s.procs[p].token == token && Redeemed(s.procs[p]) {
      RevokedStep(s, e, token);
      forall q | q != p
        ensures Barred(Step(s, e), q, token)
      {
        BarredStep(s, e, q, token);
      }
    } else if e == Revoke(p, true) && At(s, p, Revoking) && s.procs[p].token == token {
      FirstRedeem(s, p, token);
    } else {
      NotYetRedeemed(s, e, p, token);
    }
  }

  lemma NotYetRedeemed(s: Server, e: Event, p: Pid, token: Token)
    requires OwnTurn(s, e, token)
    requires !(p in s.procs && s.procs[p].token == token && Redeemed(s.procs[p]))
    requires !(e == Revoke(p, true) && At(s, p, Revoking) && s.procs[p].token == token)
    ensures !(p in Step(s, e).procs && Step(s, e).procs[p].token == token && Redeemed(Step(s, e).procs[p]))
  {
  }

  lemma {:induction false} TokenRunInv(s: Server, es: seq<Event>, token: Token)
    requires TokenInv(s, token) && OwnTurns(s, es, token)
    ensures TokenInv(Run(s, es), token)
  {
    if es != [] {
      var before, e := Run(s, es[..|es| - 1]), es[|es| - 1];
      TokenRunInv(s, es[..|es| - 1], token);
      FreshStep(before, e);
      OneHandlerStep(before, e, token);
      RowStep(before, e);
      forall p {
        SpentStep(before, e, p, token);
      }
    }
  }

  /**
   While the refreshes of one token do not overlap and their revokes are written, the token is redeemed
   at most once, whatever logouts, failed writes and requests about other tokens happen in between.
   */
  lemma RedeemedAtMostOnce(jwtLife: nat, rowLife: nat, clock: int, es: seq<Event>, token: Token)
    requires OwnTurns(Init(jwtLife, rowLife, clock), es, token)
    ensures var t := Run(Init(jwtLife, rowLife, clock), es);
            forall p, q | p in t.procs && q in t.procs && Redeemed(t.procs[p]) && Redeemed(t.procs[q])
                          && t.procs[p].token == token && t.procs[q].token == token :: p == q
  {
    var t := Run(Init(jwtLife, rowLife, clock), es);
    TokenRunInv(Init(jwtLife, rowLife, clock), es, token);
    forall p, q | p in t.procs && q in t.procs && Redeemed(t.procs[p]) && Redeemed(t.procs[q])
                  && t.procs[p].token == token && t.procs[q].token == token
      ensures p == q
    {
      assert Spent(t, p, token);
      assert q != p ==> Barred(t, q, token);
    }
  }

  // ----- Exactly when a refresh succeeds -----

  /** The handler's check comes before its row expires, and its user is found. */
  predicate OnTime(s: Server, e: Event, pid: Pid) {
    match e
    case Check(p) =>
      p == pid && pid in s.procs && s.procs[pid].pc.Checking? && s.procs[pid].pc.found.Found? ==>
        s.clock <= s.procs[pid].pc.found.row.expiresAt
    case LoadUser(p, found) => p == pid ==> found
    case _ => true
  }

  predicate OnTimeRun(s: Server, es: seq<Event>, pid: Pid) {
    es == [] || (OnTimeRun(s, es[..|es| - 1], pid) && OnTime(Run(s, es[..|es| - 1]), es[|es| - 1], pid))
  }

  /** The handler read its row live, or is further on the way to success. */
  predicate Lucky(s: Server, pid: Pid) {
    && pid in s.procs
    && match s.procs[pid].pc
       case Checking(found) => found.Found? && !found.row.revoked
       case Done(outcome) => outcome.Granted?
       case Finding => false
       case _ => true
  }

  /** The handler found no row or a revoked one, or has been refused. */
  predicate Unlucky(s: Server, pid: Pid) {
    && pid in s.procs
    && match s.procs[pid].pc
       case Checking(found) => !found.DbError? && (found.Found? ==> found.row.revoked)
       case Done(outcome) => !outcome.Granted?
       case _ => false
  }

  lemma LuckStays(s: Server, e: Event, pid: Pid)
    requires OnTime(s, e, pid)
    ensures Lucky(s, pid) ==> Lucky(Step(s, e), pid)
    ensures Unlucky(s, pid) ==> Unlucky(Step(s, e), pid)
  {
  }

  /** What the lookup reads decides the outcome. */
  lemma {:induction false} LookupDecides(s: Server, before: seq<Event>, pid: Pid, after: seq<Event>)
    requires At(Run(s, before), pid, Finding)
    requires OnTimeRun(s, before + [Find(pid, true)] + after, pid)
    ensures var u, t := Run(s, before), Run(s, before + [Find(pid, true)] + after);
            if Live(u.rows, u.procs[pid].token) then Lucky(t, pid) else Unlucky(t, pid)
  {
    if after == [] {
      assert before + [Find(pid, true)] + after == before + [Find(pid, true)];
      assert (before + [Find(pid, true)])[..|before|] == before;
    } else {
      var most, e := after[..|after| - 1], after[|after| - 1];
      var es := before + [Find(pid, true)] + after;
      assert es[..|es| - 1] == before + [Find(pid, true)] + most && es[|es| - 1] == e;
      LookupDecides(s, before, pid, most);
      LuckStays(Run(s, es[..|es| - 1]), e, pid);
    }
  }

  /** Handlers in progress hold tokens that were signed. */
  ghost predicate HandlersSigned(s: Server) {
    FreshNext(s) && forall p | p in s.procs && !s.procs[p].pc.Done? :: s.procs[p].token in s.signed
  }

  lemma SignedStep(s: Server, e: Event)
    requires HandlersSigned(s)
    ensures HandlersSigned(Step(s, e))
  {
    FreshStep(s, e);
  }

  lemma {:induction false} SignedRun(s: Server, es: seq<Event>)
    requires HandlersSigned(s)
    ensures HandlersSigned(Run(s, es))
  {
    if es != [] {
      SignedRun(s, es[..|es| - 1]);
      SignedStep(Run(s, es[..|es| - 1]), es[|es| - 1]);
    }
  }

  /** A token that was signed gets no row later, so a row live now was live before. */
  lemma LiveEarlierStep(s: Server, e: Event, token: Token)
    requires token < s.next && Live(Step(s, e).rows, token)
    ensures Live(s.rows, token) && s.next <= Step(s, e).next
  {
  }

  lemma LastApart<T>(a: seq<T>, b: seq<T>)
    requires b != []
    ensures (a + b)[..|a + b| - 1] == a + b[..|b| - 1] && (a + b)[|a + b| - 1] == b[|b| - 1]
  {
  }

  lemma RunMore(s: Server, before: seq<Event>, more: seq<Event>)
    requires more != []
    ensures Run(s, before + more) == Step(Run(s, before + more[..|more| - 1]), more[|more| - 1])
  {
    LastApart(before, more);
  }

  lemma NextStep(s: Server, e: Event)
    ensures s.next <= Step(s, e).next
  {
  }

  lemma {:induction false} NextMore(s: Server, before: seq<Event>, more: seq<Event>)
    ensures Run(s, before).next <= Run(s, before + more).next
  {
    if more == [] {
      assert before + more == before;
    } else {
      NextMore(s, before, more[..|more| - 1]);
      RunMore(s, before, more);
      NextStep(Run(s, before + more[..|more| - 1]), more[|more| - 1]);
    }
  }

  lemma {:induction false} LiveEarlier(s: Server, before: seq<Event>, more: seq<Event>, token: Token)
    requires token < Run(s, before).next && Live(Run(s, before + more).rows, token)
    ensures Live(Run(s, before).rows, token)
  {
    if more == [] {
      assert before + more == before;
    } else {
      var most := more[..|more| - 1];
      RunMore(s, before, more);
      NextMore(s, before, most);
      LiveEarlierStep(Run(s, before + most), more[|more| - 1], token);
      LiveEarlier(s, before, most, token);
    }
  }

  // ----- After a logout -----

  lemma DeadStep(s: Server, e: Event, pid: Pid, token: Token)
    requires token < s.next && !Live(s.rows, token) && Barred(s, pid, token)
    ensures token < Step(s, e).next && !Live(Step(s, e).rows, token) && Barred(Step(s, e), pid, token)
  {
    NextStep(s, e);
    if Live(Step(s, e).rows, token) {
      LiveEarlierStep(s, e, token);
    }
  }

  lemma {:induction false} DeadMore(s: Server, before: seq<Event>, more: seq<Event>, pid: Pid, token: Token)
    requires var u := Run(s, before); token < u.next && !Live(u.rows, token) && Barred(u, pid, token)
    ensures var t := Run(s, before + more); token < t.next && !Live(t.rows, token) && Barred(t, pid, token)
  {
    if more == [] {
      assert before + more == before;
    } else {
      var most := more[..|more| - 1];
      DeadMore(s, before, most, pid, token);
      RunMore(s, before, more);
      DeadStep(Run(s, before + most), more[|more| - 1], pid, token);
    }
  }

  /**
   Once the logout of an issued token is written, no refresh that looks the token up afterwards is ever
   granted one, whatever else happens before and after.
   */
  lemma NoRefreshAfterLogout(s: Server, before: seq<Event>, token: Token, after: seq<Event>, pid: Pid)
    requires var u := Run(s, before); token < u.next && (pid !in u.procs || At(u, pid, Finding))
    ensures var t := Run(s, before + [Logout(token, true)] + after);
            pid in t.procs && t.procs[pid].token == token ==>
              t.procs[pid].pc != Storing && !(t.procs[pid].pc.Done? && t.procs[pid].pc.outcome.Granted?)
  {
    var u := Run(s, before);
    LogoutRevokes(u, token, true);
    RunMore(s, before, [Logout(token, true)]);
    assert before + [Logout(token, true)][..0] == before;
    DeadMore(s, before + [Logout(token, true)], after, pid, token);
  }

  /** A handler that was granted a token. */
  predicate Succeeded(s: Server, pid: Pid) {
    pid in s.procs && s.procs[pid].pc.Done? && s.procs[pid].pc.outcome.Granted?
  }

  /**
   Two handlers of one token, `p` looking it up before `q`, neither late nor with a failed lookup, both
   finished: both succeed if and only if the token is still live at the later lookup, that is, if both
   lookups come before the first written revoke. Everything else in the run is arbitrary.
   */
  lemma BothSucceedExactly(jwtLife: nat, rowLife: nat, clock: int, p: Pid, q: Pid, token: Token,
                           before: seq<Event>, between: seq<Event>, after: seq<Event>)
    requires var s := Init(jwtLife, rowLife, clock);
             var first, second := before, before + [Find(p, true)] + between;
             var es := second + [Find(q, true)] + after;
             && At(Run(s, first), p, Finding) && Run(s, first).procs[p].token == token
             && At(Run(s, second), q, Finding) && Run(s, second).procs[q].token == token
             && OnTimeRun(s, es, p) && OnTimeRun(s, es, q)
             && p in Run(s, es).procs && Run(s, es).procs[p].pc.Done?
             && q in Run(s, es).procs && Run(s, es).procs[q].pc.Done?
    ensures var s := Init(jwtLife, rowLife, clock);
            var second := before + [Find(p, true)] + between;
            var t := Run(s, second + [Find(q, true)] + after);
            Succeeded(t, p) && Succeeded(t, q) <==> Live(Run(s, second).rows, token)
  {
    var s := Init(jwtLife, rowLife, clock);
    var second := before + [Find(p, true)] + between;
    var rest := between + [Find(q, true)] + after;
    assert before + [Find(p, true)] + rest == second + [Find(q, true)] + after;
    LookupDecides(s, before, p, rest);
    LookupDecides(s, second, q, after);
    SignedRun(s, before);
    if Live(Run(s, second).rows, token) {
      assert second == before + ([Find(p, true)] + between);
      LiveEarlier(s, before, [Find(p, true)] + between, token);
    }
  }

  // ----- The overlap happens -----

  /** One session of user 7, with two refreshes of its token suspended at `one` and `two`. */
  function Overlapping(one: Pc, two: Pc, revoked: bool): Server {
    Server(10, 10, 0, 1, map[0 := Claims(7, 10)], map[0 := Row(7, 10, revoked)],
           map[1 := Proc(0, one), 2 := Proc(0, two)],
           Ledger(multiset{7}, multiset{}, if revoked then multiset{7} else multiset{}, multiset{}))
  }

  lemma RunTwo(s: Server, before: seq<Event>, a: Event, b: Event)
    ensures Run(s, before + [a, b]) == Step(Step(Run(s, before), a), b)
  {
    var es := before + [a, b];
    assert es[..|es| - 1] == before + [a];
    assert (before + [a])[..|before|] == before;
  }

  const READ := Checking(Found(Row(7, 10, false)))

  lemma BothFind()
    ensures Step(Step(Overlapping(Finding, Finding, false), Find(1, true)), Find(2, true))
         == Overlapping(READ, READ, false)
  {
  }

  lemma BothCheck()
    ensures Step(Step(Overlapping(READ, READ, false), Check(1)), Check(2))
         == Overlapping(LoadingUser, LoadingUser, false)
  {
  }

  lemma BothLoad()
    ensures Step(Step(Overlapping(LoadingUser, LoadingUser, false), LoadUser(1, true)), LoadUser(2, true))
         == Overlapping(Revoking, Revoking, false)
  {
  }

  lemma BothRevoke()
    ensures Step(Step(Overlapping(Revoking, Revoking, false), Revoke(1, true)), Revoke(2, true))
         == Overlapping(Storing, Storing, true)
  {
  }

  lemma BothStore()
    ensures var t := Step(Step(Overlapping(Storing, Storing, true), Store(1, true)), Store(2, true));
            && At(t, 1, Done(Granted(1))) && At(t, 2, Done(Granted(2)))
            && t.procs[1].token == 0 && t.procs[2].token == 0
            && Live(t.rows, 1) && Live(t.rows, 2)
  {
  }

  const OVERLAP: seq<Event> :=
    [] + [Find(1, true), Find(2, true)] + [Check(1), Check(2)] + [LoadUser(1, true), LoadUser(2, true)]
    + [Revoke(1, true), Revoke(2, true)] + [Store(1, true), Store(2, true)]

  /** Two refreshes of one token that both look it up before either revokes it both succeed. */
  lemma OverlapRedeemsTwice()
    ensures Step(Step(Step(Init(10, 10, 0), OpenSession(7, true)), Start(1, 0)), Start(2, 0))
         == Overlapping(Finding, Finding, false)
    ensures var t := Run(Overlapping(Finding, Finding, false), OVERLAP);
            && At(t, 1, Done(Granted(1))) && At(t, 2, Done(Granted(2)))
            && t.procs[1].token == 0 && t.procs[2].token == 0
            && Live(t.rows, 1) && Live(t.rows, 2)
  {
    var s := Overlapping(Finding, Finding, false);
    var find, check, load, revoke := [Find(1, true), Find(2, true)], [Check(1), Check(2)],
      [LoadUser(1, true), LoadUser(2, true)], [Revoke(1, true), Revoke(2, true)];
    RunTwo(s, [], Find(1, true), Find(2, true));
    RunTwo(s, [] + find, Check(1), Check(2));
    RunTwo(s, [] + find + check, LoadUser(1, true), LoadUser(2, true));
    RunTwo(s, [] + find + check + load, Revoke(1, true), Revoke(2, true));
    RunTwo(s, [] + find + check + load + revoke, Store(1, true), Store(2, true));
    BothFind();
    BothCheck();
    BothLoad();
    BothRevoke();
    BothStore();
  }
}
