/**
 Counting refresh tokens: what every interleaving conserves, and what holds when no two requests about
 one token overlap and writes succeed. Requests about different tokens interleave freely.
 */
module TokenLedger {
  import opened TokenServer

  ghost function LiveOf(s: Server, u: User): set<Token> {
    set t | t in s.rows && s.rows[t].user == u && !s.rows[t].revoked
  }

  /** Live rows are the rows inserted minus the rows flipped, for one user. */
  ghost predicate BalancedFor(s: Server, u: User) {
    |LiveOf(s, u)| + s.ledger.loggedOut[u] + s.ledger.rotatedOut[u] == s.ledger.openings[u] + s.ledger.rotatedIn[u]
  }

  /** Live rows are exactly the rows inserted minus the rows flipped, per user and kind of request. */
  ghost predicate Balanced(s: Server) {
    forall u :: BalancedFor(s, u)
  }

  lemma InsertLive(s: Server, t: Server, token: Token, row: Row, u: User)
    requires token !in s.rows && !row.revoked && t.rows == s.rows[token := row]
    ensures |LiveOf(t, u)| == |LiveOf(s, u)| + if row.user == u then 1 else 0
  {
    assert LiveOf(t, u) == if row.user == u then LiveOf(s, u) + {token} else LiveOf(s, u);
  }

  lemma FlipLive(s: Server, t: Server, token: Token, u: User)
    requires t.rows == RevokeRefreshToken(s.rows, token)
    ensures |LiveOf(t, u)| == |LiveOf(s, u)| - if Live(s.rows, token) && s.rows[token].user == u then 1 else 0
  {
    assert LiveOf(t, u) == LiveOf(s, u) - {token};
  }

  lemma SameLive(s: Server, t: Server, u: User)
    requires t.rows == s.rows
    ensures LiveOf(t, u) == LiveOf(s, u)
  {
  }

  lemma InsertBalanced(s: Server, e: Event, u: User)
    requires FreshNext(s) && BalancedFor(s, u) && (e.OpenSession? || e.Store?)
    ensures BalancedFor(Step(s, e), u)
  {
    var t := Step(s, e);
    assert s.next !in s.rows;
    if t.rows == s.rows {
      assert s.next !in t.rows;
      SameLive(s, t, u);
    } else if e.OpenSession? {
      InsertLive(s, t, s.next, Row(e.user, s.clock + s.rowLife, false), u);
    } else {
      InsertLive(s, t, s.next, Row(s.signed[s.procs[e.pid].token].user, s.clock + s.rowLife, false), u);
    }
  }

  lemma FlipBalanced(s: Server, e: Event, u: User)
    requires BalancedFor(s, u) && (e.Revoke? || e.Logout?)
    ensures BalancedFor(Step(s, e), u)
  {
    if e.Logout? && e.writeOk {
      FlipLive(s, Step(s, e), e.token, u);
    } else if e.Revoke? && At(s, e.pid, Revoking) && e.writeOk {
      FlipLive(s, Step(s, e), s.procs[e.pid].token, u);
    } else {
      SameLive(s, Step(s, e), u);
    }
  }

  lemma BalancedStep(s: Server, e: Event)
    requires FreshNext(s) && Balanced(s)
    ensures Balanced(Step(s, e))
  {
    forall u
      ensures BalancedFor(Step(s, e), u)
    {
      assert BalancedFor(s, u);
      if e.OpenSession? || e.Store? {
        InsertBalanced(s, e, u);
      } else if e.Revoke? || e.Logout? {
        FlipBalanced(s, e, u);
      } else {
        SameLive(s, Step(s, e), u);
      }
    }
  }

  /** Conservation in every interleaving, with any writes failing. */
  lemma {:induction false} Conservation(s: Server, es: seq<Event>)
    requires FreshNext(s) && Balanced(s)
    ensures Balanced(Run(s, es))
  {
    if es != [] {
      var before := es[..|es| - 1];
      FreshRun(s, before);
      Conservation(s, before);
      BalancedStep(Run(s, before), es[|es| - 1]);
    }
  }

  // ----- Requests about one token do not overlap -----

  /** A refresh or a logout of a token begins only when every handler of that token is done; writes succeed. */
  predicate Orderly(s: Server, e: Event) {
    match e
    case Start(_, token) => TokenIdle(s, token)
    case Logout(token, writeOk) => TokenIdle(s, token) && writeOk
    case OpenSession(_, writeOk) => writeOk
    case Revoke(_, writeOk) => writeOk
    case Store(_, writeOk) => writeOk
    case _ => true
  }

  predicate OrderlyRun(s: Server, es: seq<Event>) {
    es == [] || (OrderlyRun(s, es[..|es| - 1]) && Orderly(Run(s, es[..|es| - 1]), es[|es| - 1]))
  }

  predicate PastCheck(p: Proc) {
    p.pc.LoadingUser? || p.pc.Revoking?
  }

  /** No two active handlers hold one token. */
  ghost predicate OneActive(s: Server) {
    forall p, q | p in s.procs && q in s.procs && s.procs[p].token == s.procs[q].token
                  && !s.procs[p].pc.Done? && !s.procs[q].pc.Done? :: p == q
  }

  /** Rows and signed claims agree on the owner. */
  ghost predicate SameOwner(s: Server) {
    forall t | t in s.rows :: t in s.signed && s.signed[t].user == s.rows[t].user
  }

  ghost predicate ProcOk(s: Server, p: Proc) {
    && (Redeemed(p) ==> RevokedRow(s, p.token))
    && (PastCheck(p) ==> Live(s.rows, p.token))
    && (p.pc.Checking? && p.pc.found.Found? ==> p.token in s.rows && s.rows[p.token] == p.pc.found.row)
    && (p.pc.Storing? ==> p.token in s.signed)
  }

  ghost predicate RedeemedOnce(s: Server) {
    forall p, q | p in s.procs && q in s.procs && Redeemed(s.procs[p]) && Redeemed(s.procs[q])
                  && s.procs[p].token == s.procs[q].token :: p == q
  }

  /** The rotations of `u` that are between their two writes. */
  ghost function StoringOf(s: Server, u: User): set<Pid> {
    set p | p in s.procs && s.procs[p].pc.Storing? && s.procs[p].token in s.signed
            && s.signed[s.procs[p].token].user == u
  }

  /** Every rotation that flipped a row also inserted one, except those between their two writes. */
  ghost predicate Paired(s: Server, u: User) {
    s.ledger.rotatedOut[u] == s.ledger.rotatedIn[u] + |StoringOf(s, u)|
  }

  ghost predicate OrderlyInv(s: Server) {
    && FreshNext(s) && SameOwner(s) && OneActive(s)
    && (forall p | p in s.procs :: ProcOk(s, s.procs[p]))
    && RedeemedOnce(s) && (forall u :: Paired(s, u))
  }

  lemma OwnerStep(s: Server, e: Event)
    requires FreshNext(s) && SameOwner(s)
    ensures SameOwner(Step(s, e))
  {
  }

  /** A handler keeps its token, and only a `Start` makes one active. */
  lemma HandlerKeeps(s: Server, e: Event, p: Pid)
    requires p in Step(s, e).procs
    ensures p in s.procs ==> Step(s, e).procs[p].token == s.procs[p].token
    ensures p in s.procs && s.procs[p].pc.Done? ==> Step(s, e).procs[p] == s.procs[p]
    ensures p !in s.procs ==> e.Start? && e.pid == p && Step(s, e).procs[p].token == e.token
    ensures p !in s.procs ==> Step(s, e).procs[p].pc.Finding? || Step(s, e).procs[p].pc == Done(Denied)
  {
  }

  lemma ActiveStep(s: Server, e: Event)
    requires OneActive(s) && Orderly(s, e)
    ensures OneActive(Step(s, e))
  {
    var t := Step(s, e);
    forall p, q | p in t.procs && q in t.procs && t.procs[p].token == t.procs[q].token
                  && !t.procs[p].pc.Done? && !t.procs[q].pc.Done?
      ensures p == q
    {
      HandlerKeeps(s, e, p);
      HandlerKeeps(s, e, q);
    }
  }

  /** A flip leaves the handlers of other tokens alone, and those of this token are done or the flipper itself. */
  lemma FlipProc(s: Server, e: Event, p: Pid)
    requires OneActive(s) && Orderly(s, e) && (e.Revoke? || e.Logout?)
    requires p in s.procs && ProcOk(s, s.procs[p]) && SameOwner(s)
    ensures ProcOk(Step(s, e), Step(s, e).procs[p])
  {
  }

  lemma QuietProc(s: Server, e: Event, p: Pid)
    requires FreshNext(s) && !e.Revoke? && !e.Logout?
    requires p in s.procs && ProcOk(s, s.procs[p])
    ensures p in Step(s, e).procs && ProcOk(Step(s, e), Step(s, e).procs[p])
  {
  }

  lemma ProcStep(s: Server, e: Event, p: Pid)
    requires OrderlyInv(s) && Orderly(s, e) && p in Step(s, e).procs
    ensures ProcOk(Step(s, e), Step(s, e).procs[p])
  {
    if p in s.procs {
      assert ProcOk(s, s.procs[p]);
      if e.Revoke? || e.Logout? {
        FlipProc(s, e, p);
      } else {
        QuietProc(s, e, p);
      }
    }
  }

  /** A handler becomes redeemed by the revoke of its own token, which it finds live. */
  lemma RedeemedSource(s: Server, e: Event, p: Pid)
    requires OrderlyInv(s) && Orderly(s, e) && p in Step(s, e).procs && Redeemed(Step(s, e).procs[p])
    ensures p in s.procs && Step(s, e).procs[p].token == s.procs[p].token
    ensures Redeemed(s.procs[p]) || (e.Revoke? && e.pid == p && Live(s.rows, s.procs[p].token))
  {
    HandlerKeeps(s, e, p);
    if p in s.procs {
      assert ProcOk(s, s.procs[p]);
    }
  }

  lemma RedeemedStep(s: Server, e: Event)
    requires OrderlyInv(s) && Orderly(s, e)
    ensures RedeemedOnce(Step(s, e))
  {
    var t := Step(s, e);
    forall p, q | p in t.procs && q in t.procs && Redeemed(t.procs[p]) && Redeemed(t.procs[q])
                  && t.procs[p].token == t.procs[q].token
      ensures p == q
    {
      RedeemedSource(s, e, p);
      RedeemedSource(s, e, q);
      assert ProcOk(s, s.procs[p]) && ProcOk(s, s.procs[q]);
    }
  }

  lemma RevokePaired(s: Server, pid: Pid, u: User)
    requires OrderlyInv(s) && At(s, pid, Revoking)
    ensures Paired(Step(s, Revoke(pid, true)), u)
  {
    var t := Step(s, Revoke(pid, true));
    var token := s.procs[pid].token;
    assert ProcOk(s, s.procs[pid]) && Live(s.rows, token) && Paired(s, u);
    assert t.signed == s.signed && t.procs == s.procs[pid := Proc(token, Storing)];
    StorersMore(s, t, pid, u);
  }

  lemma StorersMore(s: Server, t: Server, pid: Pid, u: User)
    requires pid in s.procs && !s.procs[pid].pc.Storing? && s.procs[pid].token in s.signed
    requires t.signed == s.signed && t.procs == s.procs[pid := Proc(s.procs[pid].token, Storing)]
    ensures |StoringOf(t, u)| == |StoringOf(s, u)| + if s.signed[s.procs[pid].token].user == u then 1 else 0
  {
    assert StoringOf(t, u) == StoringOf(s, u) + if s.signed[s.procs[pid].token].user == u then {pid} else {};
  }

  lemma StoreEffect(s: Server, pid: Pid)
    requires At(s, pid, Storing) && s.procs[pid].token in s.signed
    ensures var t, user := Step(s, Store(pid, true)), s.signed[s.procs[pid].token].user;
            && t.procs == s.procs[pid := Proc(s.procs[pid].token, Done(Granted(s.next)))]
            && t.signed == s.signed[s.next := Claims(user, s.clock + s.jwtLife)]
            && t.ledger == s.ledger.(rotatedIn := s.ledger.rotatedIn + multiset{user})
  {
  }

  lemma StorersLess(s: Server, t: Server, pid: Pid, u: User)
    requires FreshNext(s) && At(s, pid, Storing)
    requires forall p | p in s.procs && s.procs[p].pc.Storing? :: s.procs[p].token in s.signed
    requires pid in t.procs && t.procs == s.procs[pid := t.procs[pid]] && t.procs[pid].pc.Done?
    requires s.next in t.signed && t.signed == s.signed[s.next := t.signed[s.next]]
    ensures StoringOf(t, u) == StoringOf(s, u) - {pid}
  {
    forall p | p in s.procs && s.procs[p].pc.Storing?
      ensures s.procs[p].token != s.next
    {
      assert s.procs[p].token in s.signed;
    }
  }

  lemma StorePaired(s: Server, pid: Pid, u: User)
    requires OrderlyInv(s) && At(s, pid, Storing)
    ensures Paired(Step(s, Store(pid, true)), u)
  {
    forall p | p in s.procs && s.procs[p].pc.Storing?
      ensures s.procs[p].token in s.signed
    {
      assert ProcOk(s, s.procs[p]);
    }
    assert Paired(s, u);
    StoreEffect(s, pid);
    StorersLess(s, Step(s, Store(pid, true)), pid, u);
  }

  /** What any other event leaves alone: rotation counts, who is storing, and signed claims. */
  ghost predicate SameRotations(s: Server, t: Server) {
    && t.ledger.rotatedIn == s.ledger.rotatedIn && t.ledger.rotatedOut == s.ledger.rotatedOut
    && (forall p | p in s.procs && s.procs[p].pc.Storing? :: p in t.procs && t.procs[p] == s.procs[p])
    && (forall p | p in t.procs && t.procs[p].pc.Storing? :: p in s.procs && s.procs[p].pc.Storing?)
    && (forall k | k in s.signed :: k in t.signed && t.signed[k] == s.signed[k])
  }

  lemma OtherStep(s: Server, e: Event)
    requires FreshNext(s)
    requires e.Revoke? ==> !At(s, e.pid, Revoking)
    requires e.Store? ==> !At(s, e.pid, Storing)
    ensures SameRotations(s, Step(s, e))
  {
  }

  lemma SameRotationsPaired(s: Server, t: Server, u: User)
    requires OrderlyInv(s) && SameRotations(s, t)
    ensures Paired(t, u)
  {
    assert Paired(s, u);
    forall p | p in t.procs && t.procs[p].pc.Storing?
      ensures p in s.procs && s.procs[p].pc.Storing? && t.procs[p] == s.procs[p] && s.procs[p].token in s.signed
    {
      assert ProcOk(s, s.procs[p]);
    }
    assert StoringOf(t, u) == StoringOf(s, u);
  }

  lemma PairedStep(s: Server, e: Event, u: User)
    requires OrderlyInv(s) && Orderly(s, e)
    ensures Paired(Step(s, e), u)
  {
    if e.Revoke? && At(s, e.pid, Revoking) {
      RevokePaired(s, e.pid, u);
    } else if e.Store? && At(s, e.pid, Storing) {
      StorePaired(s, e.pid, u);
    } else {
      OtherStep(s, e);
      SameRotationsPaired(s, Step(s, e), u);
    }
  }

  lemma OrderlyStep(s: Server, e: Event)
    requires OrderlyInv(s) && Orderly(s, e)
    ensures OrderlyInv(Step(s, e))
  {
    FreshStep(s, e);
    OwnerStep(s, e);
    ActiveStep(s, e);
    forall p | p in Step(s, e).procs
      ensures ProcOk(Step(s, e), Step(s, e).procs[p])
    {
      ProcStep(s, e, p);
    }
    RedeemedStep(s, e);
    forall u
      ensures Paired(Step(s, e), u)
    {
      PairedStep(s, e, u);
    }
  }

  lemma {:induction false} OrderlyRunInv(s: Server, es: seq<Event>)
    requires OrderlyInv(s) && OrderlyRun(s, es)
    ensures OrderlyInv(Run(s, es))
  {
    if es != [] {
      OrderlyRunInv(s, es[..|es| - 1]);
      OrderlyStep(Run(s, es[..|es| - 1]), es[|es| - 1]);
    }
  }

  lemma InitInv(jwtLife: nat, rowLife: nat, clock: int)
    ensures OrderlyInv(Init(jwtLife, rowLife, clock)) && Balanced(Init(jwtLife, rowLife, clock))
  {
    var s := Init(jwtLife, rowLife, clock);
    forall u
      ensures LiveOf(s, u) == {} && StoringOf(s, u) == {}
    {
    }
  }

  /**
   When no two requests about one token overlap and writes succeed, no token is redeemed twice, and a
   user without a rotation between its two writes has as many live tokens as sessions opened minus live
   tokens logged out. Requests about different tokens, of one user or of several, overlap at will.
   */
  lemma OrderlyRotation(jwtLife: nat, rowLife: nat, clock: int, es: seq<Event>)
    requires OrderlyRun(Init(jwtLife, rowLife, clock), es)
    ensures var t := Run(Init(jwtLife, rowLife, clock), es);
            && (forall p, q | p in t.procs && q in t.procs && Redeemed(t.procs[p]) && Redeemed(t.procs[q])
                              && t.procs[p].token == t.procs[q].token :: p == q)
            && (forall u | StoringOf(t, u) == {} ::
                  |LiveOf(t, u)| + t.ledger.loggedOut[u] == t.ledger.openings[u])
  {
    InitInv(jwtLife, rowLife, clock);
    OrderlyRunInv(Init(jwtLife, rowLife, clock), es);
    Conservation(Init(jwtLife, rowLife, clock), es);
    var t := Run(Init(jwtLife, rowLife, clock), es);
    forall u | StoringOf(t, u) == {}
      ensures |LiveOf(t, u)| + t.ledger.loggedOut[u] == t.ledger.openings[u]
    {
      assert BalancedFor(t, u) && Paired(t, u);
    }
  }
}
