/**
 The at-most-once report e-mail of one job: any number of attempts (workers, retries, deliveries of
 the same job) run the same steps and may crash at any point. The claim is a Redis key set with NX
 and an expiry of one day; deleting it removes whatever claim is there.
 */
module ReportEmail {
  type Attempt = nat

  const CLAIM_SECONDS: nat := 86400

  /** The key carries no owner in the source; `owner` records who set it. */
  datatype Claim = NoClaim | Claim(owner: Attempt, at: int)

  datatype Pc =
    | Claiming
    | Sending(claimedAt: int, delivered: bool)
    | Releasing(claimedAt: int)
    | Finished
    | Crashed

  /** One mail that reached the recipient. */
  datatype Mail = Mail(owner: Attempt, claimedAt: int, at: int)

  datatype State = State(clock: int, claim: Claim, attempts: map<Attempt, Pc>, mails: seq<Mail>)

  datatype Event =
    | Tick(d: nat)
    | Begin(a: Attempt)
    | TryClaim(a: Attempt)
    | DeliverMail(a: Attempt)
    | SendReturns(a: Attempt)
    | SendThrows(a: Attempt)
    | Release(a: Attempt, redisOk: bool)
    | Crash(a: Attempt)

  function Start(clock: int): State {
    State(clock, NoClaim, map[], [])
  }

  /** The key exists until it is deleted or expires. */
  predicate Held(s: State) {
    s.claim.Claim? && s.clock < s.claim.at + CLAIM_SECONDS
  }

  function Move(s: State, a: Attempt, pc: Pc): State {
    s.(attempts := s.attempts[a := pc])
  }

  predicate IsSending(s: State, a: Attempt) {
    a in s.attempts && s.attempts[a].Sending?
  }

  /** `SET key '1' EX 86400 NX`. */
  function ClaimEmailSend(s: State, a: Attempt): State {
    if Held(s) then Move(s, a, Finished)
    else Move(s, a, Sending(s.clock, false)).(claim := Claim(a, s.clock))
  }

  function Step(s: State, e: Event): State {
    match e
    case Tick(d) => s.(clock := s.clock + d)
    case Begin(a) => if a in s.attempts then s else Move(s, a, Claiming)
    case TryClaim(a) => if a in s.attempts && s.attempts[a].Claiming? then ClaimEmailSend(s, a) else s
    case DeliverMail(a) =>
      if IsSending(s, a) && !s.attempts[a].delivered then
        var at := s.attempts[a].claimedAt;
        Move(s, a, Sending(at, true)).(mails := s.mails + [Mail(a, at, s.clock)])
      else s
    case SendReturns(a) => if IsSending(s, a) && s.attempts[a].delivered then Move(s, a, Finished) else s
    case SendThrows(a) =>
      if IsSending(s, a) then Move(s, a, Releasing(s.attempts[a].claimedAt)) else s
    case Release(a, redisOk) =>
      if a in s.attempts && s.attempts[a].Releasing? then
        (if redisOk then Move(s, a, Finished).(claim := NoClaim) else Move(s, a, Finished))
      else s
    case Crash(a) =>
      if a in s.attempts && !s.attempts[a].Finished? then Move(s, a, Crashed) else s
  }

  function Run(s: State, es: seq<Event>): State {
    if es == [] then s else Step(Run(s, es[..|es| - 1]), es[|es| - 1])
  }

  /**
   The assumptions: a send that throws delivered nothing, a mail goes out before the attempt's own
   claim expires, and a failed send is not cleaned up after that while a claim is held.
   */
  predicate Timely(s: State, e: Event) {
    match e
    case SendThrows(a) => IsSending(s, a) ==> !s.attempts[a].delivered
    case DeliverMail(a) => IsSending(s, a) ==> s.clock < s.attempts[a].claimedAt + CLAIM_SECONDS
    case Release(a, redisOk) =>
      a in s.attempts && s.attempts[a].Releasing? && redisOk && Held(s) ==>
        s.clock < s.attempts[a].claimedAt + CLAIM_SECONDS
    case _ => true
  }

  predicate TimelyRun(s: State, es: seq<Event>) {
    es == [] || (TimelyRun(s, es[..|es| - 1]) && Timely(Run(s, es[..|es| - 1]), es[|es| - 1]))
  }

  // ----- Invariant -----

  /** The claim taken at `at` by `a` has not been deleted or replaced while it lasts. */
  predicate StillHeld(s: State, a: Attempt, at: int) {
    s.clock < at + CLAIM_SECONDS ==> s.claim == Claim(a, at)
  }

  ghost predicate AttemptOk(s: State, a: Attempt) {
    a in s.attempts ==>
      match s.attempts[a]
      case Sending(at, delivered) =>
        at <= s.clock && StillHeld(s, a, at) && (!delivered ==> forall i | 0 <= i < |s.mails| :: s.mails[i].owner != a)
      case Releasing(at) =>
        at <= s.clock && StillHeld(s, a, at) && forall i | 0 <= i < |s.mails| :: s.mails[i].owner != a
      case Claiming => forall i | 0 <= i < |s.mails| :: s.mails[i].owner != a
      case _ => true
  }

  ghost predicate MailOk(s: State, m: Mail) {
    && m.claimedAt <= m.at <= s.clock && StillHeld(s, m.owner, m.claimedAt) && m.owner in s.attempts
  }

  ghost predicate Spaced(mails: seq<Mail>) {
    forall i, j | 0 <= i < j < |mails| :: mails[i].claimedAt + CLAIM_SECONDS <= mails[j].claimedAt
  }

  /** While a claim lasts, every mail of another attempt comes from a claim that expired before it. */
  ghost predicate HolderIsNewest(s: State) {
    Held(s) ==>
      forall i | 0 <= i < |s.mails| && s.mails[i].owner != s.claim.owner ::
        s.mails[i].claimedAt + CLAIM_SECONDS <= s.claim.at
  }

  ghost predicate Guarded(s: State) {
    && (forall a | a in s.attempts :: AttemptOk(s, a))
    && (forall i | 0 <= i < |s.mails| :: MailOk(s, s.mails[i]))
    && Spaced(s.mails) && HolderIsNewest(s)
    && (s.claim.Claim? ==> s.claim.at <= s.clock) && OwnerMatches(s) && OwnerKnown(s)
  }

  /** A mail went out under the claim in place. */
  ghost predicate MailedUnderClaim(s: State) {
    s.claim.Claim? &&
      exists i :: 0 <= i < |s.mails| && s.mails[i].owner == s.claim.owner && s.mails[i].claimedAt == s.claim.at
  }

  /** The claim in place is the one its owner took, and mailed under if it has delivered. */
  ghost predicate OwnerMatches(s: State) {
    s.claim.Claim? && s.claim.owner in s.attempts ==>
      match s.attempts[s.claim.owner]
      case Claiming => false
      case Sending(at, delivered) => at == s.claim.at && (delivered ==> MailedUnderClaim(s))
      case Releasing(at) => at == s.claim.at
      case _ => true
  }

  ghost predicate OwnerKnown(s: State) {
    s.claim.Claim? ==> s.claim.owner in s.attempts
  }

  lemma OwnerStep(s: State, e: Event)
    requires OwnerMatches(s) && OwnerKnown(s)
    ensures OwnerMatches(Step(s, e)) && OwnerKnown(Step(s, e))
  {
    var t := Step(s, e);
    if t.claim == s.claim && MailedUnderClaim(s) {
      MailStays(s, t);
    }
    if e.DeliverMail? && t != s && s.claim.Claim? && s.claim.owner == e.a {
      assert t.mails[|s.mails|].owner == e.a;
    }
  }

  lemma MailStays(s: State, t: State)
    requires MailedUnderClaim(s) && t.claim == s.claim && s.mails <= t.mails
    ensures MailedUnderClaim(t)
  {
    var i :| 0 <= i < |s.mails| && s.mails[i].owner == s.claim.owner && s.mails[i].claimedAt == s.claim.at;
    assert t.mails[i] == s.mails[i];
  }

  lemma AttemptsStep(s: State, e: Event)
    requires Guarded(s) && Timely(s, e)
    ensures forall a | a in Step(s, e).attempts :: AttemptOk(Step(s, e), a)
  {
    var t := Step(s, e);
    forall a | a in t.attempts
      ensures AttemptOk(t, a)
    {
      assert AttemptOk(s, a);
      forall i | 0 <= i < |s.mails|
        ensures s.mails[i].owner in s.attempts
      {
        assert MailOk(s, s.mails[i]);
      }
    }
  }

  lemma MailsStep(s: State, e: Event)
    requires Guarded(s) && Timely(s, e)
    ensures forall i | 0 <= i < |Step(s, e).mails| :: MailOk(Step(s, e), Step(s, e).mails[i])
  {
    var t := Step(s, e);
    forall i | 0 <= i < |t.mails|
      ensures MailOk(t, t.mails[i])
    {
      if i < |s.mails| {
        assert MailOk(s, s.mails[i]) && t.mails[i] == s.mails[i];
        if e.Release? {
          assert AttemptOk(s, e.a);
        }
      } else {
        assert AttemptOk(s, e.a);
      }
    }
  }

  lemma SpacedStep(s: State, e: Event)
    requires Guarded(s) && Timely(s, e)
    ensures Spaced(Step(s, e).mails)
  {
    if |Step(s, e).mails| > |s.mails| {
      assert AttemptOk(s, e.a) && Held(s);
    }
  }

  lemma NewestStep(s: State, e: Event)
    requires Guarded(s) && Timely(s, e)
    ensures HolderIsNewest(Step(s, e))
  {
    var t := Step(s, e);
    forall i | 0 <= i < |s.mails|
      ensures MailOk(s, s.mails[i])
    {
    }
    if e.DeliverMail? && IsSending(s, e.a) {
      assert AttemptOk(s, e.a);
    }
  }

  lemma GuardedStep(s: State, e: Event)
    requires Guarded(s) && Timely(s, e)
    ensures Guarded(Step(s, e))
  {
    AttemptsStep(s, e);
    MailsStep(s, e);
    SpacedStep(s, e);
    NewestStep(s, e);
    OwnerStep(s, e);
  }

  lemma {:induction false} GuardedFrom(s: State, es: seq<Event>)
    requires Guarded(s) && TimelyRun(s, es)
    ensures Guarded(Run(s, es))
  {
    if es != [] {
      GuardedFrom(s, es[..|es| - 1]);
      GuardedStep(Run(s, es[..|es| - 1]), es[|es| - 1]);
    }
  }

  lemma GuardedRun(clock: int, es: seq<Event>)
    requires TimelyRun(Start(clock), es)
    ensures Guarded(Run(Start(clock), es))
  {
    GuardedFrom(Start(clock), es);
  }

  // ----- Main results -----

  /** Any two mails of one job come from claims at least a day apart. */
  lemma MailsADayApart(clock: int, es: seq<Event>, i: nat, j: nat)
    requires TimelyRun(Start(clock), es) && i < j < |Run(Start(clock), es).mails|
    ensures Run(Start(clock), es).mails[i].claimedAt + 86400 <= Run(Start(clock), es).mails[j].claimedAt
  {
    GuardedRun(clock, es);
  }

  /**
   Exactly when a clean-up goes wrong: a release deletes a live claim of another attempt if and only
   if it comes after the releasing attempt's own claim has expired, while a claim is held.
   */
  lemma ReleaseHarmsExactly(clock: int, es: seq<Event>, a: Attempt, redisOk: bool)
    requires TimelyRun(Start(clock), es)
    ensures var s := Run(Start(clock), es);
            Timely(s, Release(a, redisOk))
            <==> !(Held(s) && s.claim.owner != a && Step(s, Release(a, redisOk)).claim.NoClaim?)
  {
    GuardedRun(clock, es);
    var s := Run(Start(clock), es);
    if a in s.attempts {
      assert AttemptOk(s, a);
    }
  }

  /** Only the attempt that holds the claim ever deletes it. */
  lemma OnlyHolderDeletes(clock: int, es: seq<Event>, e: Event)
    requires TimelyRun(Start(clock), es + [e])
    requires var s := Run(Start(clock), es); Held(s) && Step(s, e).claim.NoClaim?
    ensures e.Release? && Run(Start(clock), es).claim.owner == e.a
  {
    assert (es + [e])[..|es|] == es;
    GuardedRun(clock, es);
    assert AttemptOk(Run(Start(clock), es), e.a);
  }

  // ----- Crashes -----

  lemma CrashedStep(s: State, e: Event, a: Attempt)
    requires a in s.attempts && s.attempts[a].Crashed?
    ensures a in Step(s, e).attempts && Step(s, e).attempts[a].Crashed?
    ensures s.mails <= Step(s, e).mails
    ensures forall i | |s.mails| <= i < |Step(s, e).mails| :: Step(s, e).mails[i].owner != a
  {
  }

  /**
   An attempt that crashes before it is finished leaves the claim in place and never mails, releases or
   ends afterwards, whatever happens; what it mailed before stays.
   */
  lemma {:induction false} CrashedForGood(s: State, a: Attempt, es: seq<Event>)
    requires a in s.attempts && !s.attempts[a].Finished?
    ensures Step(s, Crash(a)).claim == s.claim && Step(s, Crash(a)).mails == s.mails
    ensures var t := Run(Step(s, Crash(a)), es);
            && a in t.attempts && t.attempts[a] == Crashed && s.mails <= t.mails
            && (forall i | |s.mails| <= i < |t.mails| :: t.mails[i].owner != a)
  {
    if es != [] {
      CrashedForGood(s, a, es[..|es| - 1]);
      CrashedStep(Run(Step(s, Crash(a)), es[..|es| - 1]), es[|es| - 1], a);
    }
  }

  // ----- Exactly when a late clean-up lets two mails out -----

  /** The claim's owner has mailed under it, or may still mail or clean up. */
  ghost predicate OwnerMatters(s: State) {
    s.claim.Claim? && s.claim.owner in s.attempts &&
      (s.attempts[s.claim.owner].Sending? || s.attempts[s.claim.owner].Releasing? || MailedUnderClaim(s))
  }

  lemma RunAppend(s: State, es: seq<Event>, e: Event)
    ensures Run(s, es + [e]) == Step(Run(s, es), e)
    ensures TimelyRun(s, es + [e]) <==> TimelyRun(s, es) && Timely(Run(s, es), e)
  {
    assert (es + [e])[..|es|] == es;
  }

  /** Deleting the claim of an owner that is gone and has not mailed does no harm. */
  lemma HarmlessRelease(s: State, a: Attempt)
    requires Guarded(s) && !OwnerMatters(s) && !Timely(s, Release(a, true))
    ensures Guarded(Step(s, Release(a, true)))
  {
    var t := Step(s, Release(a, true));
    forall b | b in t.attempts
      ensures AttemptOk(t, b)
    {
      assert AttemptOk(s, b);
    }
    forall i | 0 <= i < |t.mails|
      ensures MailOk(t, t.mails[i])
    {
      assert MailOk(s, s.mails[i]);
    }
  }

  /** An attempt number that is not in use. */
  lemma UnusedAttempt(used: set<Attempt>) returns (c: Attempt)
    ensures c !in used
  {
    var left, bound: nat := used, 0;
    while left != {}
      invariant forall x | x in used :: x in left || x < bound
      decreases |left|
    {
      var x :| x in left;
      left, bound := left - {x}, if x < bound then bound else x + 1;
    }
    c := bound;
  }

  /** Begin, claim and mail, one after the other. */
  function Fresh(c: Attempt): seq<Event> {
    [Begin(c), TryClaim(c), DeliverMail(c)]
  }

  lemma Overwritten(attempts: map<Attempt, Pc>, a: Attempt, first: Pc, second: Pc)
    ensures attempts[a := first][a := second] == attempts[a := second]
  {
  }

  lemma FreshClaims(t: State, c: Attempt)
    requires t.claim.NoClaim? && c !in t.attempts
    ensures Step(Step(t, Begin(c)), TryClaim(c))
         == t.(claim := Claim(c, t.clock), attempts := t.attempts[c := Sending(t.clock, false)])
  {
    Overwritten(t.attempts, c, Claiming, Sending(t.clock, false));
  }

  lemma FreshDelivers(t: State, u: State, c: Attempt)
    requires u.clock == t.clock && u.attempts == t.attempts[c := Sending(t.clock, false)]
    ensures Timely(u, DeliverMail(c))
    ensures Step(u, DeliverMail(c))
         == u.(attempts := t.attempts[c := Sending(t.clock, true)], mails := u.mails + [Mail(c, t.clock, t.clock)])
  {
    Overwritten(t.attempts, c, Sending(t.clock, false), Sending(t.clock, true));
  }

  /** While no claim is held, a fresh attempt mails at once. */
  lemma FreshMails(s: State, es: seq<Event>, c: Attempt)
    requires var t := Run(s, es); TimelyRun(s, es) && t.claim.NoClaim? && c !in t.attempts
    ensures var t, u := Run(s, es), Run(s, es + Fresh(c));
            && TimelyRun(s, es + Fresh(c))
            && u == t.(claim := Claim(c, t.clock), attempts := t.attempts[c := Sending(t.clock, true)],
                       mails := t.mails + [Mail(c, t.clock, t.clock)])
  {
    var t := Run(s, es);
    var claimed := es + [Begin(c)] + [TryClaim(c)];
    assert es + Fresh(c) == claimed + [DeliverMail(c)];
    RunAppend(s, es, Begin(c));
    RunAppend(s, es + [Begin(c)], TryClaim(c));
    FreshClaims(t, c);
    RunAppend(s, claimed, DeliverMail(c));
    FreshDelivers(t, Run(s, claimed), c);
  }

  /** A continuation that lets two mails out less than a day apart. */
  ghost predicate MailsTwice(s: State, more: seq<Event>) {
    TimelyRun(s, more) && !Spaced(Run(s, more).mails)
  }

  lemma MailedTwice(s: State, a: Attempt, c: Attempt)
    requires Guarded(s) && MailedUnderClaim(s) && !Timely(s, Release(a, true)) && c !in s.attempts
    ensures MailsTwice(Step(s, Release(a, true)), [] + Fresh(c))
  {
    var t := Step(s, Release(a, true));
    var i :| 0 <= i < |s.mails| && s.mails[i].owner == s.claim.owner && s.mails[i].claimedAt == s.claim.at;
    FreshMails(t, [], c);
    var mails := Run(t, [] + Fresh(c)).mails;
    assert mails[i] == s.mails[i] && mails[|s.mails|].claimedAt == s.clock;
  }

  lemma SendingTwice(s: State, a: Attempt, c: Attempt)
    requires Guarded(s) && !MailedUnderClaim(s) && !Timely(s, Release(a, true)) && c !in s.attempts
    requires s.claim.owner in s.attempts && s.attempts[s.claim.owner].Sending?
    ensures MailsTwice(Step(s, Release(a, true)), [] + Fresh(c) + [DeliverMail(s.claim.owner)])
  {
    var t, o := Step(s, Release(a, true)), s.claim.owner;
    var n := |s.mails|;
    assert AttemptOk(s, o) && !s.attempts[o].delivered;
    FreshMails(t, [], c);
    RunAppend(t, [] + Fresh(c), DeliverMail(o));
    var mails := Run(t, [] + Fresh(c) + [DeliverMail(o)]).mails;
    assert mails[n].claimedAt == s.clock && mails[n + 1].claimedAt == s.claim.at;
  }

  lemma ReleasingTwice(s: State, a: Attempt, c: Attempt, d: Attempt)
    requires Guarded(s) && !Timely(s, Release(a, true)) && c !in s.attempts && d !in s.attempts && c != d
    requires s.claim.owner in s.attempts && s.attempts[s.claim.owner].Releasing?
    ensures MailsTwice(Step(s, Release(a, true)), [] + Fresh(c) + [Release(s.claim.owner, true)] + Fresh(d))
  {
    var t, o := Step(s, Release(a, true)), s.claim.owner;
    var n := |s.mails|;
    FreshMails(t, [], c);
    RunAppend(t, [] + Fresh(c), Release(o, true));
    FreshMails(t, [] + Fresh(c) + [Release(o, true)], d);
    var mails := Run(t, [] + Fresh(c) + [Release(o, true)] + Fresh(d)).mails;
    assert mails[n].claimedAt == s.clock && mails[n + 1].claimedAt == s.clock;
  }

  /**
   After any timely run, a late release lets two mails out less than a day apart, in some timely
   continuation, if and only if the owner of the deleted claim has mailed under it, is still sending, or
   is itself about to release. If the owner is gone without a mail, the guarantee survives.
   */
  lemma LateReleaseExactly(clock: int, es: seq<Event>, a: Attempt)
    requires TimelyRun(Start(clock), es) && !Timely(Run(Start(clock), es), Release(a, true))
    ensures var s := Run(Start(clock), es);
            (exists more :: MailsTwice(Step(s, Release(a, true)), more)) <==> OwnerMatters(s)
  {
    var s := Run(Start(clock), es);
    var t := Step(s, Release(a, true));
    GuardedRun(clock, es);
    if !OwnerMatters(s) {
      HarmlessRelease(s, a);
      forall more | TimelyRun(t, more)
        ensures Spaced(Run(t, more).mails)
      {
        GuardedFrom(t, more);
      }
    } else {
      var c := UnusedAttempt(s.attempts.Keys);
      var d := UnusedAttempt(s.attempts.Keys + {c});
      if MailedUnderClaim(s) {
        MailedTwice(s, a, c);
      } else if s.attempts[s.claim.owner].Sending? {
        SendingTwice(s, a, c);
      } else {
        ReleasingTwice(s, a, c, d);
      }
    }
  }

  // ----- It happens -----

  /** Attempt 1 failed in time but has not deleted its claim; attempt 2 has claimed and mailed since. */
  function LateCleanUp(): State {
    State(CLAIM_SECONDS, Claim(2, CLAIM_SECONDS),
          map[1 := Releasing(0), 2 := Finished, 3 := Claiming], [Mail(2, CLAIM_SECONDS, CLAIM_SECONDS)])
  }

  lemma RunThree(s: State, es: seq<Event>, a: Event, b: Event, c: Event)
    ensures Run(s, es + [a] + [b] + [c]) == Step(Step(Step(Run(s, es), a), b), c)
  {
    RunAppend(s, es, a);
    RunAppend(s, es + [a], b);
    RunAppend(s, es + [a] + [b], c);
  }

  const BEGINS: seq<Event> := [] + [Begin(1)] + [Begin(2)] + [Begin(3)]
  const FAILS: seq<Event> := BEGINS + [TryClaim(1)] + [SendThrows(1)] + [Tick(CLAIM_SECONDS)]
  const MAILS: seq<Event> := FAILS + [TryClaim(2)] + [DeliverMail(2)] + [SendReturns(2)]

  lemma LateCleanUpReached()
    ensures Run(Start(0), MAILS) == LateCleanUp()
  {
    RunThree(Start(0), [], Begin(1), Begin(2), Begin(3));
    RunThree(Start(0), BEGINS, TryClaim(1), SendThrows(1), Tick(CLAIM_SECONDS));
    RunThree(Start(0), FAILS, TryClaim(2), DeliverMail(2), SendReturns(2));
  }

  /**
   It is not enough that every send settles before its claim expires: when the deletion that follows
   a failed send comes late, it removes another attempt's claim and two mails go out at one moment.
   */
  lemma LateReleaseMailsTwice()
    ensures Run(Start(0), MAILS) == LateCleanUp()
    ensures Run(LateCleanUp(), [] + [Release(1, true)] + [TryClaim(3)] + [DeliverMail(3)]).mails
         == [Mail(2, CLAIM_SECONDS, CLAIM_SECONDS), Mail(3, CLAIM_SECONDS, CLAIM_SECONDS)]
    ensures !Timely(LateCleanUp(), Release(1, true))
  {
    LateCleanUpReached();
    RunThree(LateCleanUp(), [], Release(1, true), TryClaim(3), DeliverMail(3));
  }
}
