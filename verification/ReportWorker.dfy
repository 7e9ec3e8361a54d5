/**
 The e-mail step of one job in its own form: the claim and its release change the key, and an attempt
 runs claim, send, release in order. An undisturbed attempt is a run of the protocol's steps.
 */
module ReportWorker {
  import opened ReportEmail

  /** How the mail transport behaves. */
  datatype Transport = Delivers | DeliversThenThrows | Throws

  datatype Ending = Sent | Skipped | Failed

  class Worker {
    var clock: int
    var claim: Claim
    var attempts: map<Attempt, Pc>
    var mails: seq<Mail>

    ghost function View(): State
      reads this
    {
      State(clock, claim, attempts, mails)
    }

    constructor (clock: int)
      ensures View() == Start(clock)
    {
      this.clock, claim, attempts, mails := clock, NoClaim, map[], [];
    }

    /** `SET … EX 86400 NX`. */
    method ClaimSend(a: Attempt) returns (won: bool)
      modifies this`claim, this`attempts
      ensures won <==> !Held(old(View()))
      ensures won ==> claim == Claim(a, clock) && attempts == old(attempts)[a := Sending(clock, false)]
      ensures !won ==> claim == old(claim) && attempts == old(attempts)[a := Finished]
      ensures View() == ClaimEmailSend(old(View()), a)
    {
      won := claim.NoClaim? || clock >= claim.at + CLAIM_SECONDS;
      if won {
        claim := Claim(a, clock);
        attempts := attempts[a := Sending(clock, false)];
      } else {
        attempts := attempts[a := Finished];
      }
    }

    /** `DEL`: afterwards nobody holds the claim, whoever took it, unless Redis did not answer. */
    method ReleaseClaim(a: Attempt, redisOk: bool)
      modifies this`claim, this`attempts
      ensures Held(View()) <==> Held(old(View())) && !redisOk
      ensures claim == if redisOk then NoClaim else old(claim)
      ensures attempts == old(attempts)[a := Finished]
    {
      if redisOk {
        claim := NoClaim;
      }
      attempts := attempts[a := Finished];
    }

    /** The e-mail part of `processReportJob`; a failed send is rethrown after the release. */
    method Notify(a: Attempt, transport: Transport, redisOk: bool) returns (r: Ending)
      requires a !in attempts
      modifies this`claim, this`attempts, this`mails
      ensures View() == Run(old(View()), Script(a, Held(old(View())), transport, redisOk))
      ensures r == Skipped <==> Held(old(View()))
      ensures r == Sent <==> !Held(old(View())) && transport == Delivers
      ensures r == Sent ==> claim == Claim(a, clock) && mails == old(mails) + [Mail(a, clock, clock)]
      ensures r == Failed && redisOk ==> !Held(View())
      ensures r == Failed ==> mails == old(mails) + if transport == Throws then [] else [Mail(a, clock, clock)]
    {
      ghost var s := View();
      Outcomes(s, a, transport, redisOk);
      Overwritten(attempts, a, Sending(clock, false), Finished);
      var won := ClaimSend(a);
      if !won {
        return Skipped;
      }
      if transport != Throws {
        mails := mails + [Mail(a, clock, clock)];
      }
      if transport == Delivers {
        attempts := attempts[a := Finished];
        return Sent;
      }
      ReleaseClaim(a, redisOk);
      return Failed;
    }
  }

  /** The steps of one attempt with nothing in between. */
  function Script(a: Attempt, held: bool, transport: Transport, redisOk: bool): seq<Event> {
    [Begin(a), TryClaim(a)]
    + if held then []
      else
        match transport
        case Delivers => [DeliverMail(a), SendReturns(a)]
        case DeliversThenThrows => [DeliverMail(a), SendThrows(a), Release(a, redisOk)]
        case Throws => [SendThrows(a), Release(a, redisOk)]
  }

  /** The state once an attempt has tried to claim. */
  function Tried(s: State, a: Attempt): State {
    ClaimEmailSend(Move(s, a, Claiming), a)
  }

  lemma TriedRuns(s: State, a: Attempt)
    requires a !in s.attempts
    ensures Run(s, [Begin(a), TryClaim(a)]) == Tried(s, a)
  {
    RunAppend(s, [], Begin(a));
    RunAppend(s, [Begin(a)], TryClaim(a));
    assert [] + [Begin(a)] == [Begin(a)] && [Begin(a)] + [TryClaim(a)] == [Begin(a), TryClaim(a)];
  }

  lemma SkippedRuns(s: State, a: Attempt, transport: Transport, redisOk: bool)
    requires a !in s.attempts && Held(s)
    ensures Run(s, Script(a, true, transport, redisOk)) == s.(attempts := s.attempts[a := Finished])
  {
    TriedRuns(s, a);
    assert Script(a, true, transport, redisOk) == [Begin(a), TryClaim(a)];
  }

  lemma SentRuns(s: State, a: Attempt, redisOk: bool)
    requires a !in s.attempts && !Held(s)
    ensures Run(s, Script(a, false, Delivers, redisOk))
         == State(s.clock, Claim(a, s.clock), s.attempts[a := Finished], s.mails + [Mail(a, s.clock, s.clock)])
  {
    var es := [Begin(a), TryClaim(a)];
    TriedRuns(s, a);
    RunAppend(s, es, DeliverMail(a));
    RunAppend(s, es + [DeliverMail(a)], SendReturns(a));
    assert Script(a, false, Delivers, redisOk) == es + [DeliverMail(a)] + [SendReturns(a)];
  }

  /** A throwing send, the mail delivered or not, and the release after it. */
  lemma ThrownRuns(s: State, es: seq<Event>, a: Attempt, redisOk: bool)
    requires IsSending(Run(s, es), a)
    ensures Run(s, es + [SendThrows(a)] + [Release(a, redisOk)])
         == (var t := Run(s, es);
             t.(attempts := t.attempts[a := Finished], claim := if redisOk then NoClaim else t.claim))
  {
    RunAppend(s, es, SendThrows(a));
    RunAppend(s, es + [SendThrows(a)], Release(a, redisOk));
  }

  lemma FailedRuns(s: State, a: Attempt, transport: Transport, redisOk: bool)
    requires a !in s.attempts && !Held(s) && transport != Delivers
    ensures Run(s, Script(a, false, transport, redisOk))
         == State(s.clock, if redisOk then NoClaim else Claim(a, s.clock), s.attempts[a := Finished],
                  if transport == Throws then s.mails else s.mails + [Mail(a, s.clock, s.clock)])
  {
    var es := [Begin(a), TryClaim(a)];
    TriedRuns(s, a);
    if transport == Throws {
      ThrownRuns(s, es, a, redisOk);
      assert Script(a, false, transport, redisOk) == es + [SendThrows(a)] + [Release(a, redisOk)];
    } else {
      RunAppend(s, es, DeliverMail(a));
      ThrownRuns(s, es + [DeliverMail(a)], a, redisOk);
      assert Script(a, false, transport, redisOk)
          == es + [DeliverMail(a)] + [SendThrows(a)] + [Release(a, redisOk)];
    }
  }

  lemma Outcomes(s: State, a: Attempt, transport: Transport, redisOk: bool)
    requires a !in s.attempts
    ensures Run(s, Script(a, Held(s), transport, redisOk)) == Outcome(s, a, transport, redisOk)
  {
    if Held(s) {
      SkippedRuns(s, a, transport, redisOk);
    } else if transport == Delivers {
      SentRuns(s, a, redisOk);
    } else {
      FailedRuns(s, a, transport, redisOk);
    }
  }

  /** What an undisturbed attempt leaves behind. */
  function Outcome(s: State, a: Attempt, transport: Transport, redisOk: bool): State {
    if Held(s) then s.(attempts := s.attempts[a := Finished])
    else
      State(s.clock, if transport != Delivers && redisOk then NoClaim else Claim(a, s.clock),
            s.attempts[a := Finished],
            if transport == Throws then s.mails else s.mails + [Mail(a, s.clock, s.clock)])
  }

  /**
   A second delivery of the job `d` seconds after the first: it mails again exactly when the day is over
   or the first send threw and its claim could be deleted. A first send that failed without delivering is
   thus made up for; one that delivered and then threw mails twice.
   */
  lemma SecondAttempt(s: State, a: Attempt, first: Transport, redisOk: bool, d: nat, b: Attempt)
    requires a !in s.attempts && b !in s.attempts && a != b && !Held(s)
    ensures var t := Run(s, Script(a, false, first, redisOk));
            var u := Step(t, Tick(d));
            var again := d >= 86400 || (first != Delivers && redisOk);
            && t.mails == s.mails + (if first == Throws then [] else [Mail(a, s.clock, s.clock)])
            && Run(u, Script(b, Held(u), Delivers, true)).mails
               == t.mails + (if again then [Mail(b, s.clock + d, s.clock + d)] else [])
  {
    Outcomes(s, a, first, redisOk);
    Outcomes(Step(Run(s, Script(a, false, first, redisOk)), Tick(d)), b, Delivers, true);
  }
}
