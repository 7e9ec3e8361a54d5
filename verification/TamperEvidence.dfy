/**
 What an accepted log says about the records that were signed. HMAC collisions are either exhibited or
 assumed absent among the finitely many messages in play.
 */
module TamperEvidence {
  import opened JsText
  import opened JsValues
  import opened CanonicalJson
  import opened JsonParser
  import opened AuditRecords
  import opened ChainVerifier
  import opened ChainLaws
  import opened HonestChain

  /** The same signed content, up to key order, and the same hash. */
  ghost predicate SameSigned(a: Value, b: Value) {
    Meaning(Rest(a)) == Meaning(Rest(b)) && HashOf(a) == HashOf(b)
  }

  ghost predicate Collide(m: Text, n: Text, hmac: Hmac, key: Text) {
    m != n && hmac(key, m) == hmac(key, n)
  }

  ghost predicate WellFormedRecord(r: Value) {
    r.Obj? && WellFormed(r)
  }

  // ----- A signed message determines the signed record -----

  lemma {:induction false} ValuesOfWithout(ms: Members, ks: set<Text>)
    ensures forall i | 0 <= i < |Without(ms, ks)| :: Without(ms, ks)[i] in ms
  {
    if ms != [] {
      ValuesOfWithout(ms[1..], ks);
    }
  }

  lemma RestFacts(r: Value)
    requires WellFormedRecord(r)
    ensures WellFormed(Rest(r)) && Rest(r).Obj?
    ensures forall k | k !in UNSIGNED :: Field(Rest(r), k) == Field(r, k)
  {
    WithoutWellFormed(r.members, UNSIGNED);
    ValuesOfWithout(r.members, UNSIGNED);
    forall k | k !in UNSIGNED
      ensures Field(Rest(r), k) == Field(r, k)
    {
      WithoutFacts(r.members, UNSIGNED, k);
    }
  }

  lemma ChainKeysSigned()
    ensures CHAIN_ID !in UNSIGNED && SEQ !in UNSIGNED && PREV_HASH !in UNSIGNED
  {
    Names();
  }

  lemma PrefixCancel(p: Text, x: Text, q: Text, y: Text)
    requires |p| == |q| && p + x == q + y
    ensures p == q && x == y
  {
    assert (p + x)[..|p|] == p && (q + y)[..|q|] == q;
    assert (p + x)[|p|..] == x && (q + y)[|q|..] == y;
  }

  /** A field that is a string or a number is determined by the meaning of the signed part. */
  lemma SameField(a: Value, b: Value, k: Text)
    requires WellFormedRecord(a) && WellFormedRecord(b) && k !in UNSIGNED
    requires Meaning(Rest(a)) == Meaning(Rest(b)) && (Field(a, k).Str? || Field(a, k).Num?)
    ensures Field(b, k) == Field(a, k)
  {
    RestFacts(a);
    RestFacts(b);
    var ma, mb := Rest(a).members, Rest(b).members;
    MembersMeaningAt(ma, k);
    MembersMeaningAt(mb, k);
    if !HasKey(ma, k) {
      GetAbsent(ma, k);
    }
  }

  lemma SignedDetermines(a: Value, b: Value)
    requires WellFormedRecord(a) && WellFormedRecord(b) && PrevOf(a).Str?
    ensures Meaning(Rest(a)) == Meaning(Rest(b)) ==> Signed(a) == Signed(b)
    ensures PrevOf(b).Str? && |PrevOf(a).s| == |PrevOf(b).s| && Signed(a) == Signed(b) ==>
              Meaning(Rest(a)) == Meaning(Rest(b))
  {
    RestFacts(a);
    RestFacts(b);
    ChainKeysSigned();
    CanonicalInjective(Rest(a), Rest(b));
    if Meaning(Rest(a)) == Meaning(Rest(b)) {
      SameField(a, b, PREV_HASH);
    }
    if PrevOf(b).Str? && |PrevOf(a).s| == |PrevOf(b).s| && Signed(a) == Signed(b) {
      PrefixCancel(PrevOf(a).s, Canonical(Rest(a)), PrevOf(b).s, Canonical(Rest(b)));
    }
  }

  lemma IntactAt(recs: seq<Value>, i: nat, hmac: Hmac, key: Text)
    requires Intact(recs, hmac, key) && i < |recs|
    ensures SeqOf(recs[i]) == Num(i) && HashVerifies(recs[i], hmac, key)
    ensures HashOf(recs[i]) == Str(hmac(key, Signed(recs[i])))
    ensures PrevOf(recs[i]) == if i == 0 then Str(GENESIS) else HashOf(recs[i - 1])
    ensures PrevOf(recs[i]).Str? && |PrevOf(recs[i]).s| == 64
  {
    assert LinkAt(recs, i, Str(GENESIS), 0, hmac, key);
    if i > 0 {
      assert LinkAt(recs, i - 1, Str(GENESIS), 0, hmac, key);
    }
  }

  // ----- Anchoring -----

  ghost predicate ChainsCollide(a: seq<Value>, b: seq<Value>, hmac: Hmac, key: Text) {
    exists x, y :: x in a && y in b && Collide(Signed(x), Signed(y), hmac, key)
  }

  lemma SameHashStep(x: Value, y: Value, hmac: Hmac, key: Text)
    requires WellFormedRecord(x) && WellFormedRecord(y) && HashOf(x) == HashOf(y)
    requires HashVerifies(x, hmac, key) && HashVerifies(y, hmac, key)
    requires !Collide(Signed(x), Signed(y), hmac, key) && SeqOf(x).Num?
    requires PrevOf(x).Str? && PrevOf(y).Str? && |PrevOf(x).s| == |PrevOf(y).s|
    ensures SameSigned(x, y) && SeqOf(x) == SeqOf(y) && PrevOf(x) == PrevOf(y)
  {
    SignedDetermines(x, y);
    ChainKeysSigned();
    SameField(x, y, SEQ);
    SameField(x, y, PREV_HASH);
  }

  lemma AnchorStep(a: seq<Value>, b: seq<Value>, i: nat, j: nat, hmac: Hmac, key: Text)
    requires Intact(a, hmac, key) && Intact(b, hmac, key) && i < |a| && j < |b|
    requires WellFormedRecord(a[i]) && WellFormedRecord(b[j]) && HashOf(a[i]) == HashOf(b[j])
    requires !Collide(Signed(a[i]), Signed(b[j]), hmac, key)
    ensures i == j && SameSigned(a[i], b[j])
    ensures i > 0 ==> HashOf(a[i - 1]) == HashOf(b[j - 1])
  {
    IntactAt(a, i, hmac, key);
    IntactAt(b, j, hmac, key);
    SameHashStep(a[i], b[j], hmac, key);
  }

  lemma {:induction false} AnchoredAt(a: seq<Value>, b: seq<Value>, i: nat, j: nat, hmac: Hmac, key: Text)
    requires Intact(a, hmac, key) && Intact(b, hmac, key)
    requires forall r | r in a || r in b :: WellFormedRecord(r)
    requires forall x, y | x in a && y in b :: !Collide(Signed(x), Signed(y), hmac, key)
    requires i < |a| && j < |b| && HashOf(a[i]) == HashOf(b[j])
    ensures i == j && forall k | 0 <= k <= i :: SameSigned(a[k], b[k])
    decreases i
  {
    assert a[i] in a && b[j] in b;
    AnchorStep(a, b, i, j, hmac, key);
    if i > 0 {
      AnchoredAt(a, b, i - 1, j - 1, hmac, key);
    }
    forall k | 0 <= k <= i
      ensures SameSigned(a[k], b[k])
    {
      assert k == i || k <= i - 1;
    }
  }

  /**
   Anchoring: two intact chains that end in the same hash are the same chain, record by record, or
   they contain two different signed messages with equal hashes.
   */
  lemma Anchoring(a: seq<Value>, b: seq<Value>, hmac: Hmac, key: Text)
    requires Intact(a, hmac, key) && Intact(b, hmac, key) && a != [] && b != []
    requires forall r | r in a || r in b :: WellFormedRecord(r)
    requires HashOf(a[|a| - 1]) == HashOf(b[|b| - 1])
    ensures ChainsCollide(a, b, hmac, key)
            || (|a| == |b| && forall k | 0 <= k < |a| :: SameSigned(a[k], b[k]))
  {
    if !ChainsCollide(a, b, hmac, key) {
      AnchoredAt(a, b, |a| - 1, |b| - 1, hmac, key);
    }
  }

  /** The records of one chain of an accepted log, in the order of their numbers. */
  lemma AcceptedChain(log: seq<Value>, cid: Value, hmac: Hmac, key: Text)
    requires Accepts(log, hmac, key) && !Keyless(cid)
    ensures Intact(StableSort(ChainOf(log, cid)), hmac, key)
  {
    var recs := ChainOf(log, cid);
    assert Arrangeable(recs, hmac, key);
    var chain: seq<Value> :| multiset(chain) == multiset(recs) && Intact(chain, hmac, key);
    StableSortFacts(recs);
    ArrangedIsSorted(recs, chain, StableSort(recs), hmac, key);
  }

  lemma SortedMembers(log: seq<Value>, cid: Value)
    requires forall r | r in log && IsAudit(r) :: WellFormedRecord(r)
    ensures forall r | r in StableSort(ChainOf(log, cid)) :: r in log && WellFormedRecord(r)
  {
    StableSortFacts(ChainOf(log, cid));
    SameElements(StableSort(ChainOf(log, cid)), ChainOf(log, cid));
    ChainOfMembers(log, cid);
  }

  lemma {:induction false} ChainOfMembers(log: seq<Value>, cid: Value)
    ensures forall r | r in ChainOf(log, cid) :: r in log && IsAudit(r)
  {
    if log != [] {
      ChainOfMembers(log[..|log| - 1], cid);
      assert log == log[..|log| - 1] + [log[|log| - 1]];
    }
  }

  /** An intact chain of well-formed records of the log. */
  ghost predicate ChainWithin(chain: seq<Value>, log: seq<Value>, hmac: Hmac, key: Text) {
    Intact(chain, hmac, key) && forall r | r in chain :: r in log && WellFormedRecord(r)
  }

  lemma MembersOfLog(log: seq<Value>, cid: Value, chain: seq<Value>, hmac: Hmac, key: Text)
    requires Accepts(log, hmac, key) && !Keyless(cid) && chain == StableSort(ChainOf(log, cid))
    requires forall r | r in log && IsAudit(r) :: WellFormedRecord(r)
    ensures ChainWithin(chain, log, hmac, key)
  {
    AcceptedChain(log, cid, hmac, key);
    SortedMembers(log, cid);
  }

  lemma AnchoredWithin(a: seq<Value>, b: seq<Value>, x: seq<Value>, y: seq<Value>, hmac: Hmac, key: Text)
    requires ChainWithin(x, a, hmac, key) && ChainWithin(y, b, hmac, key) && x != [] && y != []
    requires HashOf(x[|x| - 1]) == HashOf(y[|y| - 1])
    ensures ChainsCollide(a, b, hmac, key) || (|x| == |y| && forall k | 0 <= k < |x| :: SameSigned(x[k], y[k]))
  {
    Anchoring(x, y, hmac, key);
    CollisionWithin(x, y, a, b, hmac, key);
  }

  lemma CollisionWithin(x: seq<Value>, y: seq<Value>, a: seq<Value>, b: seq<Value>, hmac: Hmac, key: Text)
    requires (forall r | r in x :: r in a) && (forall r | r in y :: r in b)
    ensures ChainsCollide(x, y, hmac, key) ==> ChainsCollide(a, b, hmac, key)
  {
    if ChainsCollide(x, y, hmac, key) {
      var p, q :| p in x && q in y && Collide(Signed(p), Signed(q), hmac, key);
      assert p in a && q in b;
    }
  }

  /** The records of one chain of a log, in the order of their numbers. */
  ghost predicate HoldsChain(log: seq<Value>, cid: Value, chain: seq<Value>) {
    !Keyless(cid) && chain == StableSort(ChainOf(log, cid)) && chain != []
  }

  /**
   Anchoring for whole logs: if two accepted logs each hold a chain, and the two chains end in the same
   hash, then the chains have the same length and are equal record by record, whatever else the logs
   hold and in whatever order, or two different signed messages with equal hashes are among them.
   */
  lemma AnchoredLogs(a: seq<Value>, b: seq<Value>, ca: Value, cb: Value, x: seq<Value>, y: seq<Value>,
                     hmac: Hmac, key: Text)
    requires Accepts(a, hmac, key) && Accepts(b, hmac, key) && HoldsChain(a, ca, x) && HoldsChain(b, cb, y)
    requires forall r | (r in a || r in b) && IsAudit(r) :: WellFormedRecord(r)
    requires HashOf(x[|x| - 1]) == HashOf(y[|y| - 1])
    ensures ChainsCollide(a, b, hmac, key) || (|x| == |y| && forall k | 0 <= k < |x| :: SameSigned(x[k], y[k]))
  {
    MembersOfLog(a, ca, x, hmac, key);
    MembersOfLog(b, cb, y, hmac, key);
    AnchoredWithin(a, b, x, y, hmac, key);
  }

  // ----- Exact acceptance -----

  /** Whoever lacks the key cannot produce a verifying hash for a message no process signed. */
  ghost predicate Unforged(log: seq<Value>, ps: seq<Process>, hmac: Hmac, key: Text) {
    forall r | r in log && IsAudit(r) && HashVerifies(r, hmac, key) :: WasSigned(r, ps, hmac, key)
  }

  ghost predicate WasSigned(r: Value, ps: seq<Process>, hmac: Hmac, key: Text) {
    exists p, i :: p in ps && 0 <= i < |p.events| && Signed(r) == Signed(Records(p, hmac, key)[i])
  }

  ghost predicate IsPrefix(chain: seq<Value>, recs: seq<Value>) {
    |chain| <= |recs| && forall i | 0 <= i < |chain| :: SameSigned(chain[i], recs[i])
  }

  /** The records of chain `cid` in the log are, in some order, the first records its process emitted. */
  ghost predicate PrefixOfSome(log: seq<Value>, cid: Value, ps: seq<Process>, hmac: Hmac, key: Text) {
    exists p, chain :: p in ps && cid == Str(p.chainId)
      && multiset(chain) == multiset(ChainOf(log, cid)) && IsPrefix(chain, Records(p, hmac, key))
  }

  ghost predicate OnlyPrefixes(log: seq<Value>, ps: seq<Process>, hmac: Hmac, key: Text) {
    && (forall r | r in log && IsAudit(r) :: !Keyless(ChainId(r)))
    && (forall cid | !Keyless(cid) && ChainOf(log, cid) != [] :: PrefixOfSome(log, cid, ps, hmac, key))
  }

  lemma RecordAt(p: Process, i: nat, hmac: Hmac, key: Text)
    requires i < |p.events| && forall e | e in p.events :: EventOk(e)
    ensures var recs := Records(p, hmac, key);
            && WellFormedRecord(recs[i]) && ChainId(recs[i]) == Str(p.chainId) && SeqOf(recs[i]) == Num(i)
            && HashVerifies(recs[i], hmac, key) && HashOf(recs[i]) == Str(hmac(key, Signed(recs[i])))
            && PrevOf(recs[i]).Str? && |PrevOf(recs[i]).s| == 64
            && PrevOf(recs[i]) == if i == 0 then Str(GENESIS) else HashOf(recs[i - 1])
  {
    HonestRecordAt(p.chainId, p.events, i, hmac, key);
    HonestIntact(p.chainId, p.events, hmac, key);
    IntactAt(Records(p, hmac, key), i, hmac, key);
  }

  /** A verifying record with a 64-unit `prevHash` is the record its process emitted at that `seq`. */
  lemma SignedByOwner(r: Value, n: nat, ps: seq<Process>, hmac: Hmac, key: Text) returns (p: Process)
    requires ProcessesOk(ps) && WellFormedRecord(r) && HashVerifies(r, hmac, key)
    requires SeqOf(r) == Num(n) && PrevOf(r).Str? && |PrevOf(r).s| == 64 && WasSigned(r, ps, hmac, key)
    ensures p in ps && n < |p.events| && ChainId(r) == Str(p.chainId)
    ensures SameSigned(r, Records(p, hmac, key)[n])
  {
    var q, i :| q in ps && 0 <= i < |q.events| && Signed(r) == Signed(Records(q, hmac, key)[i]);
    p := q;
    var s := Records(p, hmac, key)[i];
    RecordAt(p, i, hmac, key);
    SignedDetermines(r, s);
    ChainKeysSigned();
    SameField(s, r, SEQ);
    SameField(s, r, CHAIN_ID);
  }

  lemma ArrangedIsPrefix(chain: seq<Value>, cid: Value, ps: seq<Process>, hmac: Hmac, key: Text) returns (p: Process)
    requires ProcessesOk(ps) && Intact(chain, hmac, key) && chain != []
    requires forall r | r in chain :: WellFormedRecord(r) && ChainId(r) == cid && WasSigned(r, ps, hmac, key)
    ensures p in ps && cid == Str(p.chainId) && IsPrefix(chain, Records(p, hmac, key))
  {
    IntactAt(chain, 0, hmac, key);
    p := SignedByOwner(chain[0], 0, ps, hmac, key);
    forall i | 0 <= i < |chain|
      ensures i < |p.events| && SameSigned(chain[i], Records(p, hmac, key)[i])
    {
      IntactAt(chain, i, hmac, key);
      var q := SignedByOwner(chain[i], i, ps, hmac, key);
      assert q == p;
    }
    assert SameSigned(chain[|chain| - 1], Records(p, hmac, key)[|chain| - 1]);
  }

  lemma PrefixIntact(chain: seq<Value>, p: Process, hmac: Hmac, key: Text)
    requires forall e | e in p.events :: EventOk(e)
    requires forall r | r in chain :: WellFormedRecord(r)
    requires IsPrefix(chain, Records(p, hmac, key))
    ensures Intact(chain, hmac, key)
  {
    var recs := Records(p, hmac, key);
    ChainKeysSigned();
    forall i | 0 <= i < |chain|
      ensures LinkAt(chain, i, Str(GENESIS), 0, hmac, key)
    {
      RecordAt(p, i, hmac, key);
      assert SameSigned(chain[i], recs[i]);
      SameField(recs[i], chain[i], SEQ);
      SameField(recs[i], chain[i], PREV_HASH);
      SignedDetermines(recs[i], chain[i]);
      assert i > 0 ==> SameSigned(chain[i - 1], recs[i - 1]);
    }
  }

  lemma AcceptedChainIsPrefix(log: seq<Value>, cid: Value, ps: seq<Process>, hmac: Hmac, key: Text)
    requires ProcessesOk(ps) && Unforged(log, ps, hmac, key)
    requires forall r | r in log :: IsAudit(r) ==> WellFormedRecord(r)
    requires Arrangeable(ChainOf(log, cid), hmac, key) && ChainOf(log, cid) != []
    ensures PrefixOfSome(log, cid, ps, hmac, key)
  {
    var recs := ChainOf(log, cid);
    var chain: seq<Value> :| multiset(chain) == multiset(recs) && Intact(chain, hmac, key);
    SameElements(chain, recs);
    forall r | r in chain
      ensures WellFormedRecord(r) && ChainId(r) == cid && WasSigned(r, ps, hmac, key)
    {
      assert r in recs;
      var i :| 0 <= i < |chain| && chain[i] == r;
      IntactAt(chain, i, hmac, key);
    }
    var p := ArrangedIsPrefix(chain, cid, ps, hmac, key);
  }

  lemma NoKeylessAccepted(log: seq<Value>, r: Value, ps: seq<Process>, hmac: Hmac, key: Text)
    requires ProcessesOk(ps) && Unforged(log, ps, hmac, key)
    requires r in log && IsAudit(r) && WellFormedRecord(r) && Arrangeable([r], hmac, key)
    ensures !Keyless(ChainId(r))
  {
    var chain: seq<Value> :| multiset(chain) == multiset([r]) && Intact(chain, hmac, key);
    SameElements(chain, [r]);
    assert r in chain;
    assert chain == [r];
    IntactAt(chain, 0, hmac, key);
    var p := SignedByOwner(r, 0, ps, hmac, key);
  }

  lemma PrefixArrangeable(log: seq<Value>, cid: Value, ps: seq<Process>, hmac: Hmac, key: Text)
    requires ProcessesOk(ps) && forall r | r in log :: IsAudit(r) ==> WellFormedRecord(r)
    requires PrefixOfSome(log, cid, ps, hmac, key)
    ensures Arrangeable(ChainOf(log, cid), hmac, key)
  {
    var p, chain :| p in ps && cid == Str(p.chainId)
      && multiset(chain) == multiset(ChainOf(log, cid)) && IsPrefix(chain, Records(p, hmac, key));
    SameElements(chain, ChainOf(log, cid));
    PrefixIntact(chain, p, hmac, key);
  }

  /**
   Exact acceptance: when every verifying hash is on a message some process signed, the verifier
   accepts exactly the logs whose chains are prefixes of what their processes emitted.
   */
  lemma ExactAcceptance(log: seq<Value>, ps: seq<Process>, hmac: Hmac, key: Text)
    requires ProcessesOk(ps) && Unforged(log, ps, hmac, key)
    requires forall r | r in log :: IsAudit(r) ==> WellFormedRecord(r)
    ensures Accepts(log, hmac, key) <==> OnlyPrefixes(log, ps, hmac, key)
  {
    if Accepts(log, hmac, key) {
      forall r | r in log && IsAudit(r)
        ensures !Keyless(ChainId(r))
      {
        if Keyless(ChainId(r)) {
          NoKeylessAccepted(log, r, ps, hmac, key);
        }
      }
      forall cid | !Keyless(cid) && ChainOf(log, cid) != [] {
        AcceptedChainIsPrefix(log, cid, ps, hmac, key);
      }
    }
    if OnlyPrefixes(log, ps, hmac, key) {
      forall cid | !Keyless(cid)
        ensures Arrangeable(ChainOf(log, cid), hmac, key)
      {
        if ChainOf(log, cid) == [] {
          EmptyArrangeable(hmac, key);
        } else {
          PrefixArrangeable(log, cid, ps, hmac, key);
        }
      }
    }
  }
}
