/**
 Laws of acceptance: it depends on the records only as a multiset, ignores records of other
 categories, and splits over logs that share no chain.
 */
module ChainLaws {
  import opened JsText
  import opened JsValues
  import opened AuditRecords
  import opened ChainVerifier

  predicate Belongs(r: Value, cid: Value) {
    IsAudit(r) && StrictEq(cid, ChainId(r))
  }

  lemma {:induction false} ChainOfCounts(records: seq<Value>, cid: Value, x: Value)
    ensures multiset(ChainOf(records, cid))[x] == if Belongs(x, cid) then multiset(records)[x] else 0
  {
    if records != [] {
      var before := records[..|records| - 1];
      ChainOfCounts(before, cid, x);
      assert records == before + [records[|records| - 1]];
    }
  }

  lemma {:induction false} AuditCounts(records: seq<Value>, x: Value)
    ensures multiset(AuditRecordsIn(records))[x] == if IsAudit(x) then multiset(records)[x] else 0
  {
    if records != [] {
      var before := records[..|records| - 1];
      AuditCounts(before, x);
      assert records == before + [records[|records| - 1]];
    }
  }

  /** Two logs with the same records in every chain are accepted alike. */
  lemma SameChainsAcceptedAlike(a: seq<Value>, b: seq<Value>, hmac: Hmac, key: Text)
    requires forall x | IsAudit(x) :: multiset(a)[x] == multiset(b)[x]
    ensures Accepts(a, hmac, key) ==> Accepts(b, hmac, key)
  {
    if Accepts(a, hmac, key) {
      forall cid | !Keyless(cid)
        ensures Arrangeable(ChainOf(b, cid), hmac, key)
      {
        var ca, cb := multiset(ChainOf(a, cid)), multiset(ChainOf(b, cid));
        forall x: Value
          ensures ca[x] == cb[x]
        {
          ChainOfCounts(a, cid, x);
          ChainOfCounts(b, cid, x);
        }
        assert ca == cb;
        assert Arrangeable(ChainOf(a, cid), hmac, key);
      }
      forall r | r in b && IsAudit(r) && Keyless(ChainId(r))
        ensures Arrangeable([r], hmac, key)
      {
        assert r in multiset(b);
        assert r in multiset(a);
      }
    }
  }

  /** `ok` does not depend on the order of the input. */
  lemma OrderIndependent(a: seq<Value>, b: seq<Value>, hmac: Hmac, key: Text)
    requires multiset(a) == multiset(b)
    ensures Accepts(a, hmac, key) <==> Accepts(b, hmac, key)
  {
    SameChainsAcceptedAlike(a, b, hmac, key);
    SameChainsAcceptedAlike(b, a, hmac, key);
  }

  /** Records of another category, wherever they are mixed in, make no difference. */
  lemma IgnoresOtherRecords(records: seq<Value>, hmac: Hmac, key: Text)
    ensures Accepts(records, hmac, key) <==> Accepts(AuditRecordsIn(records), hmac, key)
  {
    forall x | IsAudit(x)
      ensures multiset(records)[x] == multiset(AuditRecordsIn(records))[x]
    {
      AuditCounts(records, x);
    }
    SameChainsAcceptedAlike(records, AuditRecordsIn(records), hmac, key);
    SameChainsAcceptedAlike(AuditRecordsIn(records), records, hmac, key);
  }

  lemma ChainOfUnion(a: seq<Value>, b: seq<Value>, cid: Value)
    ensures multiset(ChainOf(a + b, cid)) == multiset(ChainOf(a, cid)) + multiset(ChainOf(b, cid))
  {
    forall x: Value
      ensures multiset(ChainOf(a + b, cid))[x] == (multiset(ChainOf(a, cid)) + multiset(ChainOf(b, cid)))[x]
    {
      ChainOfCounts(a + b, cid, x);
      ChainOfCounts(a, cid, x);
      ChainOfCounts(b, cid, x);
    }
  }

  ghost predicate ShareNoChain(a: seq<Value>, b: seq<Value>) {
    forall x, y | x in a && y in b && IsAudit(x) && IsAudit(y) :: !StrictEq(ChainId(x), ChainId(y))
  }

  lemma OneSideEmpty(a: seq<Value>, b: seq<Value>, cid: Value)
    requires ShareNoChain(a, b)
    ensures ChainOf(a, cid) == [] || ChainOf(b, cid) == []
  {
    EmptyOrMember(ChainOf(a, cid));
    EmptyOrMember(ChainOf(b, cid));
  }

  lemma EmptyArrangeable(hmac: Hmac, key: Text)
    ensures Arrangeable([], hmac, key)
  {
    var none: seq<Value> := [];
    assert multiset(none) == multiset(none) && Intact(none, hmac, key);
  }

  lemma UnionArrangeable(a: seq<Value>, b: seq<Value>, cid: Value, hmac: Hmac, key: Text)
    requires ShareNoChain(a, b)
    ensures Arrangeable(ChainOf(a + b, cid), hmac, key)
       <==> Arrangeable(ChainOf(a, cid), hmac, key) && Arrangeable(ChainOf(b, cid), hmac, key)
  {
    ChainOfUnion(a, b, cid);
    OneSideEmpty(a, b, cid);
    EmptyArrangeable(hmac, key);
    var side := if ChainOf(a, cid) == [] then ChainOf(b, cid) else ChainOf(a, cid);
    assert multiset(ChainOf(a + b, cid)) == multiset(side);
  }

  /** Logs without a common chain verify together exactly when each verifies alone. */
  lemma DisjointLogs(a: seq<Value>, b: seq<Value>, hmac: Hmac, key: Text)
    requires ShareNoChain(a, b)
    ensures Accepts(a + b, hmac, key) <==> Accepts(a, hmac, key) && Accepts(b, hmac, key)
  {
    forall cid | !Keyless(cid) {
      UnionArrangeable(a, b, cid, hmac, key);
    }
  }

  // ----- The number of chains -----

  ghost function ChainIds(records: seq<Value>): set<Value> {
    set r | r in records && IsAudit(r) :: ChainId(r)
  }

  lemma {:induction false} DistinctCount(gs: seq<Group>)
    requires DifferentChains(gs) && forall i | 0 <= i < |gs| :: !Keyless(gs[i].chainId)
    ensures |set i | 0 <= i < |gs| :: gs[i].chainId| == |gs|
  {
    var ids := set i | 0 <= i < |gs| :: gs[i].chainId;
    if gs == [] {
      assert ids == {};
    } else {
      var n := |gs| - 1;
      var before := set i | 0 <= i < n :: gs[..n][i].chainId;
      DistinctCount(gs[..n]);
      assert forall i | 0 <= i < n :: gs[i].chainId != gs[n].chainId;
      assert gs[n].chainId !in before;
      forall c
        ensures c in ids <==> c in before + {gs[n].chainId}
      {
        if c in before {
          var i :| 0 <= i < n && gs[..n][i].chainId == c;
          assert gs[i].chainId == c;
        }
        if c in ids {
          var i :| 0 <= i < |gs| && gs[i].chainId == c;
          assert i < n ==> gs[..n][i].chainId == c;
        }
      }
      assert ids == before + {gs[n].chainId};
    }
  }

  lemma {:induction false} GroupsNonEmpty(records: seq<Value>)
    ensures forall i | 0 <= i < |GroupsOf(records)| :: GroupsOf(records)[i].recs != []
  {
    if records != [] {
      GroupsNonEmpty(records[..|records| - 1]);
    }
  }

  /** `chains` counts the different chain ids, when they are primitive values. */
  lemma ChainsCounted(records: seq<Value>)
    requires forall r | r in records && IsAudit(r) :: !Keyless(ChainId(r))
    ensures |GroupsOf(records)| == |ChainIds(records)|
  {
    var gs := GroupsOf(records);
    GroupsOfFor(records);
    GroupsNonEmpty(records);
    forall i | 0 <= i < |gs|
      ensures !Keyless(gs[i].chainId) && gs[i].chainId in ChainIds(records)
    {
      assert GroupHolds(gs[i], records);
      assert gs[i].recs[0] in gs[i].recs;
    }
    DistinctCount(gs);
    var ids := set i | 0 <= i < |gs| :: gs[i].chainId;
    forall c | c in ChainIds(records)
      ensures c in ids
    {
      var r :| r in records && IsAudit(r) && ChainId(r) == c;
      assert HasGroup(gs, r);
    }
    assert ids == ChainIds(records);
  }
}
