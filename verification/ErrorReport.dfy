/**
 Reading the error list: which errors a changed, thinned or duplicated honest chain produces.
 The honest chain is any intact chain `h` of one (primitive) chain id.
 */
module ErrorReport {
  import opened JsText
  import opened JsValues
  import opened AuditRecords
  import opened ChainVerifier
  import opened HonestChain
  import opened TamperEvidence

  ghost predicate OneChain(recs: seq<Value>, cid: Value) {
    !Keyless(cid) && forall r | r in recs :: WellFormedRecord(r) && IsAudit(r) && ChainId(r) == cid
  }

  lemma {:induction false} SingleGroup(records: seq<Value>, cid: Value)
    requires OneChain(records, cid) && records != []
    ensures GroupsOf(records) == [Group(cid, records)]
  {
    var n := |records| - 1;
    assert records == records[..n] + [records[n]];
    if n > 0 {
      SingleGroup(records[..n], cid);
    } else {
      assert records[..n] == [];
    }
  }

  lemma OneChainErrors(records: seq<Value>, cid: Value, hmac: Hmac, key: Text)
    requires OneChain(records, cid)
    ensures ErrorsOf(records, hmac, key) == Walk(cid, StableSort(records), Str(GENESIS), Known(Num(0)), hmac, key)
  {
    if records != [] {
      SingleGroup(records, cid);
      assert SortedGroups([Group(cid, records)]) == [Group(cid, StableSort(records))];
      assert WalkGroups([Group(cid, StableSort(records))], hmac, key)
          == WalkGroup(Group(cid, StableSort(records)), hmac, key);
    }
  }

  /** The value the walk expects as `prevHash` after record `last`; -1 is the start. */
  ghost function HashBefore(h: seq<Value>, last: int): Value
    requires -1 <= last < |h|
  {
    if last == -1 then Str(GENESIS) else HashOf(h[last])
  }

  // ----- Localisation -----

  /** `t` differs from `h` in content only: the fields that place a record in its chain are untouched. */
  ghost predicate ContentOnly(t: Value, h: Value) {
    SeqOf(t) == SeqOf(h) && PrevOf(t) == PrevOf(h) && HashOf(t) == HashOf(h)
  }

  ghost predicate Altered(t: Value, h: Value) {
    Meaning(Rest(t)) != Meaning(Rest(h))
  }

  /** One hash mismatch per altered record, in order. */
  ghost function Mismatches(cid: Value, t: seq<Value>, h: seq<Value>, n: nat): seq<ChainError>
    requires |t| == |h|
    decreases |t| - n
  {
    if n >= |t| then []
    else
      (if Altered(t[n], h[n]) then [ChainError(cid, Num(n), HashMismatch)] else []) + Mismatches(cid, t, h, n + 1)
  }

  /** One step of the walk over a record with number `n` and hash `link`. */
  lemma WalkLinked(cid: Value, recs: seq<Value>, prev: Value, next: Expected, n: int, link: Value,
                   hmac: Hmac, key: Text)
    requires recs != [] && SeqOf(recs[0]) == Num(n) && HashOf(recs[0]) == link
    ensures Walk(cid, recs, prev, next, hmac, key)
         == RecordErrors(cid, recs[0], prev, next, hmac, key) + Walk(cid, recs[1..], link, Known(Num(n + 1)), hmac, key)
  {
  }

  lemma MismatchAt(cid: Value, t: seq<Value>, h: seq<Value>, n: nat)
    requires |t| == |h| && n < |t|
    ensures Mismatches(cid, t, h, n)
         == (if Altered(t[n], h[n]) then [ChainError(cid, Num(n), HashMismatch)] else [])
            + Mismatches(cid, t, h, n + 1)
  {
  }

  lemma AlteredHash(t: Value, h: Value, hmac: Hmac, key: Text)
    requires WellFormedRecord(t) && WellFormedRecord(h) && ContentOnly(t, h) && PrevOf(h).Str?
    requires HashVerifies(h, hmac, key) && !Collide(Signed(t), Signed(h), hmac, key)
    ensures HashVerifies(t, hmac, key) <==> !Altered(t, h)
  {
    SignedDetermines(h, t);
  }

  lemma AlteredErrors(cid: Value, t: Value, h: Value, n: nat, prev: Value, hmac: Hmac, key: Text)
    requires WellFormedRecord(t) && WellFormedRecord(h) && ContentOnly(t, h)
    requires Link(h, prev, n, hmac, key) && prev.Str? && !Collide(Signed(t), Signed(h), hmac, key)
    ensures RecordErrors(cid, t, prev, Known(Num(n)), hmac, key)
         == if Altered(t, h) then [ChainError(cid, Num(n), HashMismatch)] else []
  {
    AlteredHash(t, h, hmac, key);
  }

  ghost predicate AlteredCopy(t: seq<Value>, h: seq<Value>, hmac: Hmac, key: Text) {
    && |t| == |h| && Intact(h, hmac, key)
    && (forall i | 0 <= i < |h| :: WellFormedRecord(t[i]) && WellFormedRecord(h[i]) && ContentOnly(t[i], h[i]))
    && (forall i | 0 <= i < |h| :: !Collide(Signed(t[i]), Signed(h[i]), hmac, key))
  }

  lemma AlteredStep(cid: Value, t: seq<Value>, h: seq<Value>, n: nat, hmac: Hmac, key: Text)
    requires AlteredCopy(t, h, hmac, key) && n < |t|
    ensures RecordErrors(cid, t[n], HashBefore(h, n - 1), Known(Num(n)), hmac, key)
         == if Altered(t[n], h[n]) then [ChainError(cid, Num(n), HashMismatch)] else []
    ensures HashOf(t[n]) == HashBefore(h, n) && SeqOf(t[n]) == Num(n)
  {
    IntactAt(h, n, hmac, key);
    AlteredErrors(cid, t[n], h[n], n, HashBefore(h, n - 1), hmac, key);
  }

  lemma AlteredWalkStep(cid: Value, t: seq<Value>, h: seq<Value>, n: nat, hmac: Hmac, key: Text)
    requires AlteredCopy(t, h, hmac, key) && n < |t|
    ensures Walk(cid, t[n..], HashBefore(h, n - 1), Known(Num(n)), hmac, key)
         == (if Altered(t[n], h[n]) then [ChainError(cid, Num(n), HashMismatch)] else [])
            + Walk(cid, t[n + 1..], HashBefore(h, n), Known(Num(n + 1)), hmac, key)
  {
    AlteredStep(cid, t, h, n, hmac, key);
    assert t[n..][0] == t[n] && t[n..][1..] == t[n + 1..];
    WalkLinked(cid, t[n..], HashBefore(h, n - 1), Known(Num(n)), n, HashBefore(h, n), hmac, key);
  }

  lemma {:induction false} WalkAltered(cid: Value, t: seq<Value>, h: seq<Value>, n: nat, hmac: Hmac, key: Text)
    requires AlteredCopy(t, h, hmac, key) && n <= |t|
    ensures Walk(cid, t[n..], HashBefore(h, n - 1), Known(Num(n)), hmac, key) == Mismatches(cid, t, h, n)
    decreases |t| - n
  {
    if n < |t| {
      AlteredWalkStep(cid, t, h, n, hmac, key);
      WalkAltered(cid, t, h, n + 1, hmac, key);
      MismatchAt(cid, t, h, n);
    }
  }

  lemma AlteredSorted(log: seq<Value>, t: seq<Value>, h: seq<Value>, cid: Value, hmac: Hmac, key: Text)
    requires AlteredCopy(t, h, hmac, key) && multiset(log) == multiset(t)
    ensures StableSort(log) == t
  {
    AlteredNumbers(t, h, cid, hmac, key);
    NumberedSorted(log, t);
  }

  lemma NumberedSorted(log: seq<Value>, t: seq<Value>)
    requires multiset(log) == multiset(t) && forall i | 0 <= i < |t| :: SeqOf(t[i]) == Num(0 + i)
    ensures StableSort(log) == t
  {
    StableSortFacts(log);
    AscendingUnique(t, StableSort(log), 0);
  }

  lemma AlteredNumbers(t: seq<Value>, h: seq<Value>, cid: Value, hmac: Hmac, key: Text)
    requires AlteredCopy(t, h, hmac, key)
    ensures forall i | 0 <= i < |t| :: SeqOf(t[i]) == Num(0 + i)
  {
    forall i | 0 <= i < |t|
      ensures SeqOf(t[i]) == Num(0 + i)
    {
      AlteredStep(cid, t, h, i, hmac, key);
    }
  }

  /**
   Localisation: whatever content is changed in an honest chain, and however the records are
   ordered, the errors are one hash mismatch for each record that was changed, and nothing else.
   */
  lemma Localisation(log: seq<Value>, t: seq<Value>, h: seq<Value>, cid: Value, hmac: Hmac, key: Text)
    requires AlteredCopy(t, h, hmac, key) && OneChain(t, cid) && multiset(log) == multiset(t)
    ensures ErrorsOf(log, hmac, key) == Mismatches(cid, t, h, 0)
  {
    SameElements(log, t);
    OneChainErrors(log, cid, hmac, key);
    AlteredSorted(log, t, h, cid, hmac, key);
    WalkAltered(cid, t, h, 0, hmac, key);
    assert t[0..] == t;
  }

  // ----- Error accounting -----

  /** The `seq` numbers of a list of records. */
  ghost function Numbers(recs: seq<Value>): (ns: seq<int>)
    ensures |ns| == |recs| && forall i | 0 <= i < |ns| :: ns[i] == SeqNumber(recs[i])
  {
    seq(|recs|, i requires 0 <= i < |recs| => SeqNumber(recs[i]))
  }

  ghost predicate Rising(ns: seq<int>) {
    forall i, j | 0 <= i < j < |ns| :: ns[i] <= ns[j]
  }

  /** How often the numbers do not continue with the successor, starting after `last`. */
  ghost function Breaks(ns: seq<int>, last: int): nat {
    if ns == [] then 0 else (if ns[0] == last + 1 then 0 else 1) + Breaks(ns[1..], ns[0])
  }

  /** The pair of errors at every break. */
  ghost function BreakErrors(cid: Value, ns: seq<int>, last: int): (errors: seq<ChainError>)
    ensures |errors| == 2 * Breaks(ns, last)
  {
    if ns == [] then []
    else
      (if ns[0] == last + 1 then [] else BreakPair(cid, ns[0], last)) + BreakErrors(cid, ns[1..], ns[0])
  }

  ghost function BreakPair(cid: Value, n: int, last: int): seq<ChainError> {
    [ChainError(cid, Num(n), BadSeq(Known(Num(last + 1)))), ChainError(cid, Num(n), BrokenLink)]
  }

  ghost function Kept(ns: seq<int>): set<int> {
    set n | n in ns
  }

  /** Kept numbers whose predecessor is missing: the first record after each gap. */
  ghost function GapEnds(kept: set<int>): set<int> {
    set n | n in kept && AfterGap(kept, n)
  }

  ghost predicate AfterGap(kept: set<int>, n: int) {
    n > 0 && n - 1 !in kept
  }

  lemma {:induction false} BreaksAppend(ns: seq<int>, n: int, last: int)
    ensures Breaks(ns + [n], last)
         == Breaks(ns, last) + if n == (if ns == [] then last else ns[|ns| - 1]) + 1 then 0 else 1
  {
    if ns == [] {
      assert ns + [n] == [n] && [n][1..] == [];
    } else {
      BreaksAppend(ns[1..], n, ns[0]);
      assert (ns + [n])[1..] == ns[1..] + [n];
    }
  }

  lemma AppendKept(ns: seq<int>, n: int)
    requires Rising(ns + [n])
    ensures Kept(ns + [n]) == Kept(ns) + {n}
    ensures n in Kept(ns) <==> ns != [] && n == ns[|ns| - 1]
  {
    var all := ns + [n];
    if n in Kept(ns) {
      var i :| 0 <= i < |ns| && ns[i] == n;
      assert all[i] == n && all[|ns|] == n && (i < |ns| - 1 ==> all[i] <= all[|ns| - 1]);
      assert all[|ns| - 1] <= all[|ns|];
    }
  }

  lemma AppendGapEnds(ns: seq<int>, n: int)
    requires Rising(ns + [n]) && forall i | 0 <= i < |ns + [n]| :: (ns + [n])[i] >= 0
    requires n !in Kept(ns)
    ensures GapEnds(Kept(ns + [n])) == GapEnds(Kept(ns)) +
              if n == (if ns == [] then -1 else ns[|ns| - 1]) + 1 then {} else {n}
  {
    var all := ns + [n];
    AppendKept(ns, n);
    forall m | m in Kept(ns)
      ensures m < n
    {
      var i :| 0 <= i < |ns| && ns[i] == m;
      assert all[i] <= all[|ns|];
    }
    if ns != [] {
      forall m | m in Kept(ns)
        ensures m <= ns[|ns| - 1]
      {
        var i :| 0 <= i < |ns| && ns[i] == m;
        assert i < |ns| - 1 ==> all[i] <= all[|ns| - 1];
      }
      assert all[|ns| - 1] >= 0;
    }
    assert all[|ns|] == n;
  }

  lemma BreaksCountStep(before: seq<int>, n: int)
    requires Rising(before + [n]) && forall i | 0 <= i < |before + [n]| :: (before + [n])[i] >= 0
    requires |Kept(before)| <= |before|
    requires Breaks(before, -1) == |GapEnds(Kept(before))| + (|before| - |Kept(before)|)
    ensures |Kept(before + [n])| <= |before| + 1
    ensures Breaks(before + [n], -1) == |GapEnds(Kept(before + [n]))| + (|before| + 1 - |Kept(before + [n])|)
  {
    BreaksAppend(before, n, -1);
    AppendKept(before, n);
    if n in Kept(before) {
      assert Kept(before + [n]) == Kept(before);
    } else {
      AppendGapEnds(before, n);
    }
  }

  /** Breaks are gaps that are followed by a record, plus surplus copies. */
  lemma {:induction false} BreaksCount(ns: seq<int>)
    requires Rising(ns) && forall i | 0 <= i < |ns| :: ns[i] >= 0
    ensures |Kept(ns)| <= |ns|
    ensures Breaks(ns, -1) == |GapEnds(Kept(ns))| + (|ns| - |Kept(ns)|)
  {
    if ns == [] {
      assert Kept(ns) == {} && GapEnds(Kept(ns)) == {};
    } else {
      var before, n := ns[..|ns| - 1], ns[|ns| - 1];
      assert ns == before + [n];
      BreaksCount(before);
      BreaksCountStep(before, n);
    }
  }

  /** No two signed messages of the chain collide, and none hashes to the genesis value. */
  ghost predicate HashesSeparate(h: seq<Value>, hmac: Hmac, key: Text) {
    && (forall x, y | x in h && y in h :: !Collide(Signed(x), Signed(y), hmac, key))
    && (forall x | x in h :: hmac(key, Signed(x)) != GENESIS)
  }

  lemma DifferentSeqDifferentHash(h: seq<Value>, i: nat, j: nat, hmac: Hmac, key: Text)
    requires Intact(h, hmac, key) && HashesSeparate(h, hmac, key) && i < |h| && j < |h| && i != j
    requires forall r | r in h :: WellFormedRecord(r)
    ensures HashOf(h[i]) != HashOf(h[j])
  {
    IntactAt(h, i, hmac, key);
    IntactAt(h, j, hmac, key);
    assert h[i] in h && h[j] in h;
    if Signed(h[i]) == Signed(h[j]) {
      SignedDetermines(h[i], h[j]);
      ChainKeysSigned();
      SameField(h[i], h[j], SEQ);
    }
    assert !Collide(Signed(h[i]), Signed(h[j]), hmac, key);
  }

  /** What a later record announces is neither the genesis value nor another record's hash. */
  lemma SeparateHashes(h: seq<Value>, i: nat, j: nat, hmac: Hmac, key: Text)
    requires Intact(h, hmac, key) && HashesSeparate(h, hmac, key) && forall r | r in h :: WellFormedRecord(r)
    requires i < |h| && j < |h|
    ensures HashOf(h[i]).Str? && HashOf(h[i]) != Str(GENESIS)
    ensures HashOf(h[i]) == HashOf(h[j]) <==> i == j
  {
    IntactAt(h, i, hmac, key);
    assert h[i] in h;
    if i != j {
      DifferentSeqDifferentHash(h, i, j, hmac, key);
    }
  }

  lemma MemberLink(h: seq<Value>, n: nat, last: int, hmac: Hmac, key: Text)
    requires Intact(h, hmac, key) && HashesSeparate(h, hmac, key) && forall r | r in h :: WellFormedRecord(r)
    requires -1 <= last < |h| && n < |h|
    ensures StrictEq(PrevOf(h[n]), HashBefore(h, last)) <==> n == last + 1
  {
    IntactAt(h, n, hmac, key);
    if n > 0 && last >= 0 {
      SeparateHashes(h, n - 1, last, hmac, key);
    } else if n > 0 {
      SeparateHashes(h, n - 1, n - 1, hmac, key);
    } else if last >= 0 {
      SeparateHashes(h, last, last, hmac, key);
    }
  }

  /** A record of the chain causes a pair of errors after anything but its predecessor. */
  lemma MemberErrors(cid: Value, h: seq<Value>, n: nat, last: int, hmac: Hmac, key: Text)
    requires Intact(h, hmac, key) && HashesSeparate(h, hmac, key) && forall r | r in h :: WellFormedRecord(r)
    requires -1 <= last < |h| && n < |h|
    ensures RecordErrors(cid, h[n], HashBefore(h, last), Known(Num(last + 1)), hmac, key)
         == if n == last + 1 then []
            else BreakPair(cid, n, last)
  {
    MemberLink(h, n, last, hmac, key);
    IntactAt(h, n, hmac, key);
  }

  lemma MemberIndex(h: seq<Value>, r: Value, hmac: Hmac, key: Text) returns (n: nat)
    requires Intact(h, hmac, key) && r in h
    ensures n < |h| && h[n] == r && SeqOf(r) == Num(n)
  {
    n :| 0 <= n < |h| && h[n] == r;
    IntactAt(h, n, hmac, key);
  }

  lemma NumbersFirst(recs: seq<Value>)
    requires recs != []
    ensures Numbers(recs) != [] && Numbers(recs)[0] == SeqNumber(recs[0]) && Numbers(recs)[1..] == Numbers(recs[1..])
  {
  }

  lemma WalkMember(cid: Value, h: seq<Value>, recs: seq<Value>, n: nat, last: int, hmac: Hmac, key: Text)
    requires Intact(h, hmac, key) && HashesSeparate(h, hmac, key) && forall r | r in h :: WellFormedRecord(r)
    requires -1 <= last < |h| && n < |h| && recs != [] && recs[0] == h[n] && SeqOf(h[n]) == Num(n)
    requires Walk(cid, recs[1..], HashBefore(h, n), Known(Num(n + 1)), hmac, key)
          == BreakErrors(cid, Numbers(recs[1..]), n)
    ensures Walk(cid, recs, HashBefore(h, last), Known(Num(last + 1)), hmac, key)
         == BreakErrors(cid, Numbers(recs), last)
  {
    MemberErrors(cid, h, n, last, hmac, key);
    IntactAt(h, n, hmac, key);
    NumbersFirst(recs);
    WalkLinked(cid, recs, HashBefore(h, last), Known(Num(last + 1)), n, HashBefore(h, n), hmac, key);
    BreakFirst(cid, Numbers(recs), last);
  }

  lemma BreakFirst(cid: Value, ns: seq<int>, last: int)
    requires ns != []
    ensures BreakErrors(cid, ns, last)
         == (if ns[0] == last + 1 then [] else BreakPair(cid, ns[0], last)) + BreakErrors(cid, ns[1..], ns[0])
  {
  }

  lemma {:induction false} WalkMembers(cid: Value, h: seq<Value>, recs: seq<Value>, last: int, hmac: Hmac, key: Text)
    requires Intact(h, hmac, key) && HashesSeparate(h, hmac, key) && forall r | r in h :: WellFormedRecord(r)
    requires -1 <= last < |h| && forall r | r in recs :: r in h
    ensures Walk(cid, recs, HashBefore(h, last), Known(Num(last + 1)), hmac, key)
         == BreakErrors(cid, Numbers(recs), last)
  {
    if recs != [] {
      var n := MemberIndex(h, recs[0], hmac, key);
      WalkMembers(cid, h, recs[1..], n, hmac, key);
      WalkMember(cid, h, recs, n, last, hmac, key);
    }
  }

  lemma SortedBreaks(log: seq<Value>, h: seq<Value>, hmac: Hmac, key: Text)
    requires Intact(h, hmac, key) && forall r | r in log :: r in h
    ensures var kept := Kept(Numbers(log));
            && |kept| <= |log|
            && Breaks(Numbers(StableSort(log)), -1) == |GapEnds(kept)| + (|log| - |kept|)
  {
    var sorted := StableSort(log);
    StableSortFacts(log);
    SameElements(sorted, log);
    forall i | 0 <= i < |sorted|
      ensures Numbers(sorted)[i] >= 0
    {
      assert sorted[i] in sorted;
      var n := MemberIndex(h, sorted[i], hmac, key);
    }
    BreaksCount(Numbers(sorted));
    SameKept(sorted, log);
  }

  /**
   Error accounting: any selection of records of an honest chain, with any number of copies, yields
   a pair of errors at the first record after every gap and at every surplus copy, and no others.
   Records missing from the end are not noticed.
   */
  lemma ErrorAccounting(log: seq<Value>, h: seq<Value>, cid: Value, hmac: Hmac, key: Text)
    requires Intact(h, hmac, key) && HashesSeparate(h, hmac, key) && OneChain(h, cid)
    requires h != [] && forall r | r in log :: r in h
    ensures var kept := Kept(Numbers(log));
            && |kept| <= |log|
            && ErrorsOf(log, hmac, key) == BreakErrors(cid, Numbers(StableSort(log)), -1)
            && |ErrorsOf(log, hmac, key)| == 2 * (|GapEnds(kept)| + (|log| - |kept|))
  {
    StableSortFacts(log);
    SameElements(StableSort(log), log);
    OneChainErrors(log, cid, hmac, key);
    WalkMembers(cid, h, StableSort(log), -1, hmac, key);
    SortedBreaks(log, h, hmac, key);
  }

  lemma SameKept(a: seq<Value>, b: seq<Value>)
    requires forall r :: r in a <==> r in b
    ensures Kept(Numbers(a)) == Kept(Numbers(b))
  {
    KeptSubset(a, b);
    KeptSubset(b, a);
  }

  lemma KeptSubset(a: seq<Value>, b: seq<Value>)
    requires forall r | r in a :: r in b
    ensures Kept(Numbers(a)) <= Kept(Numbers(b))
  {
    forall n | n in Kept(Numbers(a))
      ensures n in Numbers(b)
    {
      var i :| 0 <= i < |a| && Numbers(a)[i] == n;
      assert a[i] in b;
      var j :| 0 <= j < |b| && b[j] == a[i];
      assert Numbers(b)[j] == n;
    }
  }
}
