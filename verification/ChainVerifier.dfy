/**
 `verifyChain`: records are grouped by chain, each group is sorted by `seq` and walked with a
 running expectation. `ok` is shown to mean that every chain can be arranged into an intact one.
 */
module ChainVerifier {
  import opened JsText
  import opened JsValues
  import opened AuditRecords

  datatype Expected = Known(value: Value) | NotANumber

  datatype Reason = BadSeq(expected: Expected) | BrokenLink | HashMismatch

  datatype ChainError = ChainError(chainId: Value, seqValue: Value, reason: Reason)

  datatype Group = Group(chainId: Value, recs: seq<Value>)

  // ----- The walk along one sorted group -----

  /** `v + 1`: a string, array or object is concatenated with "1". */
  function PlusOne(v: Value): Expected {
    match v
    case Undefined => NotANumber
    case Null => Known(Num(1))
    case Bool(b) => Known(Num(if b then 2 else 1))
    case Num(n) => Known(Num(n + 1))
    case _ => Known(Str(ToText(v) + Ascii("1")))
  }

  function RecordErrors(cid: Value, r: Value, prev: Value, next: Expected, hmac: Hmac, key: Text): seq<ChainError> {
    (if next.Known? && StrictEq(SeqOf(r), next.value) then [] else [ChainError(cid, SeqOf(r), BadSeq(next))])
    + (if StrictEq(PrevOf(r), prev) then [] else [ChainError(cid, SeqOf(r), BrokenLink)])
    + (if HashVerifies(r, hmac, key) then [] else [ChainError(cid, SeqOf(r), HashMismatch)])
  }

  predicate ErrorIn(e: ChainError, r: Value, prev: Value, next: Expected, hmac: Hmac, key: Text) {
    && e.seqValue == Field(r, Ascii("seq"))
    && match e.reason
       case BadSeq(expected) => expected == next && !(next.Known? && StrictEq(Field(r, Ascii("seq")), next.value))
       case BrokenLink => !StrictEq(Field(r, Ascii("prevHash")), prev)
       case HashMismatch => Field(r, Ascii("hash")) != Str(hmac(key, Signed(r)))
  }

  /** The three comparisons of one record, each with its error, in the order in which they are reported. */
  lemma RecordErrorsExactly(cid: Value, r: Value, prev: Value, next: Expected, hmac: Hmac, key: Text, e: ChainError)
    ensures var errors := RecordErrors(cid, r, prev, next, hmac, key);
            (e in errors <==> e.chainId == cid && ErrorIn(e, r, prev, next, hmac, key)) && InOrder(errors)
  {
    assert HashVerifies(r, hmac, key) <==> Field(r, Ascii("hash")) == Str(hmac(key, Signed(r)));
    ThreeErrors(SeqOf(r), cid, next,
      next.Known? && StrictEq(SeqOf(r), next.value), StrictEq(PrevOf(r), prev), HashVerifies(r, hmac, key), e);
  }

  predicate InOrder(errors: seq<ChainError>) {
    && (forall i, j | 0 <= i < j < |errors| :: !errors[i].reason.HashMismatch? && !errors[j].reason.BadSeq?)
    && (forall i, j | 0 <= i < j < |errors| :: errors[i] != errors[j])
  }

  lemma ThreeErrors(s: Value, cid: Value, next: Expected, a: bool, b: bool, c: bool, e: ChainError)
    ensures var errors := (if a then [] else [ChainError(cid, s, BadSeq(next))])
                          + (if b then [] else [ChainError(cid, s, BrokenLink)])
                          + (if c then [] else [ChainError(cid, s, HashMismatch)]);
            && InOrder(errors)
            && (e in errors <==>
                  || (!a && e == ChainError(cid, s, BadSeq(next))) || (!b && e == ChainError(cid, s, BrokenLink))
                  || (!c && e == ChainError(cid, s, HashMismatch)))
  {
  }

  /** What `seq + 1` is for the values of `seq` that are no numbers. */
  lemma PlusOneOfOthers(s: Text)
    ensures PlusOne(Undefined) == NotANumber && PlusOne(Null) == Known(Num(1))
    ensures PlusOne(Bool(false)) == Known(Num(1)) && PlusOne(Bool(true)) == Known(Num(2))
    ensures PlusOne(Str(s)) == Known(Str(s + Ascii("1")))
  {
  }

  /** After every record the walk expects what that record announces, right or wrong. */
  function Walk(cid: Value, recs: seq<Value>, prev: Value, next: Expected, hmac: Hmac, key: Text): seq<ChainError> {
    if recs == [] then []
    else
      RecordErrors(cid, recs[0], prev, next, hmac, key)
      + Walk(cid, recs[1..], HashOf(recs[0]), PlusOne(SeqOf(recs[0])), hmac, key)
  }

  function WalkGroup(g: Group, hmac: Hmac, key: Text): seq<ChainError> {
    Walk(g.chainId, g.recs, Str(GENESIS), Known(Num(0)), hmac, key)
  }

  function WalkGroups(gs: seq<Group>, hmac: Hmac, key: Text): seq<ChainError> {
    if gs == [] then [] else WalkGroup(gs[0], hmac, key) + WalkGroups(gs[1..], hmac, key)
  }

  // ----- Grouping -----

  /** The group whose key is identical to `cid`, or the number of groups when there is none. */
  function GroupIndex(gs: seq<Group>, cid: Value): (at: nat)
    ensures at <= |gs|
    ensures at < |gs| ==> StrictEq(gs[at].chainId, cid)
    ensures forall i | 0 <= i < at :: !StrictEq(gs[i].chainId, cid)
  {
    if gs == [] || StrictEq(gs[0].chainId, cid) then 0 else 1 + GroupIndex(gs[1..], cid)
  }

  /** `if (!byChain.has(id)) byChain.set(id, []); byChain.get(id).push(r)`. */
  function AddToGroups(gs: seq<Group>, r: Value): seq<Group> {
    var at := GroupIndex(gs, ChainId(r));
    if at < |gs| then gs[at := Group(gs[at].chainId, gs[at].recs + [r])] else gs + [Group(ChainId(r), [r])]
  }

  /** The groups in order of first appearance; records of another category are skipped. */
  function GroupsOf(records: seq<Value>): seq<Group> {
    if records == [] then []
    else
      var gs := GroupsOf(records[..|records| - 1]);
      var r := records[|records| - 1];
      if IsAudit(r) then AddToGroups(gs, r) else gs
  }

  function AuditRecordsIn(records: seq<Value>): (audits: seq<Value>)
    ensures forall r :: r in audits <==> r in records && IsAudit(r)
  {
    if records == [] then []
    else
      var rest := AuditRecordsIn(records[..|records| - 1]);
      var r := records[|records| - 1];
      assert records == records[..|records| - 1] + [r];
      if IsAudit(r) then rest + [r] else rest
  }

  /** The audit records of one chain, in input order. */
  function ChainOf(records: seq<Value>, cid: Value): (chain: seq<Value>)
    ensures forall r :: r in chain <==> r in records && IsAudit(r) && StrictEq(cid, ChainId(r))
  {
    if records == [] then []
    else
      var rest := ChainOf(records[..|records| - 1], cid);
      var r := records[|records| - 1];
      assert records == records[..|records| - 1] + [r];
      if IsAudit(r) && StrictEq(cid, ChainId(r)) then rest + [r] else rest
  }

  // ----- Sorting -----

  predicate AllNumbered(recs: seq<Value>) {
    forall r | r in recs :: SeqOf(r).Num?
  }

  function SeqNumber(r: Value): int {
    if SeqOf(r).Num? then SeqOf(r).n else 0
  }

  function InsertBySeq(r: Value, recs: seq<Value>): seq<Value> {
    if recs == [] || SeqNumber(r) <= SeqNumber(recs[0]) then [r] + recs
    else [recs[0]] + InsertBySeq(r, recs[1..])
  }

  function StableSort(recs: seq<Value>): seq<Value> {
    if recs == [] then [] else InsertBySeq(recs[0], StableSort(recs[1..]))
  }

  /**
   What `recs.sort((a, b) => a.seq - b.seq)` guarantees: the stable order when every `seq` is a
   number, some rearrangement when a comparison may be NaN.
   */
  ghost predicate Sorts(recs: seq<Value>, out: seq<Value>) {
    multiset(out) == multiset(recs) && (AllNumbered(recs) ==> out == StableSort(recs))
  }

  ghost predicate Ascends(recs: seq<Value>) {
    forall i, j | 0 <= i < j < |recs| :: SeqNumber(recs[i]) <= SeqNumber(recs[j])
  }

  lemma {:induction false} InsertBySeqElements(r: Value, recs: seq<Value>)
    ensures multiset(InsertBySeq(r, recs)) == multiset(recs) + multiset{r}
  {
    if recs != [] && SeqNumber(r) > SeqNumber(recs[0]) {
      InsertBySeqElements(r, recs[1..]);
      assert recs == [recs[0]] + recs[1..];
    }
  }

  lemma PutFront(r: Value, recs: seq<Value>)
    requires Ascends(recs) && forall x | x in recs :: SeqNumber(r) <= SeqNumber(x)
    ensures Ascends([r] + recs)
  {
  }

  lemma {:induction false} InsertBySeqAscends(r: Value, recs: seq<Value>)
    requires Ascends(recs)
    ensures Ascends(InsertBySeq(r, recs))
    ensures forall x | x in InsertBySeq(r, recs) :: x == r || x in recs
  {
    if recs != [] && SeqNumber(r) > SeqNumber(recs[0]) {
      InsertBySeqAscends(r, recs[1..]);
      PutFront(recs[0], InsertBySeq(r, recs[1..]));
    } else {
      PutFront(r, recs);
    }
  }

  lemma {:induction false} StableSortFacts(recs: seq<Value>)
    ensures multiset(StableSort(recs)) == multiset(recs)
    ensures Ascends(StableSort(recs))
  {
    if recs != [] {
      StableSortFacts(recs[1..]);
      InsertBySeqElements(recs[0], StableSort(recs[1..]));
      InsertBySeqAscends(recs[0], StableSort(recs[1..]));
      assert recs == [recs[0]] + recs[1..];
    }
  }

  // ----- Intact chains -----

  /** Record `r` carries number `n`, points at `prev`, and its hash verifies. */
  predicate Link(r: Value, prev: Value, n: int, hmac: Hmac, key: Text) {
    SeqOf(r) == Num(n) && PrevOf(r) == prev && HashVerifies(r, hmac, key)
  }

  /** From `n` on: numbered without a gap, linked to `prev` and to each other, every hash verifying. */
  ghost predicate IntactFrom(recs: seq<Value>, prev: Value, n: int, hmac: Hmac, key: Text) {
    forall i | 0 <= i < |recs| :: LinkAt(recs, i, prev, n, hmac, key)
  }

  predicate LinkAt(recs: seq<Value>, i: nat, prev: Value, n: int, hmac: Hmac, key: Text)
    requires i < |recs|
  {
    Link(recs[i], if i == 0 then prev else HashOf(recs[i - 1]), n + i, hmac, key)
  }

  ghost predicate Intact(recs: seq<Value>, hmac: Hmac, key: Text) {
    IntactFrom(recs, Str(GENESIS), 0, hmac, key)
  }

  ghost predicate Arrangeable(recs: seq<Value>, hmac: Hmac, key: Text) {
    exists chain: seq<Value> :: multiset(chain) == multiset(recs) && Intact(chain, hmac, key)
  }

  predicate Keyless(cid: Value) {
    cid.Arr? || cid.Obj?
  }

  /**
   The declarative meaning of `ok`. A chain id that is an array or object is never identical to
   another one, so each such record is a chain by itself.
   */
  ghost predicate Accepts(records: seq<Value>, hmac: Hmac, key: Text) {
    && (forall cid | !Keyless(cid) :: Arrangeable(ChainOf(records, cid), hmac, key))
    && (forall r | r in records && IsAudit(r) && Keyless(ChainId(r)) :: Arrangeable([r], hmac, key))
  }

  lemma IntactStep(recs: seq<Value>, prev: Value, n: int, hmac: Hmac, key: Text)
    requires recs != []
    ensures IntactFrom(recs, prev, n, hmac, key)
       <==> Link(recs[0], prev, n, hmac, key) && IntactFrom(recs[1..], HashOf(recs[0]), n + 1, hmac, key)
  {
    var tail, first, second := recs[1..], HashOf(recs[0]), n + 1;
    if IntactFrom(recs, prev, n, hmac, key) {
      forall i | 0 <= i < |tail|
        ensures LinkAt(tail, i, first, second, hmac, key)
      {
        assert LinkAt(recs, i + 1, prev, n, hmac, key);
      }
      assert LinkAt(recs, 0, prev, n, hmac, key);
    }
    if LinkAt(recs, 0, prev, n, hmac, key) && IntactFrom(tail, HashOf(recs[0]), n + 1, hmac, key) {
      forall i | 0 < i < |recs|
        ensures LinkAt(recs, i, prev, n, hmac, key)
      {
        assert LinkAt(tail, i - 1, HashOf(recs[0]), n + 1, hmac, key);
      }
    }
  }

  lemma NoRecordErrors(cid: Value, r: Value, prev: Value, n: int, hmac: Hmac, key: Text)
    requires prev.Str?
    ensures RecordErrors(cid, r, prev, Known(Num(n)), hmac, key) == [] <==> Link(r, prev, n, hmac, key)
  {
  }

  lemma {:induction false} WalkIntact(cid: Value, recs: seq<Value>, prev: Value, n: int, hmac: Hmac, key: Text)
    requires prev.Str?
    ensures Walk(cid, recs, prev, Known(Num(n)), hmac, key) == [] <==> IntactFrom(recs, prev, n, hmac, key)
  {
    if recs != [] {
      NoRecordErrors(cid, recs[0], prev, n, hmac, key);
      IntactStep(recs, prev, n, hmac, key);
      if Link(recs[0], prev, n, hmac, key) {
        assert HashOf(recs[0]).Str?;
        WalkIntact(cid, recs[1..], HashOf(recs[0]), n + 1, hmac, key);
      }
    }
  }

  lemma SameElements<T>(a: seq<T>, b: seq<T>)
    requires multiset(a) == multiset(b)
    ensures |a| == |b| && forall x :: x in a <==> x in b
  {
    assert |multiset(a)| == |multiset(b)|;
    forall x
      ensures x in a <==> x in b
    {
      assert x in a <==> x in multiset(a);
      assert x in b <==> x in multiset(b);
    }
  }

  /** A chain numbered from `n` is the only ascending arrangement of its records. */
  lemma SameLeast(chain: seq<Value>, sorted: seq<Value>, n: int)
    requires (forall x :: x in chain <==> x in sorted) && Ascends(sorted) && chain != [] && sorted != []
    requires forall i | 0 <= i < |chain| :: SeqOf(chain[i]) == Num(n + i)
    ensures chain[0] == sorted[0]
  {
    assert chain[0] in sorted && sorted[0] in chain;
    var j :| 0 <= j < |chain| && chain[j] == sorted[0];
    var k :| 0 <= k < |sorted| && sorted[k] == chain[0];
    assert SeqNumber(sorted[0]) <= SeqNumber(sorted[k]);
    assert SeqNumber(chain[j]) == n + j && SeqNumber(chain[0]) == n + 0;
  }

  lemma {:induction false} AscendingUnique(chain: seq<Value>, sorted: seq<Value>, n: int)
    requires multiset(chain) == multiset(sorted) && Ascends(sorted)
    requires forall i | 0 <= i < |chain| :: SeqOf(chain[i]) == Num(n + i)
    ensures chain == sorted
  {
    SameElements(chain, sorted);
    if chain != [] {
      SameLeast(chain, sorted, n);
      RestElements(chain, sorted);
      AscendingUnique(chain[1..], sorted[1..], n + 1);
      assert chain == [chain[0]] + chain[1..] && sorted == [sorted[0]] + sorted[1..];
    }
  }

  lemma RestElements<T>(a: seq<T>, b: seq<T>)
    requires multiset(a) == multiset(b) && a != [] && b != [] && a[0] == b[0]
    ensures multiset(a[1..]) == multiset(b[1..])
  {
    assert a == [a[0]] + a[1..] && b == [b[0]] + b[1..];
    assert multiset(a[1..]) == multiset(a) - multiset{a[0]};
    assert multiset(b[1..]) == multiset(b) - multiset{b[0]};
  }

  lemma IntactNumbered(chain: seq<Value>, hmac: Hmac, key: Text)
    requires Intact(chain, hmac, key)
    ensures forall i | 0 <= i < |chain| :: SeqOf(chain[i]) == Num(i)
    ensures AllNumbered(chain)
  {
    forall i | 0 <= i < |chain|
      ensures SeqOf(chain[i]) == Num(i)
    {
      assert LinkAt(chain, i, Str(GENESIS), 0, hmac, key);
    }
  }

  lemma ArrangedIsSorted(recs: seq<Value>, chain: seq<Value>, out: seq<Value>, hmac: Hmac, key: Text)
    requires multiset(chain) == multiset(recs) && Intact(chain, hmac, key) && Sorts(recs, out)
    ensures out == chain
  {
    IntactNumbered(chain, hmac, key);
    SameElements(chain, recs);
    StableSortFacts(recs);
    AscendingUnique(chain, out, 0);
  }

  lemma SortedWalkAccepts(cid: Value, recs: seq<Value>, out: seq<Value>, hmac: Hmac, key: Text)
    requires Sorts(recs, out)
    ensures WalkGroup(Group(cid, out), hmac, key) == [] <==> Arrangeable(recs, hmac, key)
  {
    WalkIntact(cid, out, Str(GENESIS), 0, hmac, key);
    if Arrangeable(recs, hmac, key) {
      var chain: seq<Value> :| multiset(chain) == multiset(recs) && Intact(chain, hmac, key);
      ArrangedIsSorted(recs, chain, out, hmac, key);
    } else {
      assert !(multiset(out) == multiset(recs) && Intact(out, hmac, key));
    }
  }

  // ----- What the groups contain -----

  /** Group `g` holds what it should: a whole chain, or the single record of an unshareable chain id. */
  ghost predicate GroupHolds(g: Group, records: seq<Value>) {
    if Keyless(g.chainId) then
      |g.recs| == 1 && g.recs[0] in records && IsAudit(g.recs[0]) && ChainId(g.recs[0]) == g.chainId
    else g.recs == ChainOf(records, g.chainId)
  }

  ghost predicate HasGroup(gs: seq<Group>, r: Value) {
    exists i :: 0 <= i < |gs| && gs[i].chainId == ChainId(r) && r in gs[i].recs
  }

  ghost predicate DifferentChains(gs: seq<Group>) {
    forall i, j | 0 <= i < j < |gs| :: !StrictEq(gs[i].chainId, gs[j].chainId)
  }

  ghost predicate GroupsFor(gs: seq<Group>, records: seq<Value>) {
    && (forall i | 0 <= i < |gs| :: GroupHolds(gs[i], records))
    && (forall r | r in records && IsAudit(r) :: HasGroup(gs, r))
    && DifferentChains(gs)
  }

  lemma OtherGroupHolds(g: Group, before: seq<Value>, r: Value)
    requires GroupHolds(g, before) && (IsAudit(r) ==> !StrictEq(g.chainId, ChainId(r)))
    ensures GroupHolds(g, before + [r])
  {
    assert (before + [r])[..|before|] == before;
  }

  lemma ChangedGroupHolds(g: Group, before: seq<Value>, r: Value)
    requires GroupHolds(g, before) && IsAudit(r) && StrictEq(g.chainId, ChainId(r))
    ensures GroupHolds(Group(g.chainId, g.recs + [r]), before + [r])
  {
    assert (before + [r])[..|before|] == before;
  }

  lemma EmptyOrMember<T>(s: seq<T>)
    ensures s == [] || exists x :: x in s
  {
    if s != [] {
      assert s[0] in s;
    }
  }

  lemma NewGroupHolds(gs: seq<Group>, before: seq<Value>, r: Value)
    requires GroupsFor(gs, before) && IsAudit(r)
    requires forall i | 0 <= i < |gs| :: !StrictEq(gs[i].chainId, ChainId(r))
    ensures GroupHolds(Group(ChainId(r), [r]), before + [r])
  {
    assert (before + [r])[..|before|] == before;
    assert forall x | x in ChainOf(before, ChainId(r)) :: HasGroup(gs, x);
    EmptyOrMember(ChainOf(before, ChainId(r)));
  }

  lemma AddedGroupsFor(gs: seq<Group>, before: seq<Value>, r: Value)
    requires GroupsFor(gs, before) && IsAudit(r)
    ensures GroupsFor(AddToGroups(gs, r), before + [r])
  {
    var at := GroupIndex(gs, ChainId(r));
    var more := AddToGroups(gs, r);
    forall i | 0 <= i < |more|
      ensures GroupHolds(more[i], before + [r])
    {
      if i == |gs| {
        NewGroupHolds(gs, before, r);
      } else if i == at {
        ChangedGroupHolds(gs[i], before, r);
      } else {
        OtherGroupHolds(gs[i], before, r);
      }
    }
    forall x | x in before + [r] && IsAudit(x)
      ensures HasGroup(more, x)
    {
      AddedHasGroup(gs, r, x);
    }
  }

  lemma AddedHasGroup(gs: seq<Group>, r: Value, x: Value)
    requires x == r || HasGroup(gs, x)
    ensures HasGroup(AddToGroups(gs, r), x)
  {
    var at := GroupIndex(gs, ChainId(r));
    var more := AddToGroups(gs, r);
    if x == r {
      assert more[at].chainId == ChainId(x) && x in more[at].recs;
    } else {
      var i :| 0 <= i < |gs| && gs[i].chainId == ChainId(x) && x in gs[i].recs;
      assert more[i].chainId == ChainId(x) && x in more[i].recs;
    }
  }

  lemma {:induction false} GroupsOfFor(records: seq<Value>)
    ensures GroupsFor(GroupsOf(records), records)
  {
    if records != [] {
      var before := records[..|records| - 1];
      var r := records[|records| - 1];
      var gs := GroupsOf(before);
      GroupsOfFor(before);
      assert records == before + [r];
      if IsAudit(r) {
        AddedGroupsFor(gs, before, r);
      } else {
        forall i | 0 <= i < |gs|
          ensures GroupHolds(gs[i], records)
        {
          OtherGroupHolds(gs[i], before, r);
        }
      }
    }
  }

  /** Group `i` was opened by the record at `at[i]`, and no earlier record belongs to its chain. */
  ghost predicate Opened(gs: seq<Group>, records: seq<Value>, at: seq<nat>) {
    && |at| == |gs| && (forall i, j | 0 <= i < j < |at| :: at[i] < at[j])
    && (forall i | 0 <= i < |gs| ::
          && at[i] < |records| && gs[i].recs != [] && gs[i].recs[0] == records[at[i]] && IsAudit(records[at[i]])
          && gs[i].chainId == ChainId(records[at[i]]))
    && (forall i, k | 0 <= i < |gs| && 0 <= k < at[i] && IsAudit(records[k]) ::
          !StrictEq(gs[i].chainId, ChainId(records[k])))
  }

  lemma OpenedMore(gs: seq<Group>, before: seq<Value>, at: seq<nat>, r: Value)
    requires Opened(gs, before, at)
    ensures Opened(gs, before + [r], at)
  {
  }

  lemma OpenedPush(gs: seq<Group>, records: seq<Value>, at: seq<nat>, i: nat, r: Value)
    requires Opened(gs, records, at) && i < |gs|
    ensures Opened(gs[i := Group(gs[i].chainId, gs[i].recs + [r])], records, at)
  {
  }

  lemma OpenedNew(gs: seq<Group>, before: seq<Value>, at: seq<nat>, r: Value)
    requires Opened(gs, before, at) && IsAudit(r)
    requires forall k | 0 <= k < |before| && IsAudit(before[k]) :: !StrictEq(ChainId(r), ChainId(before[k]))
    ensures Opened(gs + [Group(ChainId(r), [r])], before + [r], at + [|before|])
  {
  }

  /** The groups stand in the order in which their chains first appear, which is the order of the errors. */
  lemma {:induction false} GroupsInOrder(records: seq<Value>) returns (at: seq<nat>)
    ensures Opened(GroupsOf(records), records, at)
  {
    at := [];
    if records != [] {
      var before, r := records[..|records| - 1], records[|records| - 1];
      var gs := GroupsOf(before);
      at := GroupsInOrder(before);
      assert records == before + [r];
      OpenedMore(gs, before, at, r);
      if IsAudit(r) {
        var i := GroupIndex(gs, ChainId(r));
        if i < |gs| {
          OpenedPush(gs, records, at, i, r);
        } else {
          NotYetOpened(gs, before, r);
          OpenedNew(gs, before, at, r);
          at := at + [|before|];
        }
      }
    }
  }

  lemma NotYetOpened(gs: seq<Group>, before: seq<Value>, r: Value)
    requires gs == GroupsOf(before) && GroupIndex(gs, ChainId(r)) == |gs|
    ensures forall k | 0 <= k < |before| && IsAudit(before[k]) :: !StrictEq(ChainId(r), ChainId(before[k]))
  {
    GroupsOfFor(before);
    forall k | 0 <= k < |before| && IsAudit(before[k])
      ensures !StrictEq(ChainId(r), ChainId(before[k]))
    {
      assert HasGroup(gs, before[k]);
    }
  }

  lemma {:induction false} WalkGroupsEmpty(gs: seq<Group>, hmac: Hmac, key: Text)
    ensures WalkGroups(gs, hmac, key) == [] <==> forall i | 0 <= i < |gs| :: WalkGroup(gs[i], hmac, key) == []
  {
    if gs != [] {
      WalkGroupsEmpty(gs[1..], hmac, key);
      assert gs == [gs[0]] + gs[1..];
    }
  }

  /** The sorted version of each group, group by group. */
  ghost predicate SortsEach(gs: seq<Group>, out: seq<Group>) {
    |out| == |gs| && forall i | 0 <= i < |gs| :: out[i].chainId == gs[i].chainId && Sorts(gs[i].recs, out[i].recs)
  }

  ghost predicate EachArrangeable(gs: seq<Group>, hmac: Hmac, key: Text) {
    forall i | 0 <= i < |gs| :: Arrangeable(gs[i].recs, hmac, key)
  }

  lemma WholeChainArrangeable(gs: seq<Group>, records: seq<Value>, cid: Value, hmac: Hmac, key: Text)
    requires GroupsFor(gs, records) && EachArrangeable(gs, hmac, key) && !Keyless(cid)
    ensures Arrangeable(ChainOf(records, cid), hmac, key)
  {
    var chain := ChainOf(records, cid);
    if chain == [] {
      assert multiset(chain) == multiset(chain) && Intact(chain, hmac, key);
    } else {
      var r := chain[0];
      assert r in records && HasGroup(gs, r);
      var i :| 0 <= i < |gs| && gs[i].chainId == ChainId(r) && r in gs[i].recs;
      assert GroupHolds(gs[i], records);
    }
  }

  lemma LoneRecordArrangeable(gs: seq<Group>, records: seq<Value>, r: Value, hmac: Hmac, key: Text)
    requires GroupsFor(gs, records) && EachArrangeable(gs, hmac, key)
    requires r in records && IsAudit(r) && Keyless(ChainId(r))
    ensures Arrangeable([r], hmac, key)
  {
    assert HasGroup(gs, r);
    var i :| 0 <= i < |gs| && gs[i].chainId == ChainId(r) && r in gs[i].recs;
    assert GroupHolds(gs[i], records) && Arrangeable(gs[i].recs, hmac, key);
    Singleton(gs[i].recs, r);
  }

  lemma Singleton<T>(s: seq<T>, x: T)
    requires |s| == 1 && x in s
    ensures s == [x]
  {
  }

  lemma GroupsAccept(gs: seq<Group>, records: seq<Value>, hmac: Hmac, key: Text)
    requires GroupsFor(gs, records) && EachArrangeable(gs, hmac, key)
    ensures Accepts(records, hmac, key)
  {
    forall cid | !Keyless(cid) {
      WholeChainArrangeable(gs, records, cid, hmac, key);
    }
    forall r | r in records && IsAudit(r) && Keyless(ChainId(r)) {
      LoneRecordArrangeable(gs, records, r, hmac, key);
    }
  }

  lemma AcceptsGroups(gs: seq<Group>, records: seq<Value>, hmac: Hmac, key: Text)
    requires GroupsFor(gs, records) && Accepts(records, hmac, key)
    ensures EachArrangeable(gs, hmac, key)
  {
    forall i | 0 <= i < |gs|
      ensures Arrangeable(gs[i].recs, hmac, key)
    {
      AcceptedGroup(gs[i], records, hmac, key);
    }
  }

  lemma AcceptedGroup(g: Group, records: seq<Value>, hmac: Hmac, key: Text)
    requires GroupHolds(g, records) && Accepts(records, hmac, key)
    ensures Arrangeable(g.recs, hmac, key)
  {
    if Keyless(g.chainId) {
      assert g.recs == [g.recs[0]];
    }
  }

  lemma NoErrorsAccepts(records: seq<Value>, out: seq<Group>, hmac: Hmac, key: Text)
    requires SortsEach(GroupsOf(records), out)
    ensures WalkGroups(out, hmac, key) == [] <==> Accepts(records, hmac, key)
  {
    var gs := GroupsOf(records);
    GroupsOfFor(records);
    WalkGroupsEmpty(out, hmac, key);
    forall i | 0 <= i < |gs|
      ensures WalkGroup(out[i], hmac, key) == [] <==> Arrangeable(gs[i].recs, hmac, key)
    {
      SortedWalkAccepts(gs[i].chainId, gs[i].recs, out[i].recs, hmac, key);
    }
    if EachArrangeable(gs, hmac, key) {
      GroupsAccept(gs, records, hmac, key);
    }
    if Accepts(records, hmac, key) {
      AcceptsGroups(gs, records, hmac, key);
    }
  }

  // ----- verifyChain -----

  /** The error list when every audit record has a numeric `seq`. */
  function ErrorsOf(records: seq<Value>, hmac: Hmac, key: Text): seq<ChainError> {
    WalkGroups(SortedGroups(GroupsOf(records)), hmac, key)
  }

  function SortedGroups(gs: seq<Group>): seq<Group> {
    if gs == [] then [] else [gs[0].(recs := StableSort(gs[0].recs))] + SortedGroups(gs[1..])
  }

  lemma {:induction false} SortedGroupsUnique(gs: seq<Group>, out: seq<Group>)
    requires SortsEach(gs, out)
    requires forall i | 0 <= i < |gs| :: AllNumbered(gs[i].recs)
    ensures out == SortedGroups(gs)
  {
    if gs != [] {
      SortedGroupsUnique(gs[1..], out[1..]);
      assert out == [out[0]] + out[1..];
    }
  }

  lemma {:induction false} WalkGroupsAppend(gs: seq<Group>, g: Group, hmac: Hmac, key: Text)
    ensures WalkGroups(gs + [g], hmac, key) == WalkGroups(gs, hmac, key) + WalkGroup(g, hmac, key)
  {
    if gs == [] {
      assert gs + [g] == [g] && [g][1..] == [];
    } else {
      WalkGroupsAppend(gs[1..], g, hmac, key);
      assert (gs + [g])[1..] == gs[1..] + [g];
      AppendAssoc(WalkGroup(gs[0], hmac, key), WalkGroups(gs[1..], hmac, key), WalkGroup(g, hmac, key));
    }
  }

  /** The records numbered `n`, in their order. */
  function WithSeq(recs: seq<Value>, n: int): seq<Value> {
    if recs == [] then [] else (if SeqNumber(recs[0]) == n then [recs[0]] else []) + WithSeq(recs[1..], n)
  }

  lemma {:induction false} InsertStable(r: Value, recs: seq<Value>, n: int)
    ensures WithSeq(InsertBySeq(r, recs), n) == WithSeq([r] + recs, n)
  {
    assert ([r] + recs)[1..] == recs;
    if recs != [] && SeqNumber(r) > SeqNumber(recs[0]) {
      var more := InsertBySeq(r, recs[1..]);
      InsertStable(r, recs[1..], n);
      assert ([recs[0]] + more)[1..] == more && ([r] + recs[1..])[1..] == recs[1..];
    }
  }

  /** Records with the same number keep their order. */
  lemma {:induction false} SortStable(recs: seq<Value>, n: int)
    ensures WithSeq(StableSort(recs), n) == WithSeq(recs, n)
  {
    if recs != [] {
      var more := StableSort(recs[1..]);
      SortStable(recs[1..], n);
      InsertStable(recs[0], more, n);
      assert ([recs[0]] + more)[1..] == more;
    }
  }

  method SortBySeq(recs: seq<Value>) returns (out: seq<Value>)
    ensures Sorts(recs, out)
    ensures AllNumbered(recs) ==> Ascends(out) && forall n :: WithSeq(out, n) == WithSeq(recs, n)
  {
    StableSortFacts(recs);
    forall n
      ensures WithSeq(StableSort(recs), n) == WithSeq(recs, n)
    {
      SortStable(recs, n);
    }
    out := StableSort(recs);
  }

  method VerifyRecord(cid: Value, r: Value, expectedPrev: Value, expectedSeq: Expected, hmac: Hmac, key: Text)
    returns (errors: seq<ChainError>)
    ensures errors == RecordErrors(cid, r, expectedPrev, expectedSeq, hmac, key)
    ensures expectedPrev.Str? && expectedSeq.Known? && expectedSeq.value.Num? ==>
              (errors == [] <==> Link(r, expectedPrev, expectedSeq.value.n, hmac, key))
  {
    errors := [];
    if !(expectedSeq.Known? && StrictEq(SeqOf(r), expectedSeq.value)) {
      errors := errors + [ChainError(cid, SeqOf(r), BadSeq(expectedSeq))];
    }
    if !StrictEq(PrevOf(r), expectedPrev) {
      errors := errors + [ChainError(cid, SeqOf(r), BrokenLink)];
    }
    var recomputed := ComputeHash(Rest(r), hmac, key);
    if Str(recomputed) != HashOf(r) {
      errors := errors + [ChainError(cid, SeqOf(r), HashMismatch)];
    }
  }

  lemma WalkStep(cid: Value, recs: seq<Value>, i: nat, prev: Value, next: Expected, hmac: Hmac, key: Text)
    requires i < |recs|
    ensures Walk(cid, recs[i..], prev, next, hmac, key)
         == RecordErrors(cid, recs[i], prev, next, hmac, key)
            + Walk(cid, recs[i + 1..], HashOf(recs[i]), PlusOne(SeqOf(recs[i])), hmac, key)
  {
    assert recs[i..][0] == recs[i] && recs[i..][1..] == recs[i + 1..];
  }

  lemma AppendAssoc<T>(a: seq<T>, b: seq<T>, c: seq<T>)
    ensures (a + b) + c == a + (b + c)
  {
  }

  method VerifyGroup(g: Group, hmac: Hmac, key: Text) returns (errors: seq<ChainError>)
    ensures errors == WalkGroup(g, hmac, key)
  {
    errors := [];
    var expectedPrev := Str(GENESIS);
    var expectedSeq := Known(Num(0));
    assert g.recs[0..] == g.recs;
    for i := 0 to |g.recs|
      invariant errors + Walk(g.chainId, g.recs[i..], expectedPrev, expectedSeq, hmac, key) == WalkGroup(g, hmac, key)
    {
      var more := VerifyRecord(g.chainId, g.recs[i], expectedPrev, expectedSeq, hmac, key);
      WalkStep(g.chainId, g.recs, i, expectedPrev, expectedSeq, hmac, key);
      ghost var rest := Walk(g.chainId, g.recs[i + 1..], HashOf(g.recs[i]), PlusOne(SeqOf(g.recs[i])), hmac, key);
      AppendAssoc(errors, more, rest);
      errors := errors + more;
      expectedPrev := HashOf(g.recs[i]);
      expectedSeq := PlusOne(SeqOf(g.recs[i]));
    }
  }

  /** One group per chain id, in order of first appearance. */
  method GroupByChain(records: seq<Value>) returns (byChain: seq<Group>)
    ensures byChain == GroupsOf(records)
    ensures TotalRecords(byChain) == |AuditRecordsIn(records)|
  {
    byChain := [];
    for i := 0 to |records|
      invariant byChain == GroupsOf(records[..i])
    {
      assert records[..i + 1][..i] == records[..i];
      if IsAudit(records[i]) {
        byChain := AddToGroups(byChain, records[i]);
      }
    }
    assert records[..|records|] == records;
    CheckedAll(records);
  }

  /** The groups of `gs` walked so far: sorted, their errors and their records counted. */
  ghost predicate Walked(gs: seq<Group>, sorted: seq<Group>, errors: seq<ChainError>, checked: nat,
                         hmac: Hmac, key: Text)
  {
    SortsEach(gs, sorted) && errors == WalkGroups(sorted, hmac, key) && checked == TotalRecords(gs)
  }

  lemma WalkedMore(gs: seq<Group>, sorted: seq<Group>, errors: seq<ChainError>, checked: nat,
                   g: Group, recs: seq<Value>, hmac: Hmac, key: Text)
    requires Walked(gs, sorted, errors, checked, hmac, key) && Sorts(g.recs, recs)
    ensures Walked(gs + [g], sorted + [Group(g.chainId, recs)],
                   errors + WalkGroup(Group(g.chainId, recs), hmac, key), checked + |recs|, hmac, key)
  {
    assert |multiset(recs)| == |multiset(g.recs)|;
    WalkGroupsAppend(sorted, Group(g.chainId, recs), hmac, key);
    TotalAppend(gs, g);
  }

  lemma NumberedErrors(records: seq<Value>, sorted: seq<Group>)
    requires SortsEach(GroupsOf(records), sorted) && AllNumbered(AuditRecordsIn(records))
    ensures sorted == SortedGroups(GroupsOf(records))
  {
    GroupRecordsAreAudits(records);
    SortedGroupsUnique(GroupsOf(records), sorted);
  }

  method VerifyChain(records: seq<Value>, hmac: Hmac, key: Text)
    returns (ok: bool, chains: nat, checked: nat, errors: seq<ChainError>)
    ensures ok <==> Accepts(records, hmac, key)
    ensures ok <==> errors == []
    ensures chains == |GroupsOf(records)|
    ensures checked == |AuditRecordsIn(records)|
    ensures AllNumbered(AuditRecordsIn(records)) ==> errors == ErrorsOf(records, hmac, key)
  {
    var byChain := GroupByChain(records);
    checked, errors := 0, [];
    ghost var sorted: seq<Group> := [];
    for i := 0 to |byChain|
      invariant Walked(byChain[..i], sorted, errors, checked, hmac, key)
    {
      var recs := SortBySeq(byChain[i].recs);
      var g := Group(byChain[i].chainId, recs);
      var more := VerifyGroup(g, hmac, key);
      WalkedMore(byChain[..i], sorted, errors, checked, byChain[i], recs, hmac, key);
      assert byChain[..i + 1] == byChain[..i] + [byChain[i]];
      sorted := sorted + [g];
      errors := errors + more;
      checked := checked + |recs|;
    }
    assert byChain[..|byChain|] == byChain;
    NoErrorsAccepts(records, sorted, hmac, key);
    if AllNumbered(AuditRecordsIn(records)) {
      NumberedErrors(records, sorted);
    }
    ok, chains := errors == [], |byChain|;
  }

  function TotalRecords(gs: seq<Group>): nat {
    if gs == [] then 0 else |gs[0].recs| + TotalRecords(gs[1..])
  }

  lemma {:induction false} TotalAppend(gs: seq<Group>, g: Group)
    ensures TotalRecords(gs + [g]) == TotalRecords(gs) + |g.recs|
  {
    if gs == [] {
      assert gs + [g] == [g];
    } else {
      TotalAppend(gs[1..], g);
      assert (gs + [g])[1..] == gs[1..] + [g];
    }
  }

  lemma {:induction false} TotalUpdate(gs: seq<Group>, i: nat, g: Group)
    requires i < |gs|
    ensures TotalRecords(gs[i := g]) == TotalRecords(gs) - |gs[i].recs| + |g.recs|
  {
    if i > 0 {
      TotalUpdate(gs[1..], i - 1, g);
      assert gs[i := g][1..] == gs[1..][i - 1 := g];
    } else {
      assert gs[i := g][1..] == gs[1..];
    }
  }

  lemma AddOne(gs: seq<Group>, r: Value)
    ensures TotalRecords(AddToGroups(gs, r)) == TotalRecords(gs) + 1
  {
    var at := GroupIndex(gs, ChainId(r));
    if at < |gs| {
      TotalUpdate(gs, at, Group(gs[at].chainId, gs[at].recs + [r]));
    } else {
      TotalAppend(gs, Group(ChainId(r), [r]));
    }
  }

  lemma {:induction false} CheckedAll(records: seq<Value>)
    ensures TotalRecords(GroupsOf(records)) == |AuditRecordsIn(records)|
  {
    if records != [] {
      CheckedAll(records[..|records| - 1]);
      AddOne(GroupsOf(records[..|records| - 1]), records[|records| - 1]);
    }
  }

  lemma GroupRecordsAreAudits(records: seq<Value>)
    ensures forall i, r | 0 <= i < |GroupsOf(records)| && r in GroupsOf(records)[i].recs ::
              r in AuditRecordsIn(records)
  {
    GroupsOfFor(records);
    var gs := GroupsOf(records);
    forall i, r | 0 <= i < |gs| && r in gs[i].recs
      ensures r in AuditRecordsIn(records)
    {
      HeldAreAudits(gs[i], records, r);
    }
  }

  lemma HeldAreAudits(g: Group, records: seq<Value>, r: Value)
    requires GroupHolds(g, records) && r in g.recs
    ensures r in AuditRecordsIn(records)
  {
    if Keyless(g.chainId) {
      assert r == g.recs[0];
    }
  }
}
