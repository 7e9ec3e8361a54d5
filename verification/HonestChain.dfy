/**
 The chain that a process emits through `audit`, and what the verifier makes of its log lines.
 */
module HonestChain {
  import opened JsText
  import opened JsValues
  import opened CanonicalJson
  import opened LogLine
  import opened AuditRecords
  import opened ChainVerifier
  import opened ChainLaws

  /** What the guarantees ask of a call: keys that clash with the chain's own are not in the context. */
  ghost predicate EventOk(e: AuditEvent) {
    EventWellFormed(e) && ContextAllowed(e)
  }

  function LastHash(recs: seq<Value>): Text {
    if recs != [] && HashOf(recs[|recs| - 1]).Str? then HashOf(recs[|recs| - 1]).s else GENESIS
  }

  /** All records of a process that handles `es` one after the other. */
  function EmitAll(chainId: Text, es: seq<AuditEvent>, hmac: Hmac, key: Text): (recs: seq<Value>)
    ensures |recs| == |es| && forall i | 0 <= i < |recs| :: recs[i].Obj?
  {
    if es == [] then []
    else
      var n := |es| - 1;
      var before := EmitAll(chainId, es[..n], hmac, key);
      before + [SignRecord(chainId, n, LastHash(before), es[n], hmac, key)]
  }

  /** Module state of audit.js: one chain per process, `seq` and `lastHash` updated by every call. */
  class AuditLog {
    const chainId: Text
    const hmac: Hmac
    const key: Text
    var seq_: nat
    var lastHash: Text
    ghost var events: seq<AuditEvent>

    ghost function Emitted(): seq<Value>
      reads this
    {
      EmitAll(chainId, events, hmac, key)
    }

    ghost predicate Valid()
      reads this
    {
      && seq_ == |events|
      && lastHash == LastHash(Emitted())
    }

    constructor (chainId: Text, hmac: Hmac, key: Text)
      ensures Valid() && Emitted() == []
      ensures this.chainId == chainId && this.hmac == hmac && this.key == key
    {
      this.chainId := chainId;
      this.hmac := hmac;
      this.key := key;
      seq_ := 0;
      lastHash := GENESIS;
      events := [];
    }

    /** Any event is recorded and linked; its number and its hash check out if the context is allowed. */
    method Audit(e: AuditEvent) returns (record: Value)
      requires Valid()
      modifies this`seq_, this`lastHash, this`events
      ensures Valid() && events == old(events) + [e]
      ensures Emitted() == old(Emitted()) + [record]
      ensures PrevOf(record) == Str(old(lastHash)) && HashOf(record) == Str(lastHash)
      ensures WellFormed(Obj(e.context)) ==> Describes(record, chainId, old(seq_), old(lastHash), e)
      ensures EventOk(e) ==> SeqOf(record) == Num(old(seq_)) && HashVerifies(record, hmac, key)
    {
      var ms := Unhashed(chainId, seq_, lastHash, e);
      var hash := ComputeHash(Obj(ms), hmac, key);
      record := Obj(Put(ms, HASH, Str(hash)));
      RecordEnds(chainId, seq_, lastHash, e, hmac, key);
      if WellFormed(Obj(e.context)) {
        RecordContent(chainId, seq_, lastHash, e, hmac, key);
      }
      if EventOk(e) {
        RecordFacts(chainId, seq_, lastHash, e, hmac, key);
      }
      seq_ := seq_ + 1;
      lastHash := hash;
      events := events + [e];
      assert events[..|events| - 1] == old(events);
    }
  }

  /** The link and the hash are written last, so nothing in the event overwrites them. */
  lemma RecordEnds(chainId: Text, seq_: nat, prev: Text, e: AuditEvent, hmac: Hmac, key: Text)
    ensures var r := SignRecord(chainId, seq_, prev, e, hmac, key);
            && PrevOf(r) == Str(prev) && HashOf(r) == Str(ComputeHash(Obj(Unhashed(chainId, seq_, prev, e)), hmac, key))
  {
    Names();
    var ms := Unhashed(chainId, seq_, prev, e);
    var hash := Str(ComputeHash(Obj(ms), hmac, key));
    var spread := Spread(BaseMembers(chainId, seq_, e), e.context);
    var rest := if Truthy(e.metadata) then Put(spread, METADATA, e.metadata) else spread;
    PutFacts(rest, PREV_HASH, Str(prev), PREV_HASH);
    PutFacts(ms, HASH, hash, PREV_HASH);
    PutFacts(ms, HASH, hash, HASH);
  }

  // ----- Honest chains are intact -----

  lemma {:induction false} EmittedAt(chainId: Text, es: seq<AuditEvent>, i: nat, hmac: Hmac, key: Text)
    requires i < |es|
    ensures EmitAll(chainId, es, hmac, key)[i]
         == SignRecord(chainId, i, LastHash(EmitAll(chainId, es, hmac, key)[..i]), es[i], hmac, key)
  {
    var n := |es| - 1;
    var before := EmitAll(chainId, es[..n], hmac, key);
    if i < n {
      EmittedAt(chainId, es[..n], i, hmac, key);
      assert EmitAll(chainId, es, hmac, key)[..i] == before[..i];
    } else {
      assert EmitAll(chainId, es, hmac, key)[..i] == before;
    }
  }

  /** What one record of an honest chain looks like. */
  ghost predicate HonestRecord(r: Value, chainId: Text, i: nat, prev: Text, hmac: Hmac, key: Text) {
    && r.Obj? && WellFormed(r) && IsAudit(r)
    && ChainId(r) == Str(chainId) && SeqOf(r) == Num(i) && PrevOf(r) == Str(prev)
    && HashVerifies(r, hmac, key) && SeqOf(Rest(r)) == Num(i) && ChainId(Rest(r)) == Str(chainId)
    && WellFormed(Rest(r))
  }

  lemma SignedIsHonest(chainId: Text, i: nat, prev: Text, e: AuditEvent, hmac: Hmac, key: Text)
    requires EventOk(e)
    ensures HonestRecord(SignRecord(chainId, i, prev, e, hmac, key), chainId, i, prev, hmac, key)
  {
    RecordFacts(chainId, i, prev, e, hmac, key);
    UnhashedFacts(chainId, i, prev, e);
  }

  lemma HonestRecordAt(chainId: Text, es: seq<AuditEvent>, i: nat, hmac: Hmac, key: Text)
    requires i < |es| && forall e | e in es :: EventOk(e)
    ensures var recs := EmitAll(chainId, es, hmac, key);
            HonestRecord(recs[i], chainId, i, LastHash(recs[..i]), hmac, key)
  {
    EmittedAt(chainId, es, i, hmac, key);
    SignedIsHonest(chainId, i, LastHash(EmitAll(chainId, es, hmac, key)[..i]), es[i], hmac, key);
  }

  lemma HonestPrevious(chainId: Text, es: seq<AuditEvent>, i: nat, hmac: Hmac, key: Text)
    requires i < |es| && forall e | e in es :: EventOk(e)
    ensures var recs := EmitAll(chainId, es, hmac, key);
            Str(LastHash(recs[..i])) == if i == 0 then Str(GENESIS) else HashOf(recs[i - 1])
  {
    var recs := EmitAll(chainId, es, hmac, key);
    if i > 0 {
      HonestRecordAt(chainId, es, i - 1, hmac, key);
      assert recs[..i][i - 1] == recs[i - 1];
    }
  }

  lemma HonestIntact(chainId: Text, es: seq<AuditEvent>, hmac: Hmac, key: Text)
    requires forall e | e in es :: EventOk(e)
    ensures Intact(EmitAll(chainId, es, hmac, key), hmac, key)
  {
    var recs := EmitAll(chainId, es, hmac, key);
    forall i | 0 <= i < |recs|
      ensures LinkAt(recs, i, Str(GENESIS), 0, hmac, key)
    {
      HonestRecordAt(chainId, es, i, hmac, key);
      HonestPrevious(chainId, es, i, hmac, key);
    }
  }

  // ----- Through the log -----

  function FromLines(recs: seq<Value>): (out: seq<Value>)
    requires forall i | 0 <= i < |recs| :: recs[i].Obj?
    ensures |out| == |recs| && forall i | 0 <= i < |recs| :: out[i] == FromLine(recs[i])
  {
    seq(|recs|, i requires 0 <= i < |recs| => FromLine(recs[i]))
  }

  /** No member of the signed part of a record is `undefined`. */
  predicate RecordClean(r: Value) {
    NoUndefinedMember(Rest(r))
  }

  lemma LoggedRecord(r: Value, chainId: Text, i: nat, prev: Text, hmac: Hmac, key: Text)
    requires HonestRecord(r, chainId, i, prev, hmac, key)
    ensures var l := FromLine(r);
            && IsAudit(l) && ChainId(l) == Str(chainId) && SeqOf(l) == Num(i) && PrevOf(l) == Str(prev)
            && HashOf(l) == HashOf(r) && WellFormed(l) && Clean(l)
            && (HashVerifies(l, hmac, key) <==> hmac(key, Signed(l)) == hmac(key, Signed(r)))
            && (RecordClean(r) <==> Signed(l) == Signed(r))
  {
    FromLineFacts(r);
    SignedSurvivesLog(r);
  }

  /** Neither of the two texts that a lossy line can be confused with collides under the hash. */
  ghost predicate LineCollisionFree(r: Value, hmac: Hmac, key: Text)
    requires r.Obj?
  {
    hmac(key, Signed(FromLine(r))) == hmac(key, Signed(r)) ==> Signed(FromLine(r)) == Signed(r)
  }

  lemma LineIntact(chainId: Text, es: seq<AuditEvent>, i: nat, hmac: Hmac, key: Text)
    requires i < |es| && forall e | e in es :: EventOk(e)
    requires RecordClean(EmitAll(chainId, es, hmac, key)[i])
    ensures var recs := EmitAll(chainId, es, hmac, key);
            && Link(FromLine(recs[i]), Str(LastHash(recs[..i])), i, hmac, key)
            && HashOf(FromLine(recs[i])) == HashOf(recs[i])
  {
    var recs := EmitAll(chainId, es, hmac, key);
    HonestRecordAt(chainId, es, i, hmac, key);
    LoggedRecord(recs[i], chainId, i, LastHash(recs[..i]), hmac, key);
  }

  lemma LinesIntact(chainId: Text, es: seq<AuditEvent>, hmac: Hmac, key: Text)
    requires forall e | e in es :: EventOk(e)
    requires forall i | 0 <= i < |es| :: RecordClean(EmitAll(chainId, es, hmac, key)[i])
    ensures Intact(FromLines(EmitAll(chainId, es, hmac, key)), hmac, key)
  {
    var lines := FromLines(EmitAll(chainId, es, hmac, key));
    forall i | 0 <= i < |lines|
      ensures LinkAt(lines, i, Str(GENESIS), 0, hmac, key)
    {
      LineLinked(chainId, es, i, hmac, key);
    }
  }

  lemma LineLinked(chainId: Text, es: seq<AuditEvent>, i: nat, hmac: Hmac, key: Text)
    requires i < |es| && forall e | e in es :: EventOk(e)
    requires forall j | 0 <= j < |es| :: RecordClean(EmitAll(chainId, es, hmac, key)[j])
    ensures LinkAt(FromLines(EmitAll(chainId, es, hmac, key)), i, Str(GENESIS), 0, hmac, key)
  {
    LineIntact(chainId, es, i, hmac, key);
    HonestPrevious(chainId, es, i, hmac, key);
    if i > 0 {
      LineIntact(chainId, es, i - 1, hmac, key);
    }
  }

  // ----- Several processes -----

  datatype Process = Process(chainId: Text, events: seq<AuditEvent>)

  function Records(p: Process, hmac: Hmac, key: Text): (recs: seq<Value>)
    ensures |recs| == |p.events| && forall i | 0 <= i < |recs| :: recs[i].Obj?
  {
    EmitAll(p.chainId, p.events, hmac, key)
  }

  function Lines(p: Process, hmac: Hmac, key: Text): seq<Value> {
    FromLines(Records(p, hmac, key))
  }

  function AllLines(ps: seq<Process>, hmac: Hmac, key: Text): seq<Value> {
    if ps == [] then [] else Lines(ps[0], hmac, key) + AllLines(ps[1..], hmac, key)
  }

  function CallCount(ps: seq<Process>): nat {
    if ps == [] then 0 else |ps[0].events| + CallCount(ps[1..])
  }

  /** Chain ids are random per process, hence distinct. */
  ghost predicate ProcessesOk(ps: seq<Process>) {
    && (forall i, j | 0 <= i < j < |ps| :: ps[i].chainId != ps[j].chainId)
    && (forall p, e | p in ps && e in p.events :: EventOk(e))
  }

  ghost predicate AllClean(ps: seq<Process>, hmac: Hmac, key: Text) {
    forall p, i | p in ps && 0 <= i < |p.events| :: RecordClean(Records(p, hmac, key)[i])
  }

  ghost predicate AllCollisionFree(ps: seq<Process>, hmac: Hmac, key: Text) {
    forall p, i | p in ps && 0 <= i < |p.events| :: LineCollisionFree(Records(p, hmac, key)[i], hmac, key)
  }

  lemma LineAt(p: Process, i: nat, hmac: Hmac, key: Text)
    requires i < |p.events| && forall e | e in p.events :: EventOk(e)
    ensures var r, l := Records(p, hmac, key)[i], Lines(p, hmac, key)[i];
            && IsAudit(l) && ChainId(l) == Str(p.chainId) && SeqOf(l) == Num(i) && WellFormed(l)
            && (HashVerifies(l, hmac, key) <==> hmac(key, Signed(l)) == hmac(key, Signed(r)))
            && (RecordClean(r) <==> Signed(l) == Signed(r))
  {
    var recs := Records(p, hmac, key);
    HonestRecordAt(p.chainId, p.events, i, hmac, key);
    LoggedRecord(recs[i], p.chainId, i, LastHash(recs[..i]), hmac, key);
  }

  lemma LinesOfOneChain(p: Process, hmac: Hmac, key: Text)
    requires forall e | e in p.events :: EventOk(e)
    ensures forall l | l in Lines(p, hmac, key) :: IsAudit(l) && ChainId(l) == Str(p.chainId)
  {
    forall l | l in Lines(p, hmac, key)
      ensures IsAudit(l) && ChainId(l) == Str(p.chainId)
    {
      var i :| 0 <= i < |p.events| && Lines(p, hmac, key)[i] == l;
      LineAt(p, i, hmac, key);
    }
  }

  lemma {:induction false} AllLinesFrom(ps: seq<Process>, hmac: Hmac, key: Text)
    requires ProcessesOk(ps)
    ensures |AllLines(ps, hmac, key)| == CallCount(ps)
    ensures forall l | l in AllLines(ps, hmac, key) ::
              IsAudit(l) && exists p :: p in ps && ChainId(l) == Str(p.chainId) && l in Lines(p, hmac, key)
    ensures forall p, l | p in ps && l in Lines(p, hmac, key) :: l in AllLines(ps, hmac, key)
  {
    if ps != [] {
      assert ps == [ps[0]] + ps[1..];
      LinesOfOneChain(ps[0], hmac, key);
      AllLinesFrom(ps[1..], hmac, key);
    }
  }

  lemma {:induction false} OneChainWhole(lines: seq<Value>, cid: Value)
    requires !Keyless(cid) && forall l | l in lines :: IsAudit(l) && ChainId(l) == cid
    ensures ChainOf(lines, cid) == lines
  {
    if lines != [] {
      assert lines == lines[..|lines| - 1] + [lines[|lines| - 1]];
      OneChainWhole(lines[..|lines| - 1], cid);
    }
  }

  lemma {:induction false} OtherChainEmpty(lines: seq<Value>, cid: Value)
    requires !Keyless(cid) && forall l | l in lines :: IsAudit(l) && ChainId(l) != cid
    ensures ChainOf(lines, cid) == []
  {
    if lines != [] {
      assert lines == lines[..|lines| - 1] + [lines[|lines| - 1]];
      OtherChainEmpty(lines[..|lines| - 1], cid);
    }
  }

  /** Taken together, the lines of the processes verify exactly when each process's own lines do. */
  lemma {:induction false} AllLinesAccepted(ps: seq<Process>, hmac: Hmac, key: Text)
    requires ProcessesOk(ps)
    ensures Accepts(AllLines(ps, hmac, key), hmac, key)
       <==> forall p | p in ps :: Arrangeable(Lines(p, hmac, key), hmac, key)
  {
    if ps == [] {
      EmptyArrangeable(hmac, key);
    } else {
      var first, rest := Lines(ps[0], hmac, key), AllLines(ps[1..], hmac, key);
      assert ps == [ps[0]] + ps[1..];
      assert ProcessesOk(ps[1..]);
      LinesOfOneChain(ps[0], hmac, key);
      AllLinesFrom(ps[1..], hmac, key);
      assert ShareNoChain(first, rest);
      DisjointLogs(first, rest, hmac, key);
      AllLinesAccepted(ps[1..], hmac, key);
      OneProcessAccepted(ps[0], hmac, key);
    }
  }

  lemma OneProcessAccepted(p: Process, hmac: Hmac, key: Text)
    requires forall e | e in p.events :: EventOk(e)
    ensures Accepts(Lines(p, hmac, key), hmac, key) <==> Arrangeable(Lines(p, hmac, key), hmac, key)
  {
    var lines := Lines(p, hmac, key);
    LinesOfOneChain(p, hmac, key);
    EmptyArrangeable(hmac, key);
    OneChainWhole(lines, Str(p.chainId));
    forall cid | !Keyless(cid) && cid != Str(p.chainId)
      ensures ChainOf(lines, cid) == []
    {
      OtherChainEmpty(lines, cid);
    }
  }

  lemma ArrangedHashes(recs: seq<Value>, hmac: Hmac, key: Text)
    requires Arrangeable(recs, hmac, key)
    ensures forall r | r in recs :: HashVerifies(r, hmac, key)
  {
    var chain: seq<Value> :| multiset(chain) == multiset(recs) && Intact(chain, hmac, key);
    SameElements(chain, recs);
    forall r | r in recs
      ensures HashVerifies(r, hmac, key)
    {
      assert r in chain;
      var i :| 0 <= i < |chain| && chain[i] == r;
      assert LinkAt(chain, i, Str(GENESIS), 0, hmac, key);
    }
  }

  lemma ProcessArrangeable(p: Process, hmac: Hmac, key: Text)
    requires forall e | e in p.events :: EventOk(e)
    requires forall i | 0 <= i < |p.events| :: LineCollisionFree(Records(p, hmac, key)[i], hmac, key)
    ensures Arrangeable(Lines(p, hmac, key), hmac, key)
       <==> forall i | 0 <= i < |p.events| :: RecordClean(Records(p, hmac, key)[i])
  {
    var lines := Lines(p, hmac, key);
    if Arrangeable(lines, hmac, key) {
      ArrangedHashes(lines, hmac, key);
      forall i | 0 <= i < |p.events|
        ensures RecordClean(Records(p, hmac, key)[i])
      {
        LineAt(p, i, hmac, key);
        assert lines[i] in lines;
        assert LineCollisionFree(Records(p, hmac, key)[i], hmac, key);
      }
    }
    if forall i | 0 <= i < |p.events| :: RecordClean(Records(p, hmac, key)[i]) {
      LinesIntact(p.chainId, p.events, hmac, key);
      assert multiset(lines) == multiset(lines) && Intact(lines, hmac, key);
    }
  }

  /**
   Honest completeness, exactly: the log lines of any number of processes, interleaved or permuted
   in any way, verify if and only if no signed record has an `undefined` member.
   */
  lemma HonestCompleteness(ps: seq<Process>, log: seq<Value>, hmac: Hmac, key: Text)
    requires ProcessesOk(ps) && multiset(log) == multiset(AllLines(ps, hmac, key))
    requires AllCollisionFree(ps, hmac, key)
    ensures Accepts(log, hmac, key) <==> AllClean(ps, hmac, key)
  {
    OrderIndependent(log, AllLines(ps, hmac, key), hmac, key);
    AllLinesAccepted(ps, hmac, key);
    forall p | p in ps
      ensures Arrangeable(Lines(p, hmac, key), hmac, key)
         <==> forall i | 0 <= i < |p.events| :: RecordClean(Records(p, hmac, key)[i])
    {
      ProcessArrangeable(p, hmac, key);
    }
  }

  lemma {:induction false} AllAudits(records: seq<Value>)
    requires forall r | r in records :: IsAudit(r)
    ensures AuditRecordsIn(records) == records
  {
    if records != [] {
      var before := records[..|records| - 1];
      assert records == before + [records[|records| - 1]];
      AllAudits(before);
    }
  }

  ghost function Emitters(ps: seq<Process>): set<Text> {
    set p | p in ps && p.events != [] :: p.chainId
  }

  lemma LinesPresent(ps: seq<Process>, hmac: Hmac, key: Text)
    requires ProcessesOk(ps)
    ensures ChainIds(AllLines(ps, hmac, key)) == set id | id in Emitters(ps) :: Str(id)
  {
    forall id | id in Emitters(ps)
      ensures Str(id) in ChainIds(AllLines(ps, hmac, key))
    {
      EmitterPresent(ps, id, hmac, key);
    }
    forall c | c in ChainIds(AllLines(ps, hmac, key))
      ensures exists id :: id in Emitters(ps) && c == Str(id)
    {
      var _ := PresentEmitter(ps, c, hmac, key);
    }
  }

  lemma EmitterPresent(ps: seq<Process>, id: Text, hmac: Hmac, key: Text)
    requires ProcessesOk(ps) && id in Emitters(ps)
    ensures Str(id) in ChainIds(AllLines(ps, hmac, key))
  {
    var p :| p in ps && p.events != [] && p.chainId == id;
    AllLinesFrom(ps, hmac, key);
    LineAt(p, 0, hmac, key);
    assert Lines(p, hmac, key)[0] in Lines(p, hmac, key);
  }

  lemma PresentEmitter(ps: seq<Process>, c: Value, hmac: Hmac, key: Text) returns (id: Text)
    requires ProcessesOk(ps) && c in ChainIds(AllLines(ps, hmac, key))
    ensures id in Emitters(ps) && c == Str(id)
  {
    AllLinesFrom(ps, hmac, key);
    var r :| r in AllLines(ps, hmac, key) && IsAudit(r) && ChainId(r) == c;
    var p :| p in ps && ChainId(r) == Str(p.chainId) && r in Lines(p, hmac, key);
    assert p.events != [];
    id := p.chainId;
  }

  /** `checked` is the number of calls, `chains` the number of processes that made one. */
  lemma HonestCounts(ps: seq<Process>, log: seq<Value>, hmac: Hmac, key: Text)
    requires ProcessesOk(ps) && multiset(log) == multiset(AllLines(ps, hmac, key))
    ensures |AuditRecordsIn(log)| == CallCount(ps)
    ensures |GroupsOf(log)| == |Emitters(ps)|
  {
    AllLinesFrom(ps, hmac, key);
    SameElements(log, AllLines(ps, hmac, key));
    AllAudits(log);
    LinesPresent(ps, hmac, key);
    assert ChainIds(log) == ChainIds(AllLines(ps, hmac, key));
    ChainsCounted(log);
    InjectiveImage(Emitters(ps));
  }

  lemma {:induction false} InjectiveImage(ids: set<Text>)
    ensures |set id | id in ids :: Str(id)| == |ids|
  {
    if ids != {} {
      var x :| x in ids;
      InjectiveImage(ids - {x});
      assert (set id | id in ids :: Str(id)) == (set id | id in ids - {x} :: Str(id)) + {Str(x)};
    }
  }
}
