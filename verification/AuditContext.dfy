/**
 When the context of an `audit` call keeps the record's log line verifiable, and the case where the
 context of an ordinary request does not: a request without a User-Agent header.
 */
module AuditContext {
  import opened JsText
  import opened JsValues
  import opened AuditRecords
  import opened ChainVerifier
  import opened HonestChain

  /** A member value that a JSON line can carry. */
  predicate Sound(v: Value) {
    !v.Undefined? && NoUndefinedMember(v)
  }

  ghost predicate AllSound(ms: Members) {
    forall k | HasKey(ms, k) :: Sound(Get(ms, k))
  }

  lemma AllSoundCons(ms: Members)
    requires DistinctKeys(ms) && ms != []
    ensures AllSound(ms) <==> Sound(ms[0].value) && AllSound(ms[1..])
  {
    forall k | HasKey(ms[1..], k)
      ensures HasKey(ms, k) && Get(ms, k) == Get(ms[1..], k)
    {
    }
    assert HasKey(ms, ms[0].key) && Get(ms, ms[0].key) == ms[0].value;
  }

  lemma {:induction false} SoundByKey(ms: Members)
    requires DistinctKeys(ms)
    ensures NoUndefinedMember(Obj(ms)) <==> AllSound(ms)
  {
    if ms != [] {
      SoundByKey(ms[1..]);
      AllSoundCons(ms);
      assert ms == [ms[0]] + ms[1..];
      assert NoUndefinedMember(Obj(ms)) <==> Sound(ms[0].value) && NoUndefinedMember(Obj(ms[1..]));
    }
  }

  /** Everything but the context is free of `undefined`. */
  predicate FixedPartSound(e: AuditEvent) {
    && Sound(e.action) && Sound(e.result)
    && NoUndefinedMember(e.actor) && NoUndefinedMember(e.resource) && NoUndefinedMember(e.requestId)
    && NoUndefinedMember(e.metadata)
  }

  predicate ContextPlain(e: AuditEvent) {
    !HasKey(e.context, METADATA) && !HasKey(e.context, PREV_HASH)
  }

  lemma BaseSound(chainId: Text, seq_: nat, e: AuditEvent)
    requires FixedPartSound(e)
    ensures NoUndefinedMember(Obj(BaseMembers(chainId, seq_, e)))
  {
    assert Sound(OrNull(e.actor)) && Sound(OrNull(e.resource)) && Sound(OrNull(e.requestId));
  }

  lemma UnhashedGet(chainId: Text, seq_: nat, prev: Text, e: AuditEvent, k: Text)
    requires EventWellFormed(e) && ContextPlain(e)
    ensures var ms := Unhashed(chainId, seq_, prev, e);
            var base := BaseMembers(chainId, seq_, e);
            && (HasKey(ms, k) ==> k == PREV_HASH || k == METADATA || HasKey(base, k) || HasKey(e.context, k))
            && Get(ms, k) == (
              if k == PREV_HASH then Str(prev)
              else if k == METADATA && Truthy(e.metadata) then e.metadata
              else if HasKey(e.context, k) then Get(e.context, k)
              else Get(base, k))
            && (HasKey(e.context, k) ==> HasKey(ms, k))
  {
    Names();
    var base := BaseMembers(chainId, seq_, e);
    var spread := Spread(base, e.context);
    var meta := if Truthy(e.metadata) then Put(spread, METADATA, e.metadata) else spread;
    SpreadGet(base, e.context, k);
    SpreadFacts(base, e.context, k);
    PutFacts(spread, METADATA, e.metadata, k);
    PutFacts(meta, PREV_HASH, Str(prev), k);
  }

  lemma MetadataOnlyWhenTruthy(chainId: Text, seq_: nat, prev: Text, e: AuditEvent)
    requires EventWellFormed(e) && ContextPlain(e) && !Truthy(e.metadata)
    ensures !HasKey(Unhashed(chainId, seq_, prev, e), METADATA)
  {
    Names();
    var base := BaseMembers(chainId, seq_, e);
    var spread := Spread(base, e.context);
    ChainFacts(chainId, seq_, e);
    ActionFacts(e);
    AppendFacts(ChainMembers(chainId, seq_, e), ActionMembers(e), METADATA);
    SpreadFacts(base, e.context, METADATA);
    PutFacts(spread, PREV_HASH, Str(prev), METADATA);
  }

  /** With a sound fixed part, the record is free of `undefined` exactly when its context is. */
  lemma ContextDecides(chainId: Text, seq_: nat, prev: Text, e: AuditEvent)
    requires EventOk(e) && FixedPartSound(e) && ContextPlain(e)
    ensures NoUndefinedMember(Obj(Unhashed(chainId, seq_, prev, e))) <==> NoUndefinedMember(Obj(e.context))
  {
    var ms := Unhashed(chainId, seq_, prev, e);
    var base := BaseMembers(chainId, seq_, e);
    UnhashedFacts(chainId, seq_, prev, e);
    BaseFacts(chainId, seq_, e);
    BaseSound(chainId, seq_, e);
    SoundByKey(ms);
    SoundByKey(base);
    SoundByKey(e.context);
    if !Truthy(e.metadata) {
      MetadataOnlyWhenTruthy(chainId, seq_, prev, e);
    }
    if NoUndefinedMember(Obj(e.context)) {
      forall k | HasKey(ms, k)
        ensures Sound(Get(ms, k))
      {
        UnhashedGet(chainId, seq_, prev, e, k);
      }
    } else {
      var k :| HasKey(e.context, k) && !Sound(Get(e.context, k));
      UnhashedGet(chainId, seq_, prev, e, k);
    }
  }

  // ----- Whole logs, judged by the arguments of the calls -----

  /** The call leaves it to its context whether the record can be verified. */
  ghost predicate ContextMatters(e: AuditEvent) {
    EventOk(e) && FixedPartSound(e) && ContextPlain(e)
  }

  ghost predicate ContextsMatter(ps: seq<Process>) {
    forall p, e | p in ps && e in p.events :: ContextMatters(e)
  }

  lemma RecordByContext(p: Process, i: nat, hmac: Hmac, key: Text)
    requires i < |p.events| && ContextMatters(p.events[i])
    ensures RecordClean(Records(p, hmac, key)[i]) <==> NoUndefinedMember(Obj(p.events[i].context))
  {
    var prev := LastHash(Records(p, hmac, key)[..i]);
    EmittedAt(p.chainId, p.events, i, hmac, key);
    RecordFacts(p.chainId, i, prev, p.events[i], hmac, key);
    ContextDecides(p.chainId, i, prev, p.events[i]);
  }

  ghost predicate ContextsClean(ps: seq<Process>) {
    forall p, e | p in ps && e in p.events :: NoUndefinedMember(Obj(e.context))
  }

  lemma CleanByContext(ps: seq<Process>, hmac: Hmac, key: Text)
    requires ContextsMatter(ps)
    ensures AllClean(ps, hmac, key) <==> ContextsClean(ps)
  {
    forall p, i | p in ps && 0 <= i < |p.events|
      ensures RecordClean(Records(p, hmac, key)[i]) <==> NoUndefinedMember(Obj(p.events[i].context))
    {
      assert p.events[i] in p.events;
      RecordByContext(p, i, hmac, key);
    }
    if AllClean(ps, hmac, key) {
      forall p, e | p in ps && e in p.events
        ensures NoUndefinedMember(Obj(e.context))
      {
        var i :| 0 <= i < |p.events| && p.events[i] == e;
        assert RecordClean(Records(p, hmac, key)[i]);
      }
    }
  }

  /**
   Any interleaving of the lines of any processes verifies if and only if no call was given a context
   with an undefined member, whatever else the calls were about.
   */
  lemma ContextsDecide(ps: seq<Process>, log: seq<Value>, hmac: Hmac, key: Text)
    requires ProcessesOk(ps) && ContextsMatter(ps)
    requires multiset(log) == multiset(AllLines(ps, hmac, key)) && AllCollisionFree(ps, hmac, key)
    ensures Accepts(log, hmac, key) <==> ContextsClean(ps)
  {
    HonestCompleteness(ps, log, hmac, key);
    CleanByContext(ps, hmac, key);
  }

  // ----- fromRequest -----

  const IP := Ascii("ip")
  const METHOD := Ascii("method")
  const PATH := Ascii("path")
  const USER_AGENT := Ascii("userAgent")

  /** The context of a request; `userAgent` is `undefined` when the header is absent. */
  function FromRequest(ip: Value, method_: Value, path: Value, userAgent: Value): Members {
    [Entry(IP, ip), Entry(METHOD, method_), Entry(PATH, path), Entry(USER_AGENT, userAgent)]
  }

  lemma FromRequestFacts(ip: Value, method_: Value, path: Value, userAgent: Value)
    ensures var ms := FromRequest(ip, method_, path, userAgent);
            && DistinctKeys(ms)
            && (forall k :: HasKey(ms, k) ==> k == IP || k == METHOD || k == PATH || k == USER_AGENT)
  {
    assert |IP| == 2 && |METHOD| == 6 && |PATH| == 4 && |USER_AGENT| == 9;
    var ms := FromRequest(ip, method_, path, userAgent);
    var from3 := [ms[3]] + [];
    var from2 := [ms[2]] + from3;
    var from1 := [ms[1]] + from2;
    ConsFacts(ms[3], []);
    ConsFacts(ms[2], from3);
    ConsFacts(ms[1], from2);
    ConsFacts(ms[0], from1);
    assert ms == [ms[0]] + from1;
  }

  /** The record of a call made for a request names its address, method, path and user agent. */
  lemma FromRequestContent(chainId: Text, seq_: nat, prev: Text, e: AuditEvent, hmac: Hmac, key: Text,
                           ip: Value, method_: Value, path: Value, userAgent: Value)
    requires e.context == FromRequest(ip, method_, path, userAgent) && WellFormed(Obj(e.context))
    ensures var r := SignRecord(chainId, seq_, prev, e, hmac, key);
            && Field(r, Ascii("ip")) == ip && Field(r, Ascii("method")) == method_
            && Field(r, Ascii("path")) == path && Field(r, Ascii("userAgent")) == userAgent
  {
    RequestMembers(ip, method_, path, userAgent);
    RequestNamesFree(IP);
    RequestNamesFree(METHOD);
    RequestNamesFree(PATH);
    RequestNamesFree(USER_AGENT);
    ContextReadBack(chainId, seq_, prev, e, hmac, key, IP);
    ContextReadBack(chainId, seq_, prev, e, hmac, key, METHOD);
    ContextReadBack(chainId, seq_, prev, e, hmac, key, PATH);
    ContextReadBack(chainId, seq_, prev, e, hmac, key, USER_AGENT);
  }

  lemma RequestMembers(ip: Value, method_: Value, path: Value, userAgent: Value)
    ensures var ms := FromRequest(ip, method_, path, userAgent);
            && HasKey(ms, IP) && Get(ms, IP) == ip && HasKey(ms, METHOD) && Get(ms, METHOD) == method_
            && HasKey(ms, PATH) && Get(ms, PATH) == path && HasKey(ms, USER_AGENT) && Get(ms, USER_AGENT) == userAgent
  {
    assert |IP| == 2 && |METHOD| == 6 && |PATH| == 4 && |USER_AGENT| == 9;
    var ms := FromRequest(ip, method_, path, userAgent);
    var from3 := [ms[3]] + [];
    var from2 := [ms[2]] + from3;
    var from1 := [ms[1]] + from2;
    ConsFacts(ms[3], []);
    ConsFacts(ms[2], from3);
    ConsFacts(ms[1], from2);
    ConsFacts(ms[0], from1);
    assert ms == [ms[0]] + from1;
  }

  lemma RequestNamesFree(k: Text)
    requires k == IP || k == METHOD || k == PATH || k == USER_AGENT
    ensures !Reserved(k) && k != METADATA && k != PREV_HASH
  {
    Names();
    assert |IP| == 2 && |METHOD| == 6 && |PATH| == 4 && |USER_AGENT| == 9;
    assert PATH[0] == 0x70 && HASH[0] == 0x68;
  }

  lemma RequestEventOk(e: AuditEvent, ip: Value, method_: Value, path: Value, userAgent: Value)
    requires e.context == FromRequest(ip, method_, path, userAgent) && EventWellFormed(e)
    ensures EventOk(e) && ContextPlain(e)
  {
    FromRequestFacts(ip, method_, path, userAgent);
    forall k | HasKey(e.context, k)
      ensures !Reserved(k) && k != METADATA && k != PREV_HASH
    {
      RequestNamesFree(k);
    }
  }

  lemma RequestSound(ip: Value, method_: Value, path: Value, userAgent: Value)
    ensures NoUndefinedMember(Obj(FromRequest(ip, method_, path, userAgent)))
       <==> Sound(ip) && Sound(method_) && Sound(path) && Sound(userAgent)
  {
    var ms := FromRequest(ip, method_, path, userAgent);
    assert ms[0].value == ip && ms[1].value == method_ && ms[2].value == path && ms[3].value == userAgent;
  }

  /** The context of the call was taken from a request. */
  predicate ForRequest(e: AuditEvent) {
    e.context
    == FromRequest(Get(e.context, IP), Get(e.context, METHOD), Get(e.context, PATH), Get(e.context, USER_AGENT))
  }

  /** The request had an address, a method, a path and a User-Agent header. */
  predicate RequestComplete(e: AuditEvent) {
    && Sound(Get(e.context, IP)) && Sound(Get(e.context, METHOD))
    && Sound(Get(e.context, PATH)) && Sound(Get(e.context, USER_AGENT))
  }

  /** The call was made for a request, with every other argument sound. */
  ghost predicate RequestCall(e: AuditEvent) {
    ForRequest(e) && EventWellFormed(e) && FixedPartSound(e)
  }

  lemma CompleteContext(e: AuditEvent)
    requires RequestCall(e)
    ensures ContextMatters(e) && (NoUndefinedMember(Obj(e.context)) <==> RequestComplete(e))
  {
    RequestEventOk(e, Get(e.context, IP), Get(e.context, METHOD), Get(e.context, PATH), Get(e.context, USER_AGENT));
    RequestSound(Get(e.context, IP), Get(e.context, METHOD), Get(e.context, PATH), Get(e.context, USER_AGENT));
  }

  ghost predicate RequestCalls(ps: seq<Process>) {
    && (forall i, j | 0 <= i < j < |ps| :: ps[i].chainId != ps[j].chainId)
    && (forall p, e | p in ps && e in p.events :: RequestCall(e))
  }

  ghost predicate RequestsComplete(ps: seq<Process>) {
    forall p, e | p in ps && e in p.events :: RequestComplete(e)
  }

  lemma RequestContexts(ps: seq<Process>)
    requires RequestCalls(ps)
    ensures ProcessesOk(ps) && ContextsMatter(ps) && (ContextsClean(ps) <==> RequestsComplete(ps))
  {
    forall p, e | p in ps && e in p.events
      ensures ContextMatters(e) && (NoUndefinedMember(Obj(e.context)) <==> RequestComplete(e))
    {
      CompleteContext(e);
    }
  }

  /**
   The log of calls made for requests, from any processes and in any interleaving, verifies if and only
   if every one of the requests was complete: one request without a User-Agent makes it fail untouched.
   */
  lemma RequestLogVerifies(ps: seq<Process>, log: seq<Value>, hmac: Hmac, key: Text)
    requires RequestCalls(ps)
    requires multiset(log) == multiset(AllLines(ps, hmac, key)) && AllCollisionFree(ps, hmac, key)
    ensures Accepts(log, hmac, key) <==> RequestsComplete(ps)
  {
    RequestContexts(ps);
    ContextsDecide(ps, log, hmac, key);
  }
}
