/**
 Audit records: how one is built and signed, what its hash commits to, and how it reaches the
 verifier through a log line. HMAC is any function from a key and a message to 64 hexadecimal
 digits (section 2 of RFC 2104 fixes only its inside); nothing is assumed about collisions.
 */
module AuditRecords {
  import opened JsText
  import opened JsValues
  import opened CanonicalJson
  import opened JsonParser
  import opened LogLine

  const AUDIT := Ascii("AUDIT")
  const CATEGORY := Ascii("category")
  const TIMESTAMP := Ascii("timestamp")
  const CHAIN_ID := Ascii("chainId")
  const SEQ := Ascii("seq")
  const ACTION := Ascii("action")
  const RESULT := Ascii("result")
  const ACTOR := Ascii("actor")
  const RESOURCE := Ascii("resource")
  const REQUEST_ID := Ascii("requestId")
  const METADATA := Ascii("metadata")
  const PREV_HASH := Ascii("prevHash")
  const HASH := Ascii("hash")
  const LEVEL := Ascii("level")
  const MESSAGE := Ascii("message")

  const UNSIGNED: set<Text> := {HASH, LEVEL, MESSAGE}

  predicate IsDigest(t: Text) {
    |t| == 64 && forall i | 0 <= i < 64 :: IsDigit(t[i]) || 0x61 <= t[i] <= 0x66
  }

  /** `'0'.repeat(n)`. */
  function Zeros(n: nat): (t: Text)
    ensures |t| == n && forall i | 0 <= i < n :: t[i] == ZERO
  {
    if n == 0 then [] else [ZERO] + Zeros(n - 1)
  }

  const GENESIS: Text := Zeros(64)

  type Digest = t: Text | IsDigest(t) witness Zeros(64)

  type Hmac = (Text, Text) -> Digest

  // ----- Reading a record -----

  predicate IsAudit(r: Value) {
    Field(r, CATEGORY) == Str(AUDIT)
  }

  function ChainId(r: Value): Value {
    Field(r, CHAIN_ID)
  }

  function SeqOf(r: Value): Value {
    Field(r, SEQ)
  }

  function PrevOf(r: Value): Value {
    Field(r, PREV_HASH)
  }

  function HashOf(r: Value): Value {
    Field(r, HASH)
  }

  /** `const { hash, level, message, ...rest } = r`. */
  function Rest(r: Value): Value {
    if r.Obj? then Obj(Without(r.members, UNSIGNED)) else r
  }

  /** The message that is hashed for a record without its `hash`. */
  function MessageOf(rest: Value): Text {
    ToText(Field(rest, PREV_HASH)) + Canonical(rest)
  }

  function ComputeHash(rest: Value, hmac: Hmac, key: Text): Digest {
    hmac(key, MessageOf(rest))
  }

  /** The message the verifier recomputes for a logged record. */
  function Signed(r: Value): Text {
    MessageOf(Rest(r))
  }

  predicate HashVerifies(r: Value, hmac: Hmac, key: Text) {
    HashOf(r) == Str(ComputeHash(Rest(r), hmac, key))
  }

  // ----- Building a record -----

  /** The argument of one `audit` call, with the clock and request id it reads. */
  datatype AuditEvent = AuditEvent(
    timestamp: Text, action: Value, result: Value, actor: Value, resource: Value,
    requestId: Value, context: Members, metadata: Value)

  /** Inputs are JavaScript objects, so their keys are distinct. */
  predicate EventWellFormed(e: AuditEvent) {
    && WellFormed(e.action) && WellFormed(e.result) && WellFormed(e.actor) && WellFormed(e.resource)
    && WellFormed(e.requestId) && WellFormed(Obj(e.context)) && WellFormed(e.metadata)
  }

  /** Context members that would overwrite what the chain needs, or that the logger claims. */
  predicate Reserved(k: Text) {
    k == CATEGORY || k == CHAIN_ID || k == SEQ || k == HASH || k == LEVEL || k == MESSAGE
  }

  ghost predicate ContextAllowed(e: AuditEvent) {
    forall k | Reserved(k) :: !HasKey(e.context, k)
  }

  /** The members that describe the action. */
  function ActionMembers(e: AuditEvent): Members {
    [Entry(ACTION, e.action), Entry(RESULT, e.result), Entry(ACTOR, OrNull(e.actor)),
     Entry(RESOURCE, OrNull(e.resource)), Entry(REQUEST_ID, OrNull(e.requestId))]
  }

  /** The members that place the record in its chain. */
  function ChainMembers(chainId: Text, seq_: nat, e: AuditEvent): Members {
    [Entry(CATEGORY, Str(AUDIT)), Entry(TIMESTAMP, Str(e.timestamp)), Entry(CHAIN_ID, Str(chainId)),
     Entry(SEQ, Num(seq_))]
  }

  function BaseMembers(chainId: Text, seq_: nat, e: AuditEvent): Members {
    ChainMembers(chainId, seq_, e) + ActionMembers(e)
  }

  /** The record literal of `audit`, before its `hash` is added. */
  function Unhashed(chainId: Text, seq_: nat, prev: Text, e: AuditEvent): Members {
    var spread := Spread(BaseMembers(chainId, seq_, e), e.context);
    var withMetadata := if Truthy(e.metadata) then Put(spread, METADATA, e.metadata) else spread;
    Put(withMetadata, PREV_HASH, Str(prev))
  }

  function SignRecord(chainId: Text, seq_: nat, prev: Text, e: AuditEvent, hmac: Hmac, key: Text): (r: Value)
    ensures r.Obj?
  {
    var ms := Unhashed(chainId, seq_, prev, e);
    Obj(Put(ms, HASH, Str(ComputeHash(Obj(ms), hmac, key))))
  }

  /** The object winston serializes: the record with `level` and `message`. */
  function Logged(r: Value): Value
    requires r.Obj?
  {
    Obj(Put(Put(r.members, LEVEL, Str(Ascii("info"))), MESSAGE, Str(Ascii("audit"))))
  }

  /** The object the verifier parses from the line of a record. */
  function FromLine(r: Value): Value
    requires r.Obj?
  {
    Dropped(Logged(r))
  }

  // ----- Facts about field names -----

  lemma Names()
    ensures |CATEGORY| == 8 && CATEGORY[0] == 0x63 && |TIMESTAMP| == 9 && TIMESTAMP[0] == 0x74
    ensures |CHAIN_ID| == 7 && CHAIN_ID[0] == 0x63 && |SEQ| == 3 && |HASH| == 4
    ensures |ACTION| == 6 && ACTION[0] == 0x61 && |RESULT| == 6 && RESULT[0] == 0x72
    ensures |ACTOR| == 5 && ACTOR[0] == 0x61 && |RESOURCE| == 8 && RESOURCE[0] == 0x72
    ensures |REQUEST_ID| == 9 && REQUEST_ID[0] == 0x72 && |METADATA| == 8 && METADATA[0] == 0x6D
    ensures |PREV_HASH| == 8 && PREV_HASH[0] == 0x70 && |LEVEL| == 5 && LEVEL[0] == 0x6C
    ensures |MESSAGE| == 7 && MESSAGE[0] == 0x6D
  {
  }

  lemma {:induction false} SpreadFacts(ms: Members, more: Members, q: Text)
    ensures !HasKey(more, q) ==> Get(Spread(ms, more), q) == Get(ms, q)
    ensures HasKey(Spread(ms, more), q) <==> HasKey(ms, q) || HasKey(more, q)
    decreases more
  {
    if more != [] {
      PutFacts(ms, more[0].key, more[0].value, q);
      SpreadFacts(Put(ms, more[0].key, more[0].value), more[1..], q);
    }
  }

  lemma {:induction false} PutWellFormed(ms: Members, k: Text, v: Value)
    requires WellFormed(Obj(ms)) && WellFormed(v)
    ensures WellFormed(Obj(Put(ms, k, v)))
  {
    PutDistinct(ms, k, v);
    PutValues(ms, k, v);
  }

  lemma {:induction false} PutValues(ms: Members, k: Text, v: Value)
    ensures forall i | 0 <= i < |Put(ms, k, v)| :: Put(ms, k, v)[i] in ms || Put(ms, k, v)[i].value == v
  {
    if ms != [] && ms[0].key != k {
      PutValues(ms[1..], k, v);
    }
  }

  lemma {:induction false} SpreadWellFormed(ms: Members, more: Members)
    requires WellFormed(Obj(ms)) && WellFormed(Obj(more))
    ensures WellFormed(Obj(Spread(ms, more)))
    decreases more
  {
    if more != [] {
      PutWellFormed(ms, more[0].key, more[0].value);
      SpreadWellFormed(Put(ms, more[0].key, more[0].value), more[1..]);
    }
  }

  lemma {:induction false} AppendFacts(a: Members, b: Members, q: Text)
    ensures HasKey(a + b, q) <==> HasKey(a, q) || HasKey(b, q)
    ensures Get(a + b, q) == if HasKey(a, q) then Get(a, q) else Get(b, q)
  {
    if a == [] {
      assert a + b == b;
    } else {
      AppendFacts(a[1..], b, q);
      assert (a + b)[1..] == a[1..] + b;
    }
  }

  lemma {:induction false} AppendDistinct(a: Members, b: Members)
    requires DistinctKeys(a) && DistinctKeys(b) && forall k | HasKey(a, k) :: !HasKey(b, k)
    ensures DistinctKeys(a + b)
  {
    if a == [] {
      assert a + b == b;
    } else {
      AppendDistinct(a[1..], b);
      AppendFacts(a[1..], b, a[0].key);
      assert (a + b)[1..] == a[1..] + b;
    }
  }

  lemma ConsFacts(m: Entry<Value>, ms: Members)
    ensures forall k :: HasKey([m] + ms, k) <==> k == m.key || HasKey(ms, k)
    ensures forall k :: Get([m] + ms, k) == if k == m.key then m.value else Get(ms, k)
    ensures DistinctKeys([m] + ms) <==> !HasKey(ms, m.key) && DistinctKeys(ms)
  {
    assert ([m] + ms)[1..] == ms;
  }

  lemma ActionFacts(e: AuditEvent)
    ensures DistinctKeys(ActionMembers(e))
    ensures forall k :: HasKey(ActionMembers(e), k) <==> k in {ACTION, RESULT, ACTOR, RESOURCE, REQUEST_ID}
    ensures Get(ActionMembers(e), ACTION) == e.action && Get(ActionMembers(e), RESULT) == e.result
    ensures Get(ActionMembers(e), ACTOR) == OrNull(e.actor) && Get(ActionMembers(e), RESOURCE) == OrNull(e.resource)
    ensures Get(ActionMembers(e), REQUEST_ID) == OrNull(e.requestId)
  {
    Names();
    var ms := ActionMembers(e);
    var from4 := [ms[4]] + [];
    var from3 := [ms[3]] + from4;
    var from2 := [ms[2]] + from3;
    var from1 := [ms[1]] + from2;
    ConsFacts(ms[4], []);
    ConsFacts(ms[3], from4);
    ConsFacts(ms[2], from3);
    ConsFacts(ms[1], from2);
    ConsFacts(ms[0], from1);
    assert ms == [ms[0]] + from1;
  }

  lemma ChainFacts(chainId: Text, seq_: nat, e: AuditEvent)
    ensures var ms := ChainMembers(chainId, seq_, e);
            && DistinctKeys(ms)
            && (forall k :: HasKey(ms, k) <==> k in {CATEGORY, TIMESTAMP, CHAIN_ID, SEQ})
            && Get(ms, CATEGORY) == Str(AUDIT) && Get(ms, CHAIN_ID) == Str(chainId) && Get(ms, SEQ) == Num(seq_)
            && Get(ms, TIMESTAMP) == Str(e.timestamp)
  {
    Names();
    var ms := ChainMembers(chainId, seq_, e);
    var from3 := [ms[3]] + [];
    var from2 := [ms[2]] + from3;
    var from1 := [ms[1]] + from2;
    ConsFacts(ms[3], []);
    ConsFacts(ms[2], from3);
    ConsFacts(ms[1], from2);
    ConsFacts(ms[0], from1);
    assert ms == [ms[0]] + from1;
  }

  lemma BaseFacts(chainId: Text, seq_: nat, e: AuditEvent)
    requires EventWellFormed(e)
    ensures var ms := BaseMembers(chainId, seq_, e);
            && WellFormed(Obj(ms))
            && Get(ms, CATEGORY) == Str(AUDIT) && Get(ms, CHAIN_ID) == Str(chainId)
            && Get(ms, SEQ) == Num(seq_)
            && !HasKey(ms, HASH) && !HasKey(ms, LEVEL) && !HasKey(ms, MESSAGE)
  {
    Names();
    var chain := ChainMembers(chainId, seq_, e);
    var action := ActionMembers(e);
    ChainFacts(chainId, seq_, e);
    ActionFacts(e);
    AppendDistinct(chain, action);
    AppendFacts(chain, action, CATEGORY);
    AppendFacts(chain, action, CHAIN_ID);
    AppendFacts(chain, action, SEQ);
    AppendFacts(chain, action, HASH);
    AppendFacts(chain, action, LEVEL);
    AppendFacts(chain, action, MESSAGE);
  }

  lemma UnhashedAt(chainId: Text, seq_: nat, prev: Text, e: AuditEvent, k: Text)
    requires Reserved(k) && ContextAllowed(e)
    ensures Get(Unhashed(chainId, seq_, prev, e), k) == Get(BaseMembers(chainId, seq_, e), k)
    ensures HasKey(Unhashed(chainId, seq_, prev, e), k) <==> HasKey(BaseMembers(chainId, seq_, e), k)
  {
    Names();
    var base := BaseMembers(chainId, seq_, e);
    var spread := Spread(base, e.context);
    var meta := if Truthy(e.metadata) then Put(spread, METADATA, e.metadata) else spread;
    assert k != METADATA && k != PREV_HASH;
    SpreadFacts(base, e.context, k);
    PutFacts(spread, METADATA, e.metadata, k);
    PutFacts(meta, PREV_HASH, Str(prev), k);
  }

  lemma UnhashedFacts(chainId: Text, seq_: nat, prev: Text, e: AuditEvent)
    requires EventWellFormed(e) && ContextAllowed(e)
    ensures var ms := Unhashed(chainId, seq_, prev, e);
            && WellFormed(Obj(ms))
            && Get(ms, CATEGORY) == Str(AUDIT) && Get(ms, CHAIN_ID) == Str(chainId)
            && Get(ms, SEQ) == Num(seq_) && Get(ms, PREV_HASH) == Str(prev)
            && forall k | k in UNSIGNED :: !HasKey(ms, k)
  {
    var base := BaseMembers(chainId, seq_, e);
    BaseFacts(chainId, seq_, e);
    var spread := Spread(base, e.context);
    SpreadWellFormed(base, e.context);
    var meta := if Truthy(e.metadata) then Put(spread, METADATA, e.metadata) else spread;
    if Truthy(e.metadata) {
      PutWellFormed(spread, METADATA, e.metadata);
    }
    PutWellFormed(meta, PREV_HASH, Str(prev));
    PutFacts(meta, PREV_HASH, Str(prev), PREV_HASH);
    forall k | Reserved(k) {
      UnhashedAt(chainId, seq_, prev, e, k);
    }
  }

  /** Members outside the signed part come and go without touching it. */
  lemma {:induction false} WithoutPut(ms: Members, k: Text, v: Value, ks: set<Text>)
    requires k in ks
    ensures Without(Put(ms, k, v), ks) == Without(ms, ks)
  {
    if ms != [] && ms[0].key != k {
      WithoutPut(ms[1..], k, v, ks);
    }
  }

  lemma {:induction false} WithoutNothing(ms: Members, ks: set<Text>)
    requires forall k | k in ks :: !HasKey(ms, k)
    ensures Without(ms, ks) == ms
  {
    if ms != [] {
      WithoutNothing(ms[1..], ks);
    }
  }

  lemma {:induction false} WithoutDropped(ms: Members, ks: set<Text>)
    ensures Without(DroppedMembers(ms), ks) == DroppedMembers(Without(ms, ks))
  {
    if ms != [] {
      WithoutDropped(ms[1..], ks);
    }
  }

  lemma {:induction false} GetDropped(ms: Members, k: Text)
    requires DistinctKeys(ms)
    ensures Get(DroppedMembers(ms), k) == if Get(ms, k).Undefined? then Undefined else Dropped(Get(ms, k))
  {
    if ms != [] {
      GetDropped(ms[1..], k);
      if ms[0].key == k && ms[0].value.Undefined? {
        GetAbsent(ms[1..], k);
      }
    }
  }

  lemma RecordFacts(chainId: Text, seq_: nat, prev: Text, e: AuditEvent, hmac: Hmac, key: Text)
    requires EventWellFormed(e) && ContextAllowed(e)
    ensures var r := SignRecord(chainId, seq_, prev, e, hmac, key);
            && r.Obj? && WellFormed(r) && IsAudit(r) && ChainId(r) == Str(chainId) && SeqOf(r) == Num(seq_)
            && PrevOf(r) == Str(prev)
            && Rest(r) == Obj(Unhashed(chainId, seq_, prev, e))
            && HashVerifies(r, hmac, key) && Describes(r, chainId, seq_, prev, e)
  {
    RecordContent(chainId, seq_, prev, e, hmac, key);
    Names();
    var ms := Unhashed(chainId, seq_, prev, e);
    UnhashedFacts(chainId, seq_, prev, e);
    var hash := Str(ComputeHash(Obj(ms), hmac, key));
    PutWellFormed(ms, HASH, hash);
    PutFacts(ms, HASH, hash, HASH);
    PutFacts(ms, HASH, hash, CATEGORY);
    PutFacts(ms, HASH, hash, CHAIN_ID);
    PutFacts(ms, HASH, hash, SEQ);
    PutFacts(ms, HASH, hash, PREV_HASH);
    WithoutPut(ms, HASH, hash, UNSIGNED);
    WithoutNothing(ms, UNSIGNED);
  }

  lemma {:induction false} SpreadGet(ms: Members, more: Members, k: Text)
    requires DistinctKeys(more)
    ensures Get(Spread(ms, more), k) == if HasKey(more, k) then Get(more, k) else Get(ms, k)
    decreases more
  {
    if more != [] {
      var first := Put(ms, more[0].key, more[0].value);
      PutFacts(ms, more[0].key, more[0].value, k);
      SpreadGet(first, more[1..], k);
    }
  }

  // ----- What a record says -----

  /** What `||` and a condition take for absent. */
  predicate Absent(v: Value) {
    v == Undefined || v == Null || v == Bool(false) || v == Num(0) || v == Str([])
  }

  /** The record shows `v` under the name, unless the context has a member of that name. */
  ghost predicate Shows(r: Value, e: AuditEvent, name: Text, v: Value) {
    Field(r, name) == if HasKey(e.context, name) then Get(e.context, name) else v
  }

  ghost predicate PlacesInChain(r: Value, chainId: Text, n: nat, e: AuditEvent) {
    && Shows(r, e, Ascii("category"), Str(Ascii("AUDIT"))) && Shows(r, e, Ascii("timestamp"), Str(e.timestamp))
    && Shows(r, e, Ascii("chainId"), Str(chainId)) && Shows(r, e, Ascii("seq"), Num(n))
  }

  ghost predicate TellsAction(r: Value, e: AuditEvent) {
    Shows(r, e, Ascii("action"), e.action) && Shows(r, e, Ascii("result"), e.result) && TellsParties(r, e)
  }

  ghost predicate TellsParties(r: Value, e: AuditEvent) {
    && Shows(r, e, Ascii("actor"), if Absent(e.actor) then Null else e.actor)
    && Shows(r, e, Ascii("resource"), if Absent(e.resource) then Null else e.resource)
    && Shows(r, e, Ascii("requestId"), if Absent(e.requestId) then Null else e.requestId)
  }

  /** Who did what with which result, when, and where in the chain, by the names in the log. */
  ghost predicate Describes(r: Value, chainId: Text, n: nat, prev: Text, e: AuditEvent) {
    && PlacesInChain(r, chainId, n, e) && TellsAction(r, e)
    && Field(r, Ascii("prevHash")) == Str(prev)
    && (!Absent(e.metadata) ==> Field(r, Ascii("metadata")) == e.metadata)
    && (Absent(e.metadata) ==> Shows(r, e, Ascii("metadata"), Undefined))
  }

  const OWN_NAMES: set<Text> :=
    {CATEGORY, TIMESTAMP, CHAIN_ID, SEQ, ACTION, RESULT, ACTOR, RESOURCE, REQUEST_ID}

  lemma BaseContent(chainId: Text, seq_: nat, e: AuditEvent)
    ensures var ms := BaseMembers(chainId, seq_, e);
            && (forall k :: HasKey(ms, k) <==> k in OWN_NAMES)
            && Get(ms, CATEGORY) == Str(AUDIT) && Get(ms, TIMESTAMP) == Str(e.timestamp)
            && Get(ms, CHAIN_ID) == Str(chainId) && Get(ms, SEQ) == Num(seq_)
            && Get(ms, ACTION) == e.action && Get(ms, RESULT) == e.result && Get(ms, ACTOR) == OrNull(e.actor)
            && Get(ms, RESOURCE) == OrNull(e.resource) && Get(ms, REQUEST_ID) == OrNull(e.requestId)
  {
    Names();
    var chain, action := ChainMembers(chainId, seq_, e), ActionMembers(e);
    ChainFacts(chainId, seq_, e);
    ActionFacts(e);
    forall k
      ensures HasKey(chain + action, k) <==> HasKey(chain, k) || HasKey(action, k)
      ensures Get(chain + action, k) == if HasKey(chain, k) then Get(chain, k) else Get(action, k)
    {
      AppendFacts(chain, action, k);
    }
  }

  /** Every member of a record: its own, overridden by the context, and then metadata, link and hash. */
  lemma SignedGet(chainId: Text, seq_: nat, prev: Text, e: AuditEvent, hmac: Hmac, key: Text, k: Text)
    requires WellFormed(Obj(e.context))
    ensures var r, base := SignRecord(chainId, seq_, prev, e, hmac, key), BaseMembers(chainId, seq_, e);
            && (k != HASH ==>
                  Field(r, k) == if k == PREV_HASH then Str(prev)
                                 else if k == METADATA && Truthy(e.metadata) then e.metadata
                                 else if HasKey(e.context, k) then Get(e.context, k) else Get(base, k))
            && (HasKey(r.members, k) <==>
                  k == HASH || k == PREV_HASH || (k == METADATA && Truthy(e.metadata))
                  || HasKey(e.context, k) || HasKey(base, k))
  {
    Names();
    var base := BaseMembers(chainId, seq_, e);
    var spread := Spread(base, e.context);
    var meta := if Truthy(e.metadata) then Put(spread, METADATA, e.metadata) else spread;
    var ms := Put(meta, PREV_HASH, Str(prev));
    SpreadGet(base, e.context, k);
    SpreadFacts(base, e.context, k);
    PutFacts(spread, METADATA, e.metadata, k);
    PutFacts(meta, PREV_HASH, Str(prev), k);
    PutFacts(ms, HASH, Str(ComputeHash(Obj(ms), hmac, key)), k);
  }

  lemma OwnName(k: Text)
    requires k in OWN_NAMES
    ensures k != HASH && k != PREV_HASH && k != METADATA
  {
    Names();
  }

  lemma SignedShows(chainId: Text, seq_: nat, prev: Text, e: AuditEvent, hmac: Hmac, key: Text, name: Text, v: Value)
    requires WellFormed(Obj(e.context))
    requires name in OWN_NAMES && Get(BaseMembers(chainId, seq_, e), name) == v
    ensures Shows(SignRecord(chainId, seq_, prev, e, hmac, key), e, name, v)
  {
    OwnName(name);
    SignedGet(chainId, seq_, prev, e, hmac, key, name);
  }

  lemma AbsentIsFalsy(v: Value)
    ensures Absent(v) <==> !Truthy(v)
    ensures OrNull(v) == if Absent(v) then Null else v
  {
  }

  lemma MetadataContent(chainId: Text, seq_: nat, prev: Text, e: AuditEvent, hmac: Hmac, key: Text)
    requires WellFormed(Obj(e.context))
    ensures var r := SignRecord(chainId, seq_, prev, e, hmac, key);
            && Field(r, Ascii("prevHash")) == Str(prev)
            && (!Absent(e.metadata) ==> Field(r, Ascii("metadata")) == e.metadata)
            && (Absent(e.metadata) ==> Shows(r, e, METADATA, Undefined))
  {
    Names();
    AbsentIsFalsy(e.metadata);
    BaseContent(chainId, seq_, e);
    GetAbsent(BaseMembers(chainId, seq_, e), METADATA);
    SignedGet(chainId, seq_, prev, e, hmac, key, METADATA);
    SignedGet(chainId, seq_, prev, e, hmac, key, PREV_HASH);
  }

  lemma ChainContent(chainId: Text, seq_: nat, prev: Text, e: AuditEvent, hmac: Hmac, key: Text)
    requires WellFormed(Obj(e.context))
    ensures PlacesInChain(SignRecord(chainId, seq_, prev, e, hmac, key), chainId, seq_, e)
  {
    BaseContent(chainId, seq_, e);
    SignedShows(chainId, seq_, prev, e, hmac, key, CATEGORY, Str(Ascii("AUDIT")));
    SignedShows(chainId, seq_, prev, e, hmac, key, TIMESTAMP, Str(e.timestamp));
    SignedShows(chainId, seq_, prev, e, hmac, key, CHAIN_ID, Str(chainId));
    SignedShows(chainId, seq_, prev, e, hmac, key, SEQ, Num(seq_));
  }

  lemma ActionContent(chainId: Text, seq_: nat, prev: Text, e: AuditEvent, hmac: Hmac, key: Text)
    requires WellFormed(Obj(e.context))
    ensures TellsAction(SignRecord(chainId, seq_, prev, e, hmac, key), e)
  {
    BaseContent(chainId, seq_, e);
    SignedShows(chainId, seq_, prev, e, hmac, key, ACTION, e.action);
    SignedShows(chainId, seq_, prev, e, hmac, key, RESULT, e.result);
    PartiesContent(chainId, seq_, prev, e, hmac, key);
  }

  lemma PartyShows(chainId: Text, seq_: nat, prev: Text, e: AuditEvent, hmac: Hmac, key: Text, name: Text, v: Value)
    requires WellFormed(Obj(e.context))
    requires name in OWN_NAMES && Get(BaseMembers(chainId, seq_, e), name) == OrNull(v)
    ensures Shows(SignRecord(chainId, seq_, prev, e, hmac, key), e, name, if Absent(v) then Null else v)
  {
    AbsentIsFalsy(v);
    SignedShows(chainId, seq_, prev, e, hmac, key, name, OrNull(v));
  }

  lemma PartiesContent(chainId: Text, seq_: nat, prev: Text, e: AuditEvent, hmac: Hmac, key: Text)
    requires WellFormed(Obj(e.context))
    ensures TellsParties(SignRecord(chainId, seq_, prev, e, hmac, key), e)
  {
    BaseContent(chainId, seq_, e);
    PartyShows(chainId, seq_, prev, e, hmac, key, ACTOR, e.actor);
    PartyShows(chainId, seq_, prev, e, hmac, key, RESOURCE, e.resource);
    PartyShows(chainId, seq_, prev, e, hmac, key, REQUEST_ID, e.requestId);
  }

  /** The record of one call says what the call said, whatever its context. */
  lemma RecordContent(chainId: Text, seq_: nat, prev: Text, e: AuditEvent, hmac: Hmac, key: Text)
    requires WellFormed(Obj(e.context))
    ensures Describes(SignRecord(chainId, seq_, prev, e, hmac, key), chainId, seq_, prev, e)
  {
    ChainContent(chainId, seq_, prev, e, hmac, key);
    ActionContent(chainId, seq_, prev, e, hmac, key);
    MetadataContent(chainId, seq_, prev, e, hmac, key);
  }

  /** Members that the call itself gives a value after the context has been spread. */
  predicate Overridden(e: AuditEvent, k: Text) {
    k == Ascii("prevHash") || k == Ascii("hash") || (k == Ascii("metadata") && !Absent(e.metadata))
  }

  /** Every other member of the context is read back from the record. */
  lemma ContextReadBack(chainId: Text, seq_: nat, prev: Text, e: AuditEvent, hmac: Hmac, key: Text, k: Text)
    requires WellFormed(Obj(e.context)) && HasKey(e.context, k) && !Overridden(e, k)
    ensures Field(SignRecord(chainId, seq_, prev, e, hmac, key), k) == Get(e.context, k)
  {
    AbsentIsFalsy(e.metadata);
    SignedGet(chainId, seq_, prev, e, hmac, key, k);
  }

  predicate NamesPlace(k: Text) {
    k == Ascii("category") || k == Ascii("timestamp") || k == Ascii("chainId") || k == Ascii("seq")
  }

  predicate NamesAction(k: Text) {
    || k == Ascii("action") || k == Ascii("result") || k == Ascii("actor") || k == Ascii("resource")
    || k == Ascii("requestId")
  }

  lemma OwnNames(k: Text)
    ensures k in OWN_NAMES <==> NamesPlace(k) || NamesAction(k)
  {
  }

  /** A record has the members of its context, its own nine, its link, its hash and true metadata only. */
  lemma RecordMembers(chainId: Text, seq_: nat, prev: Text, e: AuditEvent, hmac: Hmac, key: Text, k: Text)
    requires WellFormed(Obj(e.context))
    ensures HasKey(SignRecord(chainId, seq_, prev, e, hmac, key).members, k) <==>
            HasKey(e.context, k) || Overridden(e, k) || NamesPlace(k) || NamesAction(k)
  {
    AbsentIsFalsy(e.metadata);
    SignedGet(chainId, seq_, prev, e, hmac, key, k);
    BaseContent(chainId, seq_, e);
    OwnNames(k);
  }

  /** The hash commits to the link and to the canonical text of the record without the hash itself. */
  lemma HashContent(chainId: Text, seq_: nat, prev: Text, e: AuditEvent, hmac: Hmac, key: Text)
    requires EventWellFormed(e) && ContextAllowed(e)
    ensures var r := SignRecord(chainId, seq_, prev, e, hmac, key);
            Field(r, Ascii("hash"))
            == Str(hmac(key, prev + Canonical(Obj(Without(r.members, {Ascii("hash")})))))
  {
    Names();
    var ms := Unhashed(chainId, seq_, prev, e);
    var hash := Str(ComputeHash(Obj(ms), hmac, key));
    UnhashedFacts(chainId, seq_, prev, e);
    PutFacts(ms, HASH, hash, HASH);
    WithoutPut(ms, HASH, hash, {HASH});
    assert HASH in UNSIGNED;
    WithoutNothing(ms, {HASH});
  }

  /** The log line adds winston's level and message and changes nothing else. */
  lemma LoggedContent(r: Value, k: Text)
    requires r.Obj?
    ensures Field(Logged(r), k)
         == if k == Ascii("level") then Str(Ascii("info")) else if k == Ascii("message") then Str(Ascii("audit"))
            else Field(r, k)
  {
    Names();
    PutFacts(r.members, LEVEL, Str(Ascii("info")), k);
    PutFacts(Put(r.members, LEVEL, Str(Ascii("info"))), MESSAGE, Str(Ascii("audit")), k);
  }

  lemma GenesisLink()
    ensures |GENESIS| == 64 && forall i | 0 <= i < 64 :: GENESIS[i] == 0x30
  {
  }

  /** The logger's two members and the trip through JSON text leave the chain fields as they were. */
  lemma FromLineFacts(r: Value)
    requires r.Obj? && WellFormed(r)
    ensures WellFormed(FromLine(r)) && Clean(FromLine(r))
    ensures Parse(Stringify(Logged(r))) == Ok(FromLine(r), [])
    ensures Rest(FromLine(r)) == Dropped(Rest(r))
    ensures forall k | k in {CATEGORY, CHAIN_ID, SEQ, PREV_HASH, HASH} ::
              Field(FromLine(r), k) == if Field(r, k).Undefined? then Undefined else Dropped(Field(r, k))
  {
    Names();
    var info := Str(Ascii("info"));
    var audit := Str(Ascii("audit"));
    var leveled := Put(r.members, LEVEL, info);
    PutWellFormed(r.members, LEVEL, info);
    PutWellFormed(leveled, MESSAGE, audit);
    LineRoundTrip(Logged(r));
    WithoutPut(r.members, LEVEL, info, UNSIGNED);
    WithoutPut(leveled, MESSAGE, audit, UNSIGNED);
    WithoutDropped(Logged(r).members, UNSIGNED);
    forall k | k in {CATEGORY, CHAIN_ID, SEQ, PREV_HASH, HASH}
      ensures Field(FromLine(r), k) == if Field(r, k).Undefined? then Undefined else Dropped(Field(r, k))
    {
      PutFacts(r.members, LEVEL, info, k);
      PutFacts(leveled, MESSAGE, audit, k);
      GetDropped(Logged(r).members, k);
    }
  }

  /** The verifier recomputes the signed message exactly when no member of the record is `undefined`. */
  lemma SignedSurvivesLog(r: Value)
    requires r.Obj? && WellFormed(r) && PrevOf(r).Str?
    ensures Signed(FromLine(r)) == Signed(r) <==> NoUndefinedMember(Rest(r))
  {
    SignedFromLine(r);
    WithoutWellFormed(r.members, UNSIGNED);
    CanonicalSurvivesLog(Rest(r));
    LineRoundTrip(Rest(r));
    SamePrefix(PrevOf(r).s, Canonical(Rest(r)), Canonical(Dropped(Rest(r))));
  }

  lemma SamePrefix(p: Text, a: Text, b: Text)
    ensures p + a == p + b <==> a == b
  {
    assert (p + a)[|p|..] == a && (p + b)[|p|..] == b;
  }

  lemma SignedFromLine(r: Value)
    requires r.Obj? && WellFormed(r) && PrevOf(r).Str?
    ensures Signed(r) == PrevOf(r).s + Canonical(Rest(r))
    ensures Signed(FromLine(r)) == PrevOf(r).s + Canonical(Dropped(Rest(r)))
  {
    Names();
    FromLineFacts(r);
    RestPrev(r);
    assert Field(FromLine(r), PREV_HASH) == PrevOf(r);
    RestPrev(FromLine(r));
  }

  /** The message begins with the link to the previous record. */
  lemma RestPrev(r: Value)
    requires r.Obj?
    ensures Signed(r) == ToText(PrevOf(r)) + Canonical(Rest(r))
  {
    Names();
    WithoutFacts(r.members, UNSIGNED, PREV_HASH);
  }
}
