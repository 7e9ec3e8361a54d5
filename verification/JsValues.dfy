/**
 The JavaScript values that audit records are made of, and the abstract JSON value each of them
 stands for. An object keeps its members in insertion order; its meaning forgets that order and
 reads `undefined` as `null`.
 */
module JsValues {
  import opened JsText

  datatype Entry<+T> = Entry(key: Text, value: T)

  datatype Value =
    | Undefined
    | Null
    | Bool(b: bool)
    | Num(n: int)
    | Str(s: Text)
    | Arr(items: seq<Value>)
    | Obj(members: seq<Entry<Value>>)

  type Members = seq<Entry<Value>>

  /** A JSON value in the sense of RFC 8259: objects are unordered. */
  datatype Json =
    | JNull
    | JBool(b: bool)
    | JNum(n: int)
    | JStr(s: Text)
    | JArr(items: seq<Json>)
    | JObj(members: map<Text, Json>)

  ghost function Meaning(v: Value): Json
    decreases v
  {
    match v
    case Undefined => JNull
    case Null => JNull
    case Bool(b) => JBool(b)
    case Num(n) => JNum(n)
    case Str(s) => JStr(s)
    case Arr(items) => JArr(ItemsMeaning(items))
    case Obj(ms) => JObj(MembersMeaning(ms))
  }

  ghost function ItemsMeaning(items: seq<Value>): (js: seq<Json>)
    ensures |js| == |items|
    decreases items
  {
    if items == [] then [] else [Meaning(items[0])] + ItemsMeaning(items[1..])
  }

  ghost function MembersMeaning(ms: Members): map<Text, Json>
    decreases ms
  {
    if ms == [] then map[] else MembersMeaning(ms[1..])[ms[0].key := Meaning(ms[0].value)]
  }

  // ----- Shape -----

  predicate DistinctKeys<T>(ms: seq<Entry<T>>) {
    ms == [] || (!HasKey(ms[1..], ms[0].key) && DistinctKeys(ms[1..]))
  }

  /** What every JavaScript object guarantees: no key occurs twice, at any depth. */
  predicate WellFormed(v: Value)
    decreases v
  {
    match v
    case Arr(items) => forall i | 0 <= i < |items| :: WellFormed(items[i])
    case Obj(ms) => DistinctKeys(ms) && forall i | 0 <= i < |ms| :: WellFormed(ms[i].value)
    case _ => true
  }

  /** No `undefined` anywhere: what JSON text can express, and what `JSON.parse` returns. */
  predicate Clean(v: Value)
    decreases v
  {
    match v
    case Undefined => false
    case Arr(items) => forall i | 0 <= i < |items| :: Clean(items[i])
    case Obj(ms) => forall i | 0 <= i < |ms| :: Clean(ms[i].value)
    case _ => true
  }

  /** No object member is `undefined` at any depth; array elements may be. */
  predicate NoUndefinedMember(v: Value)
    decreases v
  {
    match v
    case Arr(items) => forall i | 0 <= i < |items| :: NoUndefinedMember(items[i])
    case Obj(ms) =>
      forall i | 0 <= i < |ms| :: !ms[i].value.Undefined? && NoUndefinedMember(ms[i].value)
    case _ => true
  }

  // ----- Members -----

  predicate HasKey<T>(ms: seq<Entry<T>>, k: Text) {
    ms != [] && (ms[0].key == k || HasKey(ms[1..], k))
  }

  /** `o[k]`, `undefined` when the object has no such member. */
  function Get(ms: Members, k: Text): Value {
    if ms == [] then Undefined else if ms[0].key == k then ms[0].value else Get(ms[1..], k)
  }

  /** Property access on any value; only objects have the members that audit code reads. */
  function Field(v: Value, k: Text): Value {
    if v.Obj? then Get(v.members, k) else Undefined
  }

  /** `o[k] = v`: an existing member keeps its place, a new one goes to the end. */
  function Put(ms: Members, k: Text, v: Value): Members {
    if ms == [] then [Entry(k, v)]
    else if ms[0].key == k then [Entry(k, v)] + ms[1..]
    else [ms[0]] + Put(ms[1..], k, v)
  }

  /** `{...ms, ...more}`. */
  function Spread(ms: Members, more: Members): Members
    decreases more
  {
    if more == [] then ms else Spread(Put(ms, more[0].key, more[0].value), more[1..])
  }

  /** The rest pattern of `const { k1, k2, ...rest } = o`. */
  function Without(ms: Members, ks: set<Text>): Members {
    if ms == [] then []
    else if ms[0].key in ks then Without(ms[1..], ks)
    else [ms[0]] + Without(ms[1..], ks)
  }

  // ----- Operators -----

  /** `a === b`: distinct arrays and objects are never identical. */
  predicate StrictEq(a: Value, b: Value) {
    a == b && !a.Arr? && !a.Obj?
  }

  predicate Truthy(v: Value) {
    match v
    case Undefined => false
    case Null => false
    case Bool(b) => b
    case Num(n) => n != 0
    case Str(s) => s != []
    case _ => true
  }

  /** `v || null`. */
  function OrNull(v: Value): Value {
    if Truthy(v) then v else Null
  }

  const OBJECT_TEXT := Ascii("[object Object]")

  /** The text that `+` uses for a value when the other operand is a string. */
  function ToText(v: Value): Text
    decreases v
  {
    match v
    case Undefined => Ascii("undefined")
    case Null => Ascii("null")
    case Bool(b) => if b then Ascii("true") else Ascii("false")
    case Num(n) => Numeral(n)
    case Str(s) => s
    case Arr(items) => Join(ItemTexts(items))
    case Obj(_) => OBJECT_TEXT
  }

  /** `Array.prototype.join` writes nothing for `undefined` and `null`. */
  function ItemTexts(items: seq<Value>): seq<Text>
    decreases items
  {
    if items == [] then []
    else [if items[0].Undefined? || items[0].Null? then [] else ToText(items[0])] + ItemTexts(items[1..])
  }

  /** `String(v)` of the primitive values. */
  lemma PrimitiveTexts(s: Text)
    ensures ToText(Undefined) == Ascii("undefined") && ToText(Null) == Ascii("null")
    ensures ToText(Bool(true)) == Ascii("true") && ToText(Bool(false)) == Ascii("false")
    ensures ToText(Str(s)) == s && ToText(Arr([Str(s)])) == s && ToText(Arr([])) == []
    ensures ToText(Obj([])) == Ascii("[object Object]")
  {
    assert ItemTexts([Str(s)]) == [s];
    assert ItemTexts([]) == [];
  }

  // ----- Facts -----

  /** The meaning of an object is the meaning of its members, looked up by key. */
  lemma {:induction false} MembersMeaningAt(ms: Members, k: Text)
    ensures k in MembersMeaning(ms) <==> HasKey(ms, k)
    ensures HasKey(ms, k) ==> MembersMeaning(ms)[k] == Meaning(Get(ms, k))
  {
    if ms != [] {
      MembersMeaningAt(ms[1..], k);
    }
  }

  lemma {:induction false} GetAbsent(ms: Members, k: Text)
    requires !HasKey(ms, k)
    ensures Get(ms, k) == Undefined
  {
    if ms != [] {
      GetAbsent(ms[1..], k);
    }
  }

  lemma {:induction false} PutFacts(ms: Members, k: Text, v: Value, q: Text)
    ensures Get(Put(ms, k, v), q) == if q == k then v else Get(ms, q)
    ensures HasKey(Put(ms, k, v), q) <==> q == k || HasKey(ms, q)
  {
    if ms != [] && ms[0].key != k {
      PutFacts(ms[1..], k, v, q);
    }
  }

  lemma {:induction false} PutDistinct(ms: Members, k: Text, v: Value)
    requires DistinctKeys(ms)
    ensures DistinctKeys(Put(ms, k, v))
  {
    if ms != [] && ms[0].key != k {
      PutDistinct(ms[1..], k, v);
      PutFacts(ms[1..], k, v, ms[0].key);
    }
  }

  lemma {:induction false} WithoutFacts(ms: Members, ks: set<Text>, q: Text)
    ensures Get(Without(ms, ks), q) == if q in ks then Undefined else Get(ms, q)
    ensures HasKey(Without(ms, ks), q) <==> q !in ks && HasKey(ms, q)
  {
    if ms != [] {
      WithoutFacts(ms[1..], ks, q);
    }
  }
}
