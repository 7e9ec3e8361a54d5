/**
 The deterministic serialization that audit hashes commit to, and the ordinary `JSON.stringify`
 that writes the log line. Both are shown to be one plain printer applied to a rearranged value.
 */
module CanonicalJson {
  import opened JsText
  import opened JsValues

  const NULL := Ascii("null")
  const TRUE := Ascii("true")
  const FALSE := Ascii("false")

  // ----- String quoting (section 7 of RFC 8259) -----

  const LOWER_U: Unit := 0x75

  function HexDigit(d: nat): Unit
    requires d < 16
  {
    if d < 10 then ZERO + d else 0x61 + d - 10
  }

  /** `\u` and four lower-case hexadecimal digits. */
  function EscapedUnit(u: Unit): Text {
    [BACKSLASH, LOWER_U, HexDigit(u / 0x1000), HexDigit(u / 0x100 % 0x10),
     HexDigit(u / 0x10 % 0x10), HexDigit(u % 0x10)]
  }

  predicate IsLead(u: Unit) {
    0xD800 <= u < 0xDC00
  }

  predicate IsTrail(u: Unit) {
    0xDC00 <= u < 0xE000
  }

  function EscapeUnit(u: Unit): Text {
    if u == QUOTE || u == BACKSLASH then [BACKSLASH, u]
    else if u == 0x08 then [BACKSLASH, 0x62]
    else if u == 0x09 then [BACKSLASH, 0x74]
    else if u == 0x0A then [BACKSLASH, 0x6E]
    else if u == 0x0C then [BACKSLASH, 0x66]
    else if u == 0x0D then [BACKSLASH, 0x72]
    else if u < 0x20 || IsLead(u) || IsTrail(u) then EscapedUnit(u)
    else [u]
  }

  /** Surrogate pairs are written as they are, a surrogate without its partner as an escape. */
  function Escape(s: Text): Text {
    if s == [] then []
    else if |s| > 1 && IsLead(s[0]) && IsTrail(s[1]) then s[..2] + Escape(s[2..])
    else EscapeUnit(s[0]) + Escape(s[1..])
  }

  function Quote(s: Text): Text {
    [QUOTE] + Escape(s) + [QUOTE]
  }

  /** One `"key":value` text per member. */
  function MemberTexts(es: seq<Entry<Text>>): seq<Text> {
    if es == [] then []
    else [Quote(es[0].key) + [COLON] + es[0].value] + MemberTexts(es[1..])
  }

  function Scalar(v: Value): Text
    requires !v.Arr? && !v.Obj?
  {
    match v
    case Undefined => NULL
    case Null => NULL
    case Bool(b) => if b then TRUE else FALSE
    case Num(n) => Numeral(n)
    case Str(s) => Quote(s)
  }

  // ----- Sorting keys -----

  function InsertEntry<T>(e: Entry<T>, ms: seq<Entry<T>>): seq<Entry<T>> {
    if ms == [] || !Less(ms[0].key, e.key) then [e] + ms
    else [ms[0]] + InsertEntry(e, ms[1..])
  }

  /** `Object.keys(o).sort()`, each key keeping its value. */
  function SortEntries<T>(ms: seq<Entry<T>>): seq<Entry<T>> {
    if ms == [] then [] else InsertEntry(ms[0], SortEntries(ms[1..]))
  }

  // ----- canonical -----

  function Canonical(v: Value): Text
    decreases v
  {
    match v
    case Arr(items) => [LBRACKET] + Join(CanonicalItems(items)) + [RBRACKET]
    case Obj(ms) => [LBRACE] + Join(MemberTexts(SortEntries(CanonicalEntries(ms)))) + [RBRACE]
    case _ => Scalar(v)
  }

  function CanonicalItems(items: seq<Value>): seq<Text>
    decreases items
  {
    if items == [] then [] else [Canonical(items[0])] + CanonicalItems(items[1..])
  }

  function CanonicalEntries(ms: Members): seq<Entry<Text>>
    decreases ms
  {
    if ms == [] then []
    else [Entry(ms[0].key, Canonical(ms[0].value))] + CanonicalEntries(ms[1..])
  }

  // ----- JSON.stringify -----

  /** Members that are `undefined` are left out; an `undefined` array element becomes `null`. */
  function Stringify(v: Value): Text
    decreases v
  {
    match v
    case Arr(items) => [LBRACKET] + Join(StringifyItems(items)) + [RBRACKET]
    case Obj(ms) => [LBRACE] + Join(MemberTexts(StringifyEntries(ms))) + [RBRACE]
    case _ => Scalar(v)
  }

  function StringifyItems(items: seq<Value>): seq<Text>
    decreases items
  {
    if items == [] then [] else [Stringify(items[0])] + StringifyItems(items[1..])
  }

  function StringifyEntries(ms: Members): seq<Entry<Text>>
    decreases ms
  {
    if ms == [] then []
    else if ms[0].value.Undefined? then StringifyEntries(ms[1..])
    else [Entry(ms[0].key, Stringify(ms[0].value))] + StringifyEntries(ms[1..])
  }

  // ----- One plain printer -----

  /** Prints a value as it stands: members in their own order, nothing dropped. */
  function Plain(v: Value): Text
    decreases v
  {
    match v
    case Arr(items) => [LBRACKET] + Join(PlainItems(items)) + [RBRACKET]
    case Obj(ms) => [LBRACE] + Join(MemberTexts(PlainEntries(ms))) + [RBRACE]
    case _ => Scalar(v)
  }

  function PlainItems(items: seq<Value>): seq<Text>
    decreases items
  {
    if items == [] then [] else [Plain(items[0])] + PlainItems(items[1..])
  }

  function PlainEntries(ms: Members): seq<Entry<Text>>
    decreases ms
  {
    if ms == [] then []
    else [Entry(ms[0].key, Plain(ms[0].value))] + PlainEntries(ms[1..])
  }

  /** Keys sorted at every level, `undefined` replaced by `null`. */
  function NormalForm(v: Value): Value
    decreases v
  {
    match v
    case Undefined => Null
    case Arr(items) => Arr(NormalItems(items))
    case Obj(ms) => Obj(SortEntries(NormalEntries(ms)))
    case _ => v
  }

  function NormalItems(items: seq<Value>): seq<Value>
    decreases items
  {
    if items == [] then [] else [NormalForm(items[0])] + NormalItems(items[1..])
  }

  function NormalEntries(ms: Members): Members
    decreases ms
  {
    if ms == [] then []
    else [Entry(ms[0].key, NormalForm(ms[0].value))] + NormalEntries(ms[1..])
  }

  /** What survives a trip through JSON text. */
  function Dropped(v: Value): Value
    decreases v
  {
    match v
    case Undefined => Null
    case Arr(items) => Arr(DroppedItems(items))
    case Obj(ms) => Obj(DroppedMembers(ms))
    case _ => v
  }

  function DroppedItems(items: seq<Value>): seq<Value>
    decreases items
  {
    if items == [] then [] else [Dropped(items[0])] + DroppedItems(items[1..])
  }

  function DroppedMembers(ms: Members): Members
    decreases ms
  {
    if ms == [] then []
    else if ms[0].value.Undefined? then DroppedMembers(ms[1..])
    else [Entry(ms[0].key, Dropped(ms[0].value))] + DroppedMembers(ms[1..])
  }

  lemma {:induction false} CanonicalIsPlain(v: Value)
    ensures Canonical(v) == Plain(NormalForm(v))
    decreases v
  {
    match v
    case Arr(items) => CanonicalItemsArePlain(items);
    case Obj(ms) =>
      CanonicalEntriesArePlain(ms);
      SortCommutesWithPlain(NormalEntries(ms));
    case _ =>
  }

  lemma {:induction false} CanonicalItemsArePlain(items: seq<Value>)
    ensures CanonicalItems(items) == PlainItems(NormalItems(items))
    decreases items
  {
    if items != [] {
      CanonicalIsPlain(items[0]);
      CanonicalItemsArePlain(items[1..]);
    }
  }

  lemma {:induction false} CanonicalEntriesArePlain(ms: Members)
    ensures CanonicalEntries(ms) == PlainEntries(NormalEntries(ms))
    decreases ms
  {
    if ms != [] {
      CanonicalIsPlain(ms[0].value);
      CanonicalEntriesArePlain(ms[1..]);
    }
  }

  lemma {:induction false} InsertCommutesWithPlain(e: Entry<Value>, ms: Members)
    ensures PlainEntries(InsertEntry(e, ms)) == InsertEntry(Entry(e.key, Plain(e.value)), PlainEntries(ms))
  {
    if ms != [] && Less(ms[0].key, e.key) {
      InsertCommutesWithPlain(e, ms[1..]);
    }
  }

  lemma {:induction false} SortCommutesWithPlain(ms: Members)
    ensures PlainEntries(SortEntries(ms)) == SortEntries(PlainEntries(ms))
  {
    if ms != [] {
      SortCommutesWithPlain(ms[1..]);
      InsertCommutesWithPlain(ms[0], SortEntries(ms[1..]));
    }
  }

  lemma {:induction false} StringifyIsPlain(v: Value)
    ensures Stringify(v) == Plain(Dropped(v))
    decreases v
  {
    match v
    case Arr(items) => StringifyItemsArePlain(items);
    case Obj(ms) => StringifyEntriesArePlain(ms);
    case _ =>
  }

  lemma {:induction false} StringifyItemsArePlain(items: seq<Value>)
    ensures StringifyItems(items) == PlainItems(DroppedItems(items))
    decreases items
  {
    if items != [] {
      StringifyIsPlain(items[0]);
      StringifyItemsArePlain(items[1..]);
    }
  }

  lemma {:induction false} StringifyEntriesArePlain(ms: Members)
    ensures StringifyEntries(ms) == PlainEntries(DroppedMembers(ms))
    decreases ms
  {
    if ms != [] {
      StringifyIsPlain(ms[0].value);
      StringifyEntriesArePlain(ms[1..]);
    }
  }

  // ----- Normal forms represent meanings one to one -----

  ghost predicate Ascending<T>(ms: seq<Entry<T>>) {
    forall i, j | 0 <= i < j < |ms| :: Less(ms[i].key, ms[j].key)
  }

  /** No `undefined`, and strictly ascending keys in every object. */
  ghost predicate Normal(v: Value)
    decreases v
  {
    match v
    case Undefined => false
    case Arr(items) => forall i | 0 <= i < |items| :: Normal(items[i])
    case Obj(ms) => Ascending(ms) && forall i | 0 <= i < |ms| :: Normal(ms[i].value)
    case _ => true
  }

  lemma {:induction false} InsertMeaning(e: Entry<Value>, ms: Members)
    ensures MembersMeaning(InsertEntry(e, ms)) == MembersMeaning(ms)[e.key := Meaning(e.value)]
  {
    if ms != [] && Less(ms[0].key, e.key) {
      InsertMeaning(e, ms[1..]);
      LessIrreflexive(e.key);
    }
  }

  lemma {:induction false} InsertElements(e: Entry<Value>, ms: Members)
    ensures multiset(InsertEntry(e, ms)) == multiset(ms) + multiset{e}
  {
    if ms != [] && Less(ms[0].key, e.key) {
      InsertElements(e, ms[1..]);
      assert ms == [ms[0]] + ms[1..];
    }
  }

  lemma {:induction false} InsertAscending(e: Entry<Value>, ms: Members)
    requires Ascending(ms) && !HasKey(ms, e.key)
    ensures Ascending(InsertEntry(e, ms))
    ensures forall x | x in InsertEntry(e, ms) :: x == e || x in ms
  {
    if ms != [] && Less(ms[0].key, e.key) {
      InsertAscending(e, ms[1..]);
      PutFront(ms[0], InsertEntry(e, ms[1..]));
    } else {
      if ms != [] {
        LessTotal(ms[0].key, e.key);
        forall i | 0 < i < |ms|
          ensures Less(e.key, ms[i].key)
        {
          LessTransitive(e.key, ms[0].key, ms[i].key);
        }
      }
      PutFront(e, ms);
    }
  }

  lemma PutFront(e: Entry<Value>, ms: Members)
    requires Ascending(ms) && forall x | x in ms :: Less(e.key, x.key)
    ensures Ascending([e] + ms)
  {
  }

  lemma {:induction false} SortFacts(ms: Members)
    ensures MembersMeaning(SortEntries(ms)) == MembersMeaning(ms)
    ensures multiset(SortEntries(ms)) == multiset(ms)
    ensures DistinctKeys(ms) ==> Ascending(SortEntries(ms))
  {
    if ms != [] {
      var tail := SortEntries(ms[1..]);
      SortFacts(ms[1..]);
      InsertMeaning(ms[0], tail);
      InsertElements(ms[0], tail);
      MembersMeaningAt(tail, ms[0].key);
      MembersMeaningAt(ms[1..], ms[0].key);
      if DistinctKeys(ms) {
        InsertAscending(ms[0], tail);
      }
      assert ms == [ms[0]] + ms[1..];
    }
  }

  lemma {:induction false} NormalFormFacts(v: Value)
    requires WellFormed(v)
    ensures Meaning(NormalForm(v)) == Meaning(v)
    ensures Normal(NormalForm(v))
    decreases v
  {
    match v
    case Arr(items) => NormalItemsFacts(items);
    case Obj(ms) =>
      NormalEntriesFacts(ms);
      var es := NormalEntries(ms);
      SortFacts(es);
      forall i | 0 <= i < |SortEntries(es)|
        ensures Normal(SortEntries(es)[i].value)
      {
        assert SortEntries(es)[i] in multiset(es);
      }
    case _ =>
  }

  lemma {:induction false} NormalItemsFacts(items: seq<Value>)
    requires forall i | 0 <= i < |items| :: WellFormed(items[i])
    ensures ItemsMeaning(NormalItems(items)) == ItemsMeaning(items)
    ensures forall i | 0 <= i < |NormalItems(items)| :: Normal(NormalItems(items)[i])
    decreases items
  {
    if items != [] {
      NormalFormFacts(items[0]);
      NormalItemsFacts(items[1..]);
    }
  }

  lemma {:induction false} NormalEntriesFacts(ms: Members)
    requires forall i | 0 <= i < |ms| :: WellFormed(ms[i].value)
    ensures MembersMeaning(NormalEntries(ms)) == MembersMeaning(ms)
    ensures forall i | 0 <= i < |NormalEntries(ms)| :: Normal(NormalEntries(ms)[i].value)
    ensures forall k :: HasKey(NormalEntries(ms), k) <==> HasKey(ms, k)
    ensures DistinctKeys(ms) ==> DistinctKeys(NormalEntries(ms))
    decreases ms
  {
    if ms != [] {
      NormalFormFacts(ms[0].value);
      NormalEntriesFacts(ms[1..]);
    }
  }

  lemma {:induction false} KeyIndex<T>(ms: seq<Entry<T>>, k: Text) returns (i: nat)
    requires HasKey(ms, k)
    ensures i < |ms| && ms[i].key == k
  {
    if ms[0].key == k {
      i := 0;
    } else {
      i := KeyIndex(ms[1..], k);
      i := i + 1;
    }
  }

  lemma {:induction false} NormalUnique(a: Value, b: Value)
    requires Normal(a) && Normal(b) && Meaning(a) == Meaning(b)
    ensures a == b
    decreases a
  {
    match a
    case Arr(items) => NormalItemsUnique(items, b.items);
    case Obj(ms) => NormalMembersUnique(ms, b.members);
    case _ =>
  }

  lemma {:induction false} NormalItemsUnique(a: seq<Value>, b: seq<Value>)
    requires forall i | 0 <= i < |a| :: Normal(a[i])
    requires forall i | 0 <= i < |b| :: Normal(b[i])
    requires ItemsMeaning(a) == ItemsMeaning(b)
    ensures a == b
    decreases a
  {
    assert |a| == |b|;
    if a != [] {
      assert ItemsMeaning(a)[1..] == ItemsMeaning(a[1..]) && ItemsMeaning(b)[1..] == ItemsMeaning(b[1..]);
      NormalUnique(a[0], b[0]);
      NormalItemsUnique(a[1..], b[1..]);
      assert a == [a[0]] + a[1..] && b == [b[0]] + b[1..];
    }
  }

  lemma {:induction false} NormalMembersUnique(a: Members, b: Members)
    requires Ascending(a) && forall i | 0 <= i < |a| :: Normal(a[i].value)
    requires Ascending(b) && forall i | 0 <= i < |b| :: Normal(b[i].value)
    requires MembersMeaning(a) == MembersMeaning(b)
    ensures a == b
    decreases a
  {
    if a != [] {
      MembersMeaningAt(a, a[0].key);
      MembersMeaningAt(b, a[0].key);
    }
    if b != [] {
      MembersMeaningAt(a, b[0].key);
    }
    if a != [] && b != [] {
      SameLeastKey(a, b);
      NormalUnique(a[0].value, b[0].value);
      AscendingTail(a);
      AscendingTail(b);
      NormalMembersUnique(a[1..], b[1..]);
      assert a == [a[0]] + a[1..] && b == [b[0]] + b[1..];
    }
  }

  lemma AscendingTail(a: Members)
    requires Ascending(a) && a != []
    ensures MembersMeaning(a[1..]) == MembersMeaning(a) - {a[0].key}
  {
    MembersMeaningAt(a[1..], a[0].key);
    if HasKey(a[1..], a[0].key) {
      var i := KeyIndex(a[1..], a[0].key);
      assert Less(a[0].key, a[i + 1].key);
      LessIrreflexive(a[0].key);
    }
  }

  lemma SameLeastKey(a: Members, b: Members)
    requires Ascending(a) && Ascending(b) && a != [] && b != []
    requires MembersMeaning(a) == MembersMeaning(b)
    ensures a[0].key == b[0].key
  {
    MembersMeaningAt(a, b[0].key);
    MembersMeaningAt(b, b[0].key);
    MembersMeaningAt(b, a[0].key);
    MembersMeaningAt(a, a[0].key);
    var i := KeyIndex(a, b[0].key);
    var j := KeyIndex(b, a[0].key);
    if i > 0 && j > 0 {
      LessTransitive(a[0].key, b[0].key, a[0].key);
      LessIrreflexive(a[0].key);
    }
  }
}
