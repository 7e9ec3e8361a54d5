/**
 What happens to a value that is written as a JSON line and read back, and when the text that its
 hash commits to survives the trip.
 */
module LogLine {
  import opened JsText
  import opened JsValues
  import opened CanonicalJson
  import opened JsonParser

  lemma {:induction false} DroppedIsJson(v: Value)
    requires WellFormed(v)
    ensures WellFormed(Dropped(v)) && Clean(Dropped(v))
    decreases v
  {
    match v
    case Arr(items) => DroppedItemsAreJson(items);
    case Obj(ms) => DroppedMembersAreJson(ms);
    case _ =>
  }

  lemma {:induction false} DroppedItemsAreJson(items: seq<Value>)
    requires forall i | 0 <= i < |items| :: WellFormed(items[i])
    ensures WellFormed(Arr(DroppedItems(items))) && Clean(Arr(DroppedItems(items)))
    decreases items
  {
    if items != [] {
      DroppedIsJson(items[0]);
      DroppedItemsAreJson(items[1..]);
    }
  }

  lemma {:induction false} DroppedMembersAreJson(ms: Members)
    requires DistinctKeys(ms) && forall i | 0 <= i < |ms| :: WellFormed(ms[i].value)
    ensures WellFormed(Obj(DroppedMembers(ms))) && Clean(Obj(DroppedMembers(ms)))
    ensures forall k :: HasKey(DroppedMembers(ms), k) ==> HasKey(ms, k)
    decreases ms
  {
    if ms != [] {
      DroppedIsJson(ms[0].value);
      DroppedMembersAreJson(ms[1..]);
      if !ms[0].value.Undefined? {
        assert DroppedMembers(ms)[1..] == DroppedMembers(ms[1..]);
      }
    }
  }

  /** A printed value is read back as the value without its undefined members. */
  lemma LineRoundTrip(v: Value)
    requires WellFormed(v)
    ensures Parse(Stringify(v)) == Ok(Dropped(v), [])
    ensures WellFormed(Dropped(v)) && Clean(Dropped(v))
  {
    StringifyIsPlain(v);
    DroppedIsJson(v);
    PlainRoundTrip(Dropped(v));
  }

  lemma {:induction false} DroppedMeaning(v: Value)
    requires WellFormed(v)
    ensures Meaning(Dropped(v)) == Meaning(v) <==> NoUndefinedMember(v)
    decreases v
  {
    match v
    case Arr(items) => DroppedItemsMeaning(items);
    case Obj(ms) => DroppedMembersMeaning(ms);
    case _ =>
  }

  lemma {:induction false} DroppedItemsMeaning(items: seq<Value>)
    requires forall i | 0 <= i < |items| :: WellFormed(items[i])
    ensures ItemsMeaning(DroppedItems(items)) == ItemsMeaning(items)
       <==> forall i | 0 <= i < |items| :: NoUndefinedMember(items[i])
    decreases items
  {
    if items != [] {
      DroppedMeaning(items[0]);
      DroppedItemsMeaning(items[1..]);
      var d := ItemsMeaning(DroppedItems(items));
      var m := ItemsMeaning(items);
      assert d[0] == Meaning(Dropped(items[0])) && d[1..] == ItemsMeaning(DroppedItems(items[1..]));
      assert m[0] == Meaning(items[0]) && m[1..] == ItemsMeaning(items[1..]);
      assert items == [items[0]] + items[1..];
    }
  }

  lemma UpdateEqual<K, V>(m: map<K, V>, n: map<K, V>, k: K, a: V, b: V)
    requires k !in m && k !in n
    ensures m[k := a] == n[k := b] <==> m == n && a == b
  {
    assert m[k := a] - {k} == m && n[k := b] - {k} == n;
    assert m[k := a][k] == a && n[k := b][k] == b;
  }

  lemma NoUndefinedCons(ms: Members)
    requires ms != []
    ensures NoUndefinedMember(Obj(ms)) <==>
            !ms[0].value.Undefined? && NoUndefinedMember(ms[0].value) && NoUndefinedMember(Obj(ms[1..]))
  {
    assert ms == [ms[0]] + ms[1..];
  }

  lemma {:induction false} DroppedMembersMeaning(ms: Members)
    requires DistinctKeys(ms) && forall i | 0 <= i < |ms| :: WellFormed(ms[i].value)
    ensures MembersMeaning(DroppedMembers(ms)) == MembersMeaning(ms) <==> NoUndefinedMember(Obj(ms))
    decreases ms
  {
    if ms != [] {
      var k := ms[0].key;
      var dropped := DroppedMembers(ms[1..]);
      DroppedMembersMeaning(ms[1..]);
      DroppedMembersAreJson(ms[1..]);
      MembersMeaningAt(dropped, k);
      MembersMeaningAt(ms[1..], k);
      NoUndefinedCons(ms);
      if !ms[0].value.Undefined? {
        DroppedMeaning(ms[0].value);
        UpdateEqual(MembersMeaning(dropped), MembersMeaning(ms[1..]), k,
                    Meaning(Dropped(ms[0].value)), Meaning(ms[0].value));
        assert DroppedMembers(ms)[1..] == dropped;
      }
    }
  }

  /** The hashed text survives the log exactly when no object member anywhere is `undefined`. */
  lemma CanonicalSurvivesLog(v: Value)
    requires WellFormed(v)
    ensures Parse(Stringify(v)).Ok?
    ensures Canonical(Parse(Stringify(v)).value) == Canonical(v) <==> NoUndefinedMember(v)
  {
    LineRoundTrip(v);
    CanonicalInjective(Dropped(v), v);
    DroppedMeaning(v);
  }

  // ----- A printed value stays on one line -----

  ghost predicate OneLine(t: Text) {
    forall i | 0 <= i < |t| :: t[i] >= 0x20
  }

  lemma {:induction false} EscapeOneLine(s: Text)
    ensures OneLine(Escape(s))
  {
    if s != [] {
      if |s| > 1 && IsLead(s[0]) && IsTrail(s[1]) {
        EscapeOneLine(s[2..]);
      } else {
        EscapeOneLine(s[1..]);
      }
    }
  }

  lemma {:induction false} JoinOneLine(parts: seq<Text>)
    requires forall i | 0 <= i < |parts| :: OneLine(parts[i])
    ensures OneLine(Join(parts))
  {
    if |parts| > 1 {
      JoinOneLine(parts[1..]);
    }
  }

  lemma {:induction false} MemberTextsOneLine(es: seq<Entry<Text>>)
    requires forall i | 0 <= i < |es| :: OneLine(es[i].value)
    ensures forall i | 0 <= i < |MemberTexts(es)| :: OneLine(MemberTexts(es)[i])
  {
    if es != [] {
      EscapeOneLine(es[0].key);
      MemberTextsOneLine(es[1..]);
    }
  }

  lemma {:induction false} PlainOneLine(v: Value)
    ensures OneLine(Plain(v))
    decreases v
  {
    match v
    case Arr(items) =>
      PlainItemsOneLine(items);
      JoinOneLine(PlainItems(items));
    case Obj(ms) =>
      PlainMembersOneLine(ms);
      MemberTextsOneLine(PlainEntries(ms));
      JoinOneLine(MemberTexts(PlainEntries(ms)));
    case Num(n) => assert forall i | 0 <= i < |Numeral(n)| :: Numeral(n)[i] == MINUS || IsDigit(Numeral(n)[i]);
    case Str(s) => EscapeOneLine(s);
    case _ =>
  }

  lemma {:induction false} PlainItemsOneLine(items: seq<Value>)
    ensures forall i | 0 <= i < |PlainItems(items)| :: OneLine(PlainItems(items)[i])
    decreases items
  {
    if items != [] {
      PlainOneLine(items[0]);
      PlainItemsOneLine(items[1..]);
    }
  }

  lemma {:induction false} PlainMembersOneLine(ms: Members)
    ensures forall i | 0 <= i < |PlainEntries(ms)| :: OneLine(PlainEntries(ms)[i].value)
    decreases ms
  {
    if ms != [] {
      PlainOneLine(ms[0].value);
      PlainMembersOneLine(ms[1..]);
    }
  }
}
