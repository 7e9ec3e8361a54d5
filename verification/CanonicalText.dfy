/**
 What canonical text looks like, unit by unit: keys in the order of their code units at every level,
 strings spelled in exactly one way, and no white space between the tokens.
 */
module CanonicalText {
  import opened JsText
  import opened JsValues
  import opened CanonicalJson
  import opened JsonParser

  // ----- Key order -----

  /** In every object, at any depth, an earlier key precedes a later one. */
  ghost predicate KeysAscend(v: Value)
    decreases v
  {
    match v
    case Arr(items) => forall i | 0 <= i < |items| :: KeysAscend(items[i])
    case Obj(ms) =>
      && (forall i, j | 0 <= i < j < |ms| :: Precedes(ms[i].key, ms[j].key))
      && (forall i | 0 <= i < |ms| :: KeysAscend(ms[i].value))
    case _ => true
  }

  lemma {:induction false} NormalKeysAscend(v: Value)
    requires Normal(v)
    ensures KeysAscend(v)
    decreases v
  {
    match v
    case Arr(items) =>
      forall i | 0 <= i < |items|
        ensures KeysAscend(items[i])
      {
        NormalKeysAscend(items[i]);
      }
    case Obj(ms) =>
      forall i, j | 0 <= i < j < |ms|
        ensures Precedes(ms[i].key, ms[j].key)
      {
        LessMeans(ms[i].key, ms[j].key);
      }
      forall i | 0 <= i < |ms|
        ensures KeysAscend(ms[i].value)
      {
        NormalKeysAscend(ms[i].value);
      }
    case _ =>
  }

  /**
   The value read back from canonical text has the same members as the original, and in each object
   they stand in the order in which the code units of their keys first part.
   */
  lemma CanonicalKeysAscend(v: Value)
    requires WellFormed(v)
    ensures Parse(Canonical(v)).Ok?
    ensures KeysAscend(Parse(Canonical(v)).value) && Meaning(Parse(Canonical(v)).value) == Meaning(v)
  {
    CanonicalRoundTrip(v);
    NormalFormFacts(v);
    NormalKeysAscend(NormalForm(v));
  }

  // ----- String spelling -----

  /** A surrogate without its partner next to it. */
  predicate Lone(s: Text, i: nat)
    requires i < |s|
  {
    || (0xD800 <= s[i] <= 0xDBFF && !(i + 1 < |s| && 0xDC00 <= s[i + 1] <= 0xDFFF))
    || (0xDC00 <= s[i] <= 0xDFFF && !(i > 0 && 0xD800 <= s[i - 1] <= 0xDBFF))
  }

  const HEX_DIGITS: Text := Ascii("0123456789abcdef")

  /** How the unit at `i` is written: as it is, by a two-unit escape, or by its four lower-case digits. */
  function Spelled(s: Text, i: nat): Text
    requires i < |s|
  {
    var u := s[i];
    if u == 0x22 then Ascii("\\\"")
    else if u == 0x5C then Ascii("\\\\")
    else if u == 0x08 then Ascii("\\b")
    else if u == 0x09 then Ascii("\\t")
    else if u == 0x0A then Ascii("\\n")
    else if u == 0x0C then Ascii("\\f")
    else if u == 0x0D then Ascii("\\r")
    else if u < 0x20 || Lone(s, i) then
      Ascii("\\u") + [HEX_DIGITS[u / 4096], HEX_DIGITS[u / 256 % 16], HEX_DIGITS[u / 16 % 16], HEX_DIGITS[u % 16]]
    else [u]
  }

  function SpellingFrom(s: Text, i: nat): Text
    requires i <= |s|
    decreases |s| - i
  {
    if i == |s| then [] else Spelled(s, i) + SpellingFrom(s, i + 1)
  }

  /** Position `i` is not between the two halves of a surrogate pair. */
  predicate BetweenUnits(s: Text, i: nat) {
    i <= |s| && !(0 < i < |s| && 0xD800 <= s[i - 1] <= 0xDBFF && 0xDC00 <= s[i] <= 0xDFFF)
  }

  lemma HexDigits(d: nat)
    requires d < 16
    ensures HEX_DIGITS[d] == HexDigit(d)
  {
  }

  lemma EscapeUnitSpelled(s: Text, i: nat)
    requires i < |s| && !(!Lone(s, i) && 0xD800 <= s[i] <= 0xDFFF)
    ensures EscapeUnit(s[i]) == Spelled(s, i)
  {
    HexDigits(s[i] / 4096);
    HexDigits(s[i] / 256 % 16);
    HexDigits(s[i] / 16 % 16);
    HexDigits(s[i] % 16);
  }

  lemma EscapePair(s: Text, i: nat)
    requires i + 1 < |s| && IsLead(s[i]) && IsTrail(s[i + 1])
    ensures Escape(s[i..]) == [s[i]] + ([s[i + 1]] + Escape(s[i + 2..]))
  {
    var t := s[i..];
    assert t[0] == s[i] && t[1] == s[i + 1] && t[2..] == s[i + 2..] && t[..2] == [s[i]] + [s[i + 1]];
  }

  lemma EscapeOne(s: Text, i: nat)
    requires i < |s| && !(i + 1 < |s| && IsLead(s[i]) && IsTrail(s[i + 1]))
    ensures Escape(s[i..]) == EscapeUnit(s[i]) + Escape(s[i + 1..])
  {
    var t := s[i..];
    assert t[0] == s[i] && t[1..] == s[i + 1..];
    assert |t| > 1 ==> t[1] == s[i + 1];
  }

  lemma PairSpelled(s: Text, i: nat)
    requires i + 1 < |s| && IsLead(s[i]) && IsTrail(s[i + 1])
    ensures Spelled(s, i) == [s[i]] && Spelled(s, i + 1) == [s[i + 1]]
  {
  }

  /** Quoting writes every unit as `Spelled` says, from the first to the last. */
  lemma {:induction false} EscapeIsSpelling(s: Text, i: nat)
    requires BetweenUnits(s, i)
    ensures Escape(s[i..]) == SpellingFrom(s, i)
    decreases |s| - i
  {
    if i < |s| {
      if i + 1 < |s| && IsLead(s[i]) && IsTrail(s[i + 1]) {
        EscapePair(s, i);
        PairSpelled(s, i);
        EscapeIsSpelling(s, i + 2);
      } else {
        EscapeOne(s, i);
        EscapeUnitSpelled(s, i);
        EscapeIsSpelling(s, i + 1);
      }
    }
  }

  /** The quoted form of a string: its spelling between two quotes. */
  lemma QuoteSpelling(s: Text)
    ensures Quote(s) == Ascii("\"") + SpellingFrom(s, 0) + Ascii("\"")
  {
    EscapeIsSpelling(s, 0);
    assert s[0..] == s;
  }

  // ----- No white space between tokens -----

  /** Where a reader of the text is: between tokens, in a string, or after a backslash in a string. */
  datatype Where = Outside | Inside | Escaped

  function After(w: Where, u: Unit): Where {
    match w
    case Outside => if u == 0x22 then Inside else Outside
    case Inside => if u == 0x22 then Outside else if u == 0x5C then Escaped else Inside
    case Escaped => Inside
  }

  function Scan(w: Where, t: Text): Where
    decreases |t|
  {
    if t == [] then w else Scan(After(w, t[0]), t[1..])
  }

  /** No blank, tab or line break stands outside a string. */
  predicate Bare(w: Where, t: Text)
    decreases |t|
  {
    t == [] || ((w == Outside ==> t[0] !in {0x20, 0x09, 0x0A, 0x0D}) && Bare(After(w, t[0]), t[1..]))
  }

  /** Whole tokens without white space between them. */
  predicate Tidy(t: Text) {
    Bare(Outside, t) && Scan(Outside, t) == Outside
  }

  lemma {:induction false} ScanAppend(w: Where, a: Text, b: Text)
    ensures Scan(w, a + b) == Scan(Scan(w, a), b)
    ensures Bare(w, a + b) <==> Bare(w, a) && Bare(Scan(w, a), b)
    decreases |a|
  {
    if a == [] {
      assert a + b == b;
    } else {
      assert (a + b)[0] == a[0] && (a + b)[1..] == a[1..] + b;
      ScanAppend(After(w, a[0]), a[1..], b);
    }
  }

  lemma TidyAppend(a: Text, b: Text)
    requires Tidy(a) && Tidy(b)
    ensures Tidy(a + b)
  {
    ScanAppend(Outside, a, b);
  }

  /** Units that are neither quotes nor backslashes stay inside a string. */
  lemma {:induction false} ScanRaw(t: Text)
    requires forall i | 0 <= i < |t| :: t[i] != QUOTE && t[i] != BACKSLASH
    ensures Bare(Inside, t) && Scan(Inside, t) == Inside
  {
    if t != [] {
      ScanRaw(t[1..]);
    }
  }

  lemma ScanEscape(u: Unit, more: Text)
    requires forall i | 0 <= i < |more| :: more[i] != QUOTE && more[i] != BACKSLASH
    ensures Bare(Inside, [BACKSLASH, u] + more) && Scan(Inside, [BACKSLASH, u] + more) == Inside
  {
    var t := [BACKSLASH, u] + more;
    assert t[1..] == [u] + more && t[1..][1..] == more;
    ScanRaw(more);
  }

  /** One printed unit, whatever it is, is read inside a string and leaves the reader there. */
  lemma SpelledInside(u: Unit)
    ensures Bare(Inside, EscapeUnit(u)) && Scan(Inside, EscapeUnit(u)) == Inside
  {
    var e := EscapeUnit(u);
    if |e| == 1 {
      ScanRaw(e);
    } else {
      assert e == [BACKSLASH, e[1]] + e[2..];
      ScanEscape(e[1], e[2..]);
    }
  }

  lemma {:induction false} EscapeInside(s: Text)
    ensures Bare(Inside, Escape(s)) && Scan(Inside, Escape(s)) == Inside
  {
    if s == [] {
    } else if |s| > 1 && IsLead(s[0]) && IsTrail(s[1]) {
      ScanRaw(s[..2]);
      EscapeInside(s[2..]);
      ScanAppend(Inside, s[..2], Escape(s[2..]));
    } else {
      SpelledInside(s[0]);
      EscapeInside(s[1..]);
      ScanAppend(Inside, EscapeUnit(s[0]), Escape(s[1..]));
    }
  }

  lemma QuoteTidy(s: Text)
    ensures Tidy(Quote(s))
  {
    EscapeInside(s);
    ScanAppend(Outside, [QUOTE], Escape(s));
    ScanAppend(Outside, [QUOTE] + Escape(s), [QUOTE]);
  }

  lemma {:induction false} OutsideTidy(t: Text)
    requires forall i | 0 <= i < |t| :: t[i] > 0x20 && t[i] != QUOTE
    ensures Tidy(t)
  {
    if t != [] {
      OutsideTidy(t[1..]);
    }
  }

  lemma ScalarTidy(v: Value)
    requires !v.Arr? && !v.Obj?
    ensures Tidy(Scalar(v))
  {
    match v
    case Str(s) => QuoteTidy(s);
    case Num(n) => OutsideTidy(Numeral(n));
    case _ => OutsideTidy(Scalar(v));
  }

  lemma {:induction false} JoinTidy(parts: seq<Text>)
    requires forall i | 0 <= i < |parts| :: Tidy(parts[i])
    ensures Tidy(Join(parts))
  {
    if |parts| > 1 {
      JoinTidy(parts[1..]);
      OutsideTidy([COMMA]);
      TidyAppend(parts[0], [COMMA]);
      TidyAppend(parts[0] + [COMMA], Join(parts[1..]));
    }
  }

  lemma Enclosed(open_: Unit, t: Text, close: Unit)
    requires Tidy(t) && open_ > 0x22 && close > 0x22
    ensures Tidy([open_] + t + [close])
  {
    OutsideTidy([open_]);
    OutsideTidy([close]);
    TidyAppend([open_], t);
    TidyAppend([open_] + t, [close]);
  }

  lemma {:induction false} MemberTextsTidy(es: seq<Entry<Text>>)
    requires forall i | 0 <= i < |es| :: Tidy(es[i].value)
    ensures forall i | 0 <= i < |MemberTexts(es)| :: Tidy(MemberTexts(es)[i])
  {
    if es != [] {
      QuoteTidy(es[0].key);
      OutsideTidy([COLON]);
      TidyAppend(Quote(es[0].key), [COLON]);
      TidyAppend(Quote(es[0].key) + [COLON], es[0].value);
      MemberTextsTidy(es[1..]);
    }
  }

  lemma {:induction false} PlainTidy(v: Value)
    ensures Tidy(Plain(v))
    decreases v
  {
    match v
    case Arr(items) =>
      PlainItemsTidy(items);
      JoinTidy(PlainItems(items));
      Enclosed(LBRACKET, Join(PlainItems(items)), RBRACKET);
    case Obj(ms) =>
      PlainEntriesTidy(ms);
      MemberTextsTidy(PlainEntries(ms));
      JoinTidy(MemberTexts(PlainEntries(ms)));
      Enclosed(LBRACE, Join(MemberTexts(PlainEntries(ms))), RBRACE);
    case _ => ScalarTidy(v);
  }

  lemma {:induction false} PlainItemsTidy(items: seq<Value>)
    ensures forall i | 0 <= i < |PlainItems(items)| :: Tidy(PlainItems(items)[i])
    decreases items
  {
    if items != [] {
      PlainTidy(items[0]);
      PlainItemsTidy(items[1..]);
    }
  }

  lemma {:induction false} PlainEntriesTidy(ms: Members)
    ensures forall i | 0 <= i < |PlainEntries(ms)| :: Tidy(PlainEntries(ms)[i].value)
    decreases ms
  {
    if ms != [] {
      PlainTidy(ms[0].value);
      PlainEntriesTidy(ms[1..]);
    }
  }

  /** Canonical text has no white space outside its strings. */
  lemma CanonicalTidy(v: Value)
    ensures Tidy(Canonical(v))
  {
    CanonicalIsPlain(v);
    PlainTidy(NormalForm(v));
  }
}
