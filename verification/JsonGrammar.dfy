/**
 The grammar of JSON text (RFC 8259) for integers, as a relation between texts and values, and the proof
 that `Parse` accepts exactly the texts of the grammar with exactly the values they denote.
 */
module JsonGrammar {
  import opened JsText
  import opened JsValues
  import opened CanonicalJson
  import opened JsonParser

  // ----- The grammar -----

  predicate Blank(t: Text) {
    forall i | 0 <= i < |t| :: t[i] in {0x20, 0x09, 0x0A, 0x0D}
  }

  const LOWER_HEX: Text := Ascii("0123456789abcdef")
  const UPPER_HEX: Text := Ascii("0123456789ABCDEF")

  predicate HexMeans(u: Unit, d: nat) {
    d < 16 && (u == LOWER_HEX[d] || u == UPPER_HEX[d])
  }

  ghost predicate FourDigits(t: Text, u: Unit) {
    |t| == 4 && exists a: nat, b: nat, c: nat, d: nat ::
      && HexMeans(t[0], a) && HexMeans(t[1], b) && HexMeans(t[2], c) && HexMeans(t[3], d)
      && u == ((a * 16 + b) * 16 + c) * 16 + d
  }

  /** One unit of a string: itself, a two-unit escape, or `\u` and four hexadecimal digits. */
  ghost predicate IsUnitText(t: Text, u: Unit) {
    || (t == [u] && u >= 0x20 && u != 0x22 && u != 0x5C)
    || (t == Ascii("\\\"") && u == 0x22) || (t == Ascii("\\\\") && u == 0x5C) || (t == Ascii("\\/") && u == 0x2F)
    || (t == Ascii("\\b") && u == 0x08) || (t == Ascii("\\f") && u == 0x0C) || (t == Ascii("\\n") && u == 0x0A)
    || (t == Ascii("\\r") && u == 0x0D) || (t == Ascii("\\t") && u == 0x09)
    || (|t| == 6 && t[..2] == Ascii("\\u") && FourDigits(t[2..], u))
  }

  ghost predicate IsBody(t: Text, s: Text)
    decreases |s|
  {
    if s == [] then t == []
    else exists x, y :: t == x + y && IsUnitText(x, s[0]) && IsBody(y, s[1..])
  }

  ghost predicate IsQuoted(t: Text, s: Text) {
    exists body :: t == [0x22] + body + [0x22] && IsBody(body, s)
  }

  predicate IsNatural(t: Text) {
    t != [] && (forall i | 0 <= i < |t| :: 0x30 <= t[i] <= 0x39) && (|t| > 1 ==> t[0] != 0x30)
  }

  ghost predicate IsNumberText(t: Text, n: int) {
    || (IsNatural(t) && n == DigitsValue(t))
    || (t != [] && t[0] == 0x2D && IsNatural(t[1..]) && n == 0 - DigitsValue(t[1..]))
  }

  /** A value without white space around it. */
  ghost predicate IsCore(t: Text, v: Value)
    decreases |t|, 0
  {
    match v
    case Undefined => false
    case Null => t == Ascii("null")
    case Bool(b) => t == if b then Ascii("true") else Ascii("false")
    case Num(n) => IsNumberText(t, n)
    case Str(s) => IsQuoted(t, s)
    case Arr(items) => exists inner :: t == [0x5B] + inner + [0x5D] && IsItems(inner, items)
    case Obj(ms) => exists inner, raw :: t == [0x7B] + inner + [0x7D] && IsMembers(inner, raw) && ms == Spread([], raw)
  }

  ghost predicate IsElement(t: Text, v: Value)
    decreases |t|, 1
  {
    exists a, core, b :: t == a + core + b && Blank(a) && IsCore(core, v) && Blank(b)
  }

  /** Elements with commas between them; blank for none. */
  ghost predicate IsItems(t: Text, items: seq<Value>)
    decreases |t|, 2
  {
    if items == [] then Blank(t)
    else if |items| == 1 then IsElement(t, items[0])
    else exists x, y :: t == x + [0x2C] + y && IsElement(x, items[0]) && IsItems(y, items[1..])
  }

  ghost predicate IsMember(t: Text, m: Entry<Value>)
    decreases |t|, 2
  {
    exists a, q, b, x ::
      t == a + q + b + [0x3A] + x && Blank(a) && IsQuoted(q, m.key) && Blank(b) && IsElement(x, m.value)
  }

  /** Members with commas between them, as they are written: a key may occur more than once. */
  ghost predicate IsMembers(t: Text, raw: Members)
    decreases |t|, 3
  {
    if raw == [] then Blank(t)
    else if |raw| == 1 then IsMember(t, raw[0])
    else exists x, y :: t == x + [0x2C] + y && IsMember(x, raw[0]) && IsMembers(y, raw[1..])
  }

  // ----- What is parsed follows the grammar -----

  lemma {:induction false} SkippedBlank(t: Text) returns (a: Text)
    ensures t == a + SkipSpace(t) && Blank(a)
    ensures SkipSpace(t) != [] ==> !IsSpace(SkipSpace(t)[0])
  {
    if t != [] && IsSpace(t[0]) {
      var more := SkippedBlank(t[1..]);
      a := [t[0]] + more;
      assert t == [t[0]] + t[1..];
    } else {
      a := [];
    }
  }

  lemma HexMeaning(u: Unit)
    requires IsHex(u)
    ensures HexMeans(u, HexValue(u))
  {
  }

  lemma FourDigitsSound(t: Text)
    requires |t| >= 6 && IsHex(t[2]) && IsHex(t[3]) && IsHex(t[4]) && IsHex(t[5])
    ensures var u := HexValue(t[2]) * 0x1000 + HexValue(t[3]) * 0x100 + HexValue(t[4]) * 0x10 + HexValue(t[5]);
            u < 0x1_0000 && FourDigits(t[2..6], u)
  {
    HexMeaning(t[2]);
    HexMeaning(t[3]);
    HexMeaning(t[4]);
    HexMeaning(t[5]);
    var d := t[2..6];
    assert d[0] == t[2] && d[1] == t[3] && d[2] == t[4] && d[3] == t[5];
    assert HexMeans(d[0], HexValue(t[2])) && HexMeans(d[1], HexValue(t[3]));
    assert HexMeans(d[2], HexValue(t[4])) && HexMeans(d[3], HexValue(t[5]));
  }

  lemma UnitSound(t: Text) returns (x: Text)
    requires ParseUnit(t).Ok?
    ensures t == x + ParseUnit(t).rest && IsUnitText(x, ParseUnit(t).value)
  {
    if t[0] != BACKSLASH {
      x := [t[0]];
    } else if t[1] == LOWER_U {
      x := t[..6];
      FourDigitsSound(t);
      assert x[..2] == Ascii("\\u") && x[2..] == t[2..6];
    } else {
      x := t[..2];
      assert x == [t[0], t[1]];
      TwoUnitEscapes(t[1]);
    }
  }

  lemma TwoUnitEscapes(u: Unit)
    requires ShortEscape(u).Ok?
    ensures IsUnitText([BACKSLASH, u], ShortEscape(u).value)
  {
    assert Ascii("\\\"") == [0x5C, 0x22] && Ascii("\\\\") == [0x5C, 0x5C] && Ascii("\\/") == [0x5C, 0x2F];
    assert Ascii("\\b") == [0x5C, 0x62] && Ascii("\\f") == [0x5C, 0x66] && Ascii("\\n") == [0x5C, 0x6E];
    assert Ascii("\\r") == [0x5C, 0x72] && Ascii("\\t") == [0x5C, 0x74];
  }

  lemma BodyCons(x: Text, u: Unit, y: Text, s: Text)
    requires IsUnitText(x, u) && IsBody(y, s)
    ensures IsBody(x + y, [u] + s)
  {
    assert ([u] + s)[0] == u && ([u] + s)[1..] == s;
  }

  lemma {:induction false} BodySound(t: Text) returns (x: Text)
    requires ParseString(t).Ok?
    ensures t == x + [0x22] + ParseString(t).rest && IsBody(x, ParseString(t).value)
    decreases |t|
  {
    if t != [] && t[0] == QUOTE {
      x := [];
      assert t == [0x22] + t[1..];
    } else {
      var head := UnitSound(t);
      var more := ParseUnit(t).rest;
      var tail := BodySound(more);
      x := head + tail;
      BodyCons(head, ParseUnit(t).value, tail, ParseString(more).value);
      Regroup(head, tail, [0x22], ParseString(more).rest);
    }
  }

  lemma Regroup(a: Text, b: Text, c: Text, d: Text)
    ensures a + b + c + d == a + (b + c + d) && a + b + c + d == a + (b + (c + d))
  {
  }

  lemma NaturalSound(digits: Text) returns (d: Text)
    requires var k := DigitRun(digits); k > 0 && !(k > 1 && digits[0] == ZERO)
    ensures d == digits[..DigitRun(digits)] && digits == d + digits[DigitRun(digits)..] && IsNatural(d)
  {
    d := digits[..DigitRun(digits)];
  }

  lemma NumberTexts(d: Text)
    requires IsNatural(d)
    ensures IsNumberText(d, DigitsValue(d)) && IsNumberText([0x2D] + d, 0 - DigitsValue(d))
  {
    assert ([0x2D] + d)[1..] == d;
  }

  lemma NumberSound(t: Text) returns (x: Text)
    requires ParseNumber(t).Ok?
    ensures t == x + ParseNumber(t).rest && IsNumberText(x, ParseNumber(t).value.n)
  {
    var digits := if t != [] && t[0] == MINUS then t[1..] else t;
    var d := NaturalSound(digits);
    NumberTexts(d);
    if t[0] == MINUS {
      x := [0x2D] + d;
      assert t == [0x2D] + t[1..];
      Regroup([0x2D], d, digits[DigitRun(digits)..], []);
    } else {
      x := d;
    }
  }

  lemma QuotedSound(t: Text) returns (q: Text)
    requires t != [] && t[0] == QUOTE && ParseString(t[1..]).Ok?
    ensures t == q + ParseString(t[1..]).rest && IsQuoted(q, ParseString(t[1..]).value)
  {
    var body := BodySound(t[1..]);
    var rest := ParseString(t[1..]).rest;
    q := [0x22] + body + [0x22];
    assert t == [0x22] + t[1..];
    assert q + rest == [0x22] + (body + [0x22] + rest);
  }

  lemma WordSound(s: Text, word: Text) returns (c: Text)
    requires StartsWith(s, word)
    ensures c == word && s == c + s[|word|..]
  {
    c := word;
  }

  lemma Trailing(x: Text, v: Value, b: Text)
    requires IsElement(x, v) && Blank(b)
    ensures IsElement(x + b, v)
  {
    var a, core, c :| x == a + core + c && Blank(a) && IsCore(core, v) && Blank(c);
    assert Blank(c + b) && x + b == a + core + (c + b);
  }

  lemma {:induction false} CoreSound(s: Text) returns (c: Text)
    requires s != [] && !IsSpace(s[0]) && ParseValue(s).Ok?
    ensures s == c + ParseValue(s).rest && IsCore(c, ParseValue(s).value)
    decreases |s|, 0
  {
    if s[0] == QUOTE {
      c := QuotedSound(s);
    } else if s[0] == LBRACKET {
      c := ArraySound(s);
    } else if s[0] == LBRACE {
      c := ObjectSound(s);
    } else if StartsWith(s, NULL) {
      c := WordSound(s, NULL);
    } else if StartsWith(s, TRUE) {
      c := WordSound(s, TRUE);
    } else if StartsWith(s, FALSE) {
      c := WordSound(s, FALSE);
    } else {
      c := NumberSound(s);
    }
  }

  lemma ArrayCore(inner: Text, items: seq<Value>)
    requires IsItems(inner, items)
    ensures IsCore([0x5B] + inner + [0x5D], Arr(items))
  {
  }

  lemma EmptyArray(s: Text) returns (inner: Text)
    requires s != [] && s[0] == LBRACKET
    requires SkipSpace(s[1..]) != [] && SkipSpace(s[1..])[0] == RBRACKET
    ensures ParseValue(s) == Ok(Arr([]), SkipSpace(s[1..])[1..])
    ensures s[1..] == inner + [0x5D] + ParseValue(s).rest && IsItems(inner, [])
  {
    inner := SkippedBlank(s[1..]);
    HeadApart(inner, SkipSpace(s[1..]));
  }

  lemma HeadApart(a: Text, first: Text)
    requires first != []
    ensures a + first == a + [first[0]] + first[1..]
  {
  }

  lemma {:induction false} ArraySound(s: Text) returns (c: Text)
    requires s != [] && s[0] == LBRACKET && ParseValue(s).Ok?
    ensures s == c + ParseValue(s).rest && IsCore(c, ParseValue(s).value)
    decreases |s|, 0, 0
  {
    var inner;
    var first := SkipSpace(s[1..]);
    if first != [] && first[0] == RBRACKET {
      inner := EmptyArray(s);
    } else {
      inner := ItemsSound(s[1..]);
    }
    c := [0x5B] + inner + [0x5D];
    ArrayCore(inner, ParseValue(s).value.items);
    assert s == [0x5B] + s[1..];
    Regroup([0x5B], inner, [0x5D], ParseValue(s).rest);
  }

  lemma ObjectCore(inner: Text, raw: Members)
    requires IsMembers(inner, raw)
    ensures IsCore([0x7B] + inner + [0x7D], Obj(Spread([], raw)))
  {
  }

  lemma EmptyObject(s: Text) returns (inner: Text)
    requires s != [] && s[0] == LBRACE
    requires SkipSpace(s[1..]) != [] && SkipSpace(s[1..])[0] == RBRACE
    ensures ParseValue(s) == Ok(Obj(Spread([], [])), SkipSpace(s[1..])[1..])
    ensures s[1..] == inner + [0x7D] + ParseValue(s).rest && IsMembers(inner, [])
  {
    inner := SkippedBlank(s[1..]);
    HeadApart(inner, SkipSpace(s[1..]));
  }

  lemma {:induction false} ObjectSound(s: Text) returns (c: Text)
    requires s != [] && s[0] == LBRACE && ParseValue(s).Ok?
    ensures s == c + ParseValue(s).rest && IsCore(c, ParseValue(s).value)
    decreases |s|, 0, 0
  {
    var inner;
    var raw: Members := [];
    var first := SkipSpace(s[1..]);
    if first != [] && first[0] == RBRACE {
      inner := EmptyObject(s);
    } else {
      inner, raw := MembersSound(s[1..]);
    }
    c := [0x7B] + inner + [0x7D];
    ObjectCore(inner, raw);
    assert s == [0x7B] + s[1..];
    Regroup([0x7B], inner, [0x7D], ParseValue(s).rest);
  }

  lemma ElementFrom(a: Text, c: Text, v: Value, rest: Text)
    requires Blank(a) && IsCore(c, v)
    ensures IsElement(a + c, v) && a + (c + rest) == a + c + rest
  {
    assert a + c == a + c + [] && Blank([]);
  }

  lemma ParseSkipped(t: Text)
    requires ParseValue(t).Ok?
    ensures SkipSpace(t) != [] && !IsSpace(SkipSpace(t)[0]) && ParseValue(SkipSpace(t)) == ParseValue(t)
  {
    var a := SkippedBlank(t);
    assert SkipSpace(SkipSpace(t)) == SkipSpace(t);
  }

  lemma {:induction false} ElementSound(t: Text) returns (x: Text)
    requires ParseValue(t).Ok?
    ensures t == x + ParseValue(t).rest && IsElement(x, ParseValue(t).value)
    decreases |t|, 1
  {
    var a := SkippedBlank(t);
    ParseSkipped(t);
    var c := CoreSound(SkipSpace(t));
    x := a + c;
    ElementFrom(a, c, ParseValue(t).value, ParseValue(t).rest);
  }

  lemma ItemsCons(x: Text, v: Value, y: Text, items: seq<Value>)
    requires IsElement(x, v) && IsItems(y, items) && items != []
    ensures IsItems(x + [0x2C] + y, [v] + items)
  {
    assert ([v] + items)[0] == v && ([v] + items)[1..] == items;
  }

  /** An element and the blanks behind it. */
  lemma {:induction false} PaddedSound(t: Text) returns (x: Text)
    requires ParseValue(t).Ok?
    ensures t == x + SkipSpace(ParseValue(t).rest) && IsElement(x, ParseValue(t).value)
    decreases |t|, 2
  {
    var head := ElementSound(t);
    var b := SkippedBlank(ParseValue(t).rest);
    Trailing(head, ParseValue(t).value, b);
    x := head + b;
    Assoc(head, b, SkipSpace(ParseValue(t).rest));
  }

  lemma {:induction false} ItemsSound(t: Text) returns (x: Text)
    requires ParseItems(t).Ok?
    ensures t == x + [0x5D] + ParseItems(t).rest && ParseItems(t).value != [] && IsItems(x, ParseItems(t).value)
    decreases |t|, 3
  {
    var head := PaddedSound(t);
    var s := SkipSpace(ParseValue(t).rest);
    assert s == [s[0]] + s[1..];
    if s[0] == RBRACKET {
      x := head;
      Assoc(head, [0x5D], s[1..]);
    } else {
      var y := ItemsSound(s[1..]);
      x := head + [0x2C] + y;
      ItemsCons(head, ParseValue(t).value, y, ParseItems(s[1..]).value);
      Joined(head, 0x2C, y, 0x5D, ParseItems(s[1..]).rest);
    }
  }

  lemma Joined(head: Text, comma: Unit, y: Text, close: Unit, rest: Text)
    ensures head + ([comma] + (y + [close] + rest)) == head + [comma] + y + [close] + rest
  {
  }

  lemma MemberMade(a: Text, q: Text, b: Text, x: Text, m: Entry<Value>)
    requires Blank(a) && IsQuoted(q, m.key) && Blank(b) && IsElement(x, m.value)
    ensures IsMember(a + q + b + [0x3A] + x, m)
  {
  }

  /** A member's key has been read up to its colon. */
  predicate KeyRead(t: Text) {
    && SkipSpace(t) != [] && SkipSpace(t)[0] == QUOTE && ParseString(SkipSpace(t)[1..]).Ok?
    && var colon := SkipSpace(ParseString(SkipSpace(t)[1..]).rest); colon != [] && colon[0] == COLON
  }

  function KeyOf(t: Text): Text
    requires KeyRead(t)
  {
    ParseString(SkipSpace(t)[1..]).value
  }

  function AfterColon(t: Text): Text
    requires KeyRead(t)
  {
    SkipSpace(ParseString(SkipSpace(t)[1..]).rest)[1..]
  }

  lemma KeySound(t: Text) returns (a: Text, q: Text, b: Text)
    requires KeyRead(t)
    ensures t == a + q + b + [0x3A] + AfterColon(t) && Blank(a) && IsQuoted(q, KeyOf(t)) && Blank(b)
  {
    var key := ParseString(SkipSpace(t)[1..]);
    var colon := SkipSpace(key.rest);
    a := SkippedBlank(t);
    q := QuotedSound(SkipSpace(t));
    b := SkippedBlank(key.rest);
    assert colon == [0x3A] + colon[1..];
    KeyJoined(a, q, b, colon[1..]);
  }

  lemma KeyJoined(a: Text, q: Text, b: Text, rest: Text)
    ensures a + (q + (b + ([0x3A] + rest))) == a + q + b + [0x3A] + rest
  {
  }

  lemma {:induction false} MemberSound(t: Text) returns (x: Text)
    requires KeyRead(t) && ParseValue(AfterColon(t)).Ok?
    ensures t == x + SkipSpace(ParseValue(AfterColon(t)).rest)
    ensures IsMember(x, Entry(KeyOf(t), ParseValue(AfterColon(t)).value))
    decreases |t|, 2
  {
    var a, q, b := KeySound(t);
    AfterColonShorter(t);
    var e := PaddedSound(AfterColon(t));
    x := a + q + b + [0x3A] + e;
    MemberMade(a, q, b, e, Entry(KeyOf(t), ParseValue(AfterColon(t)).value));
    Assoc(a + q + b + [0x3A], e, SkipSpace(ParseValue(AfterColon(t)).rest));
  }

  lemma AfterColonShorter(t: Text)
    requires KeyRead(t)
    ensures |AfterColon(t)| < |t|
  {
  }

  lemma MembersCons(x: Text, m: Entry<Value>, y: Text, raw: Members)
    requires IsMember(x, m) && IsMembers(y, raw) && raw != []
    ensures IsMembers(x + [0x2C] + y, [m] + raw)
  {
    assert ([m] + raw)[0] == m && ([m] + raw)[1..] == raw;
  }

  /** One step of `ParseMembers`. */
  lemma MembersStep(t: Text)
    requires ParseMembers(t).Ok?
    ensures KeyRead(t) && ParseValue(AfterColon(t)).Ok?
    ensures var m := Entry(KeyOf(t), ParseValue(AfterColon(t)).value);
            var s := SkipSpace(ParseValue(AfterColon(t)).rest);
            && s != [] && (s[0] == RBRACE || s[0] == COMMA) && |s| < |t|
            && (s[0] == RBRACE ==> ParseMembers(t) == Ok([m], s[1..]))
            && (s[0] == COMMA ==>
                  && ParseMembers(s[1..]).Ok? && ParseMembers(t).rest == ParseMembers(s[1..]).rest
                  && ParseMembers(t).value == PrependMember(m, ParseMembers(s[1..]).value))
  {
  }

  lemma {:induction false} MembersSound(t: Text) returns (x: Text, raw: Members)
    requires ParseMembers(t).Ok?
    ensures t == x + [0x7D] + ParseMembers(t).rest && IsMembers(x, raw) && raw != []
    ensures ParseMembers(t).value == Spread([], raw)
    decreases |t|, 3
  {
    MembersStep(t);
    var m := Entry(KeyOf(t), ParseValue(AfterColon(t)).value);
    var s := SkipSpace(ParseValue(AfterColon(t)).rest);
    var head := MemberSound(t);
    assert s == [s[0]] + s[1..];
    if s[0] == RBRACE {
      x, raw := head, [m];
      SpreadOne(m);
      Assoc(head, [0x7D], s[1..]);
    } else {
      var y, more := MembersSound(s[1..]);
      x, raw := head + [0x2C] + y, [m] + more;
      MembersCons(head, m, y, more);
      Joined(head, 0x2C, y, 0x7D, ParseMembers(s[1..]).rest);
      SpreadPrepend(m, more);
    }
  }

  // ----- Repeated keys: members are assigned in the order in which they are written -----

  /** The value of the last member with key `k`, `x` if there is none. */
  function LastOf(x: Value, raw: Members, k: Text): Value
    decreases raw
  {
    if raw == [] then x else LastOf(if raw[0].key == k then raw[0].value else x, raw[1..], k)
  }

  lemma {:induction false} SpreadFirst(acc: Members, raw: Members, k: Text, x: Value)
    requires !HasKey(acc, k)
    ensures Spread([Entry(k, x)] + acc, raw) == [Entry(k, LastOf(x, raw, k))] + Spread(acc, Without(raw, {k}))
    decreases raw
  {
    var all := [Entry(k, x)] + acc;
    assert all[1..] == acc;
    if raw != [] {
      var r := raw[0];
      if r.key == k {
        assert Put(all, k, r.value) == [Entry(k, r.value)] + acc;
        SpreadFirst(acc, raw[1..], k, r.value);
      } else {
        PutFacts(acc, r.key, r.value, k);
        assert Put(all, r.key, r.value) == [Entry(k, x)] + Put(acc, r.key, r.value);
        SpreadFirst(Put(acc, r.key, r.value), raw[1..], k, x);
        assert Without(raw, {k}) == [r] + Without(raw[1..], {k});
        assert ([r] + Without(raw[1..], {k}))[1..] == Without(raw[1..], {k});
      }
    }
  }

  lemma {:induction false} SpreadKeys(acc: Members, raw: Members, k: Text)
    ensures HasKey(Spread(acc, raw), k) <==> HasKey(acc, k) || HasKey(raw, k)
    ensures Get(Spread(acc, raw), k) == LastOf(Get(acc, k), raw, k)
    decreases raw
  {
    if raw != [] {
      PutFacts(acc, raw[0].key, raw[0].value, k);
      SpreadKeys(Put(acc, raw[0].key, raw[0].value), raw[1..], k);
    }
  }

  lemma {:induction false} WithoutAfterPut(ms: Members, q: Text, v: Value, k: Text)
    ensures Without(Put(ms, q, v), {k}) == if q == k then Without(ms, {k}) else Put(Without(ms, {k}), q, v)
  {
    if ms != [] && ms[0].key != q {
      WithoutAfterPut(ms[1..], q, v, k);
    }
  }

  lemma {:induction false} SpreadWithout(acc: Members, raw: Members, k: Text)
    ensures Without(Spread(acc, raw), {k}) == Spread(Without(acc, {k}), Without(raw, {k}))
    decreases raw
  {
    if raw != [] {
      var r := raw[0];
      SpreadWithout(Put(acc, r.key, r.value), raw[1..], k);
      WithoutAfterPut(acc, r.key, r.value, k);
      if r.key != k {
        assert Without(raw, {k}) == [r] + Without(raw[1..], {k});
        assert ([r] + Without(raw[1..], {k}))[1..] == Without(raw[1..], {k});
      }
    }
  }

  lemma {:induction false} LastIrrelevant(x: Value, y: Value, raw: Members, k: Text)
    requires HasKey(raw, k)
    ensures LastOf(x, raw, k) == LastOf(y, raw, k)
  {
    if raw[0].key != k {
      LastIrrelevant(x, y, raw[1..], k);
    }
  }

  lemma {:induction false} LastAbsent(x: Value, raw: Members, k: Text)
    requires !HasKey(raw, k)
    ensures LastOf(x, raw, k) == x && Without(raw, {k}) == raw
  {
    if raw != [] {
      LastAbsent(x, raw[1..], k);
    }
  }

  lemma SpreadOne(m: Entry<Value>)
    ensures Spread([], [m]) == [m]
  {
    assert [m][1..] == [];
  }

  /** Reading one more member in front is what the parser does to the members behind it. */
  lemma SpreadPrepend(m: Entry<Value>, raw: Members)
    ensures Spread([], [m] + raw) == PrependMember(m, Spread([], raw))
  {
    assert ([m] + raw)[0] == m && ([m] + raw)[1..] == raw;
    assert Put([], m.key, m.value) == [Entry(m.key, m.value)] + [];
    SpreadFirst([], raw, m.key, m.value);
    SpreadKeys([], raw, m.key);
    if HasKey(raw, m.key) {
      LastIrrelevant(m.value, Undefined, raw, m.key);
      SpreadWithout([], raw, m.key);
    } else {
      LastAbsent(m.value, raw, m.key);
    }
  }

  // ----- What follows the grammar is parsed -----

  lemma {:induction false} BlankSkipped(a: Text, t: Text)
    requires Blank(a) && (t != [] ==> !IsSpace(t[0]))
    ensures SkipSpace(a + t) == t
  {
    if a == [] {
      assert a + t == t;
    } else {
      assert (a + t)[0] == a[0] && (a + t)[1..] == a[1..] + t;
      BlankSkipped(a[1..], t);
    }
  }

  /** White space in front of a value makes no difference. */
  lemma LeadingIgnored(a: Text, t: Text)
    requires Blank(a) && t != [] && !IsSpace(t[0])
    ensures ParseValue(a + t) == ParseValue(t)
  {
    BlankSkipped(a, t);
  }

  lemma HexMeant(u: Unit, d: nat)
    requires HexMeans(u, d)
    ensures IsHex(u) && HexValue(u) == d
  {
  }

  lemma HexUnit(t: Text)
    requires |t| >= 6 && t[0] == BACKSLASH && t[1] == LOWER_U
    requires IsHex(t[2]) && IsHex(t[3]) && IsHex(t[4]) && IsHex(t[5])
    ensures ParseUnit(t)
         == Ok(HexValue(t[2]) * 0x1000 + HexValue(t[3]) * 0x100 + HexValue(t[4]) * 0x10 + HexValue(t[5]), t[6..])
  {
  }

  lemma FourDigitsMeant(t: Text, u: Unit)
    requires FourDigits(t, u)
    ensures IsHex(t[0]) && IsHex(t[1]) && IsHex(t[2]) && IsHex(t[3])
    ensures u == HexValue(t[0]) * 0x1000 + HexValue(t[1]) * 0x100 + HexValue(t[2]) * 0x10 + HexValue(t[3])
  {
    var a: nat, b: nat, c: nat, d: nat :| HexMeans(t[0], a) && HexMeans(t[1], b) && HexMeans(t[2], c)
      && HexMeans(t[3], d) && u == ((a * 16 + b) * 16 + c) * 16 + d;
    HexMeant(t[0], a);
    HexMeant(t[1], b);
    HexMeant(t[2], c);
    HexMeant(t[3], d);
  }

  lemma FourDigitsComplete(x: Text, u: Unit, rest: Text)
    requires |x| == 6 && x[0] == BACKSLASH && x[1] == LOWER_U && FourDigits(x[2..], u)
    ensures ParseUnit(x + rest) == Ok(u, rest)
  {
    FourDigitsMeant(x[2..], u);
    assert (x + rest)[6..] == rest;
    HexUnit(x + rest);
  }

  lemma EscapePairComplete(x: Text, u: Unit, rest: Text)
    requires |x| == 2 && x[0] == BACKSLASH && x[1] != LOWER_U && ShortEscape(x[1]) == Ok(u, [])
    ensures ParseUnit(x + rest) == Ok(u, rest)
  {
    assert (x + rest)[0] == x[0] && (x + rest)[1] == x[1] && (x + rest)[2..] == rest;
  }

  lemma UnitComplete(x: Text, u: Unit, rest: Text)
    requires IsUnitText(x, u)
    ensures ParseUnit(x + rest) == Ok(u, rest) && x != [] && x[0] != QUOTE
  {
    if |x| == 1 {
      Cons(u, rest);
    } else if |x| == 2 {
      EscapePairComplete(x, u, rest);
    } else {
      assert x[..2][0] == x[0] && x[..2][1] == x[1];
      FourDigitsComplete(x, u, rest);
    }
  }

  lemma {:induction false} BodyComplete(b: Text, s: Text, rest: Text)
    requires IsBody(b, s)
    ensures ParseString(b + [0x22] + rest) == Ok(s, rest)
    decreases |s|
  {
    if s == [] {
      assert b + [0x22] + rest == [0x22] + rest;
      Cons(0x22, rest);
    } else {
      var x, y :| b == x + y && IsUnitText(x, s[0]) && IsBody(y, s[1..]);
      var more := y + [0x22] + rest;
      UnitComplete(x, s[0], more);
      BodyComplete(y, s[1..], rest);
      Regroup(x, y, [0x22], rest);
      assert (x + more)[0] == x[0];
      ParseStringStep(x + more, s[0], more, s[1..], rest);
      assert [s[0]] + s[1..] == s;
    }
  }

  lemma QuotedComplete(q: Text, s: Text, rest: Text)
    requires IsQuoted(q, s)
    ensures q != [] && q[0] == QUOTE && (q + rest)[0] == QUOTE && ParseString((q + rest)[1..]) == Ok(s, rest)
  {
    var body :| q == [0x22] + body + [0x22] && IsBody(body, s);
    BodyComplete(body, s, rest);
    assert (q + rest)[1..] == body + [0x22] + rest;
  }

  lemma NaturalComplete(d: Text, rest: Text)
    requires IsNatural(d) && Follows(rest)
    ensures var t := d + rest;
            && t != [] && IsDigit(t[0]) && DigitRun(t) == |d| && t[..|d|] == d && t[|d|..] == rest
            && (|d| < |t| ==> t[|d|] == rest[0])
  {
    DigitRunOf(d, rest);
  }

  lemma NumberComplete(x: Text, n: int, rest: Text)
    requires IsNumberText(x, n) && Follows(rest)
    ensures x != [] && ParseValue(x + rest) == Ok(Num(n), rest)
  {
    if IsNatural(x) {
      NaturalComplete(x, rest);
      assert x[0] != MINUS;
    } else {
      NaturalComplete(x[1..], rest);
      assert x + rest == [MINUS] + (x[1..] + rest);
      Cons(MINUS, x[1..] + rest);
    }
    NumberParsed(x, n, rest);
    ValueIsNumber(x + rest);
  }

  lemma NumberParsed(x: Text, n: int, rest: Text)
    requires IsNumberText(x, n)
    requires var t := x + rest;
             var digits := if t != [] && t[0] == MINUS then t[1..] else t;
             var d := if IsNatural(x) then x else x[1..];
             && t != [] && (t[0] == MINUS <==> !IsNatural(x)) && DigitRun(digits) == |d|
             && digits[..|d|] == d && digits[|d|..] == rest && digits[0] == d[0]
             && (|d| < |digits| ==> digits[|d|] == rest[0])
    requires Follows(rest)
    ensures ParseNumber(x + rest) == Ok(Num(n), rest)
  {
  }

  /** The first unit of a value is no white space and closes or separates nothing. */
  predicate Opens(t: Text) {
    t != [] && !IsSpace(t[0]) && t[0] !in {0x5D, 0x7D, 0x2C, 0x3A}
  }

  lemma CoreOpens(c: Text, v: Value, rest: Text)
    requires IsCore(c, v)
    ensures c != [] && Opens(c + rest) && (c + rest)[0] == c[0]
  {
    match v
    case Num(n) => assert IsNumberText(c, n);
    case Str(s) => QuotedComplete(c, s, rest);
    case _ =>
  }

  lemma {:induction false} CoreComplete(c: Text, v: Value, rest: Text)
    requires IsCore(c, v) && Follows(rest)
    ensures ParseValue(c + rest) == Ok(v, rest)
    decreases |c|, 0
  {
    match v
    case Null => ParseWord(NULL, rest);
    case Bool(b) => ParseWord(if b then TRUE else FALSE, rest);
    case Num(n) => NumberComplete(c, n, rest);
    case Str(s) => QuotedComplete(c, s, rest);
    case Arr(items) =>
      var inner :| c == [0x5B] + inner + [0x5D] && IsItems(inner, items);
      ArrayComplete(inner, items, rest);
    case Obj(ms) =>
      var inner, raw :| c == [0x7B] + inner + [0x7D] && IsMembers(inner, raw) && ms == Spread([], raw);
      ObjectComplete(inner, raw, rest);
  }

  lemma {:induction false} ArrayComplete(inner: Text, items: seq<Value>, rest: Text)
    requires IsItems(inner, items)
    ensures ParseValue([0x5B] + inner + [0x5D] + rest) == Ok(Arr(items), rest)
    decreases |inner|, 4
  {
    var body := inner + [0x5D] + rest;
    Regroup([0x5B], inner, [0x5D], rest);
    Cons(LBRACKET, body);
    if items == [] {
      Assoc(inner, [0x5D], rest);
      Cons(0x5D, rest);
      BlankSkipped(inner, [0x5D] + rest);
    } else {
      ItemsOpen(inner, items, [0x5D] + rest);
      Assoc(inner, [0x5D], rest);
      ItemsComplete(inner, items, rest);
    }
  }

  lemma {:induction false} ObjectComplete(inner: Text, raw: Members, rest: Text)
    requires IsMembers(inner, raw)
    ensures ParseValue([0x7B] + inner + [0x7D] + rest) == Ok(Obj(Spread([], raw)), rest)
    decreases |inner|, 5
  {
    var body := inner + [0x7D] + rest;
    Regroup([0x7B], inner, [0x7D], rest);
    Cons(LBRACE, body);
    Assoc(inner, [0x7D], rest);
    if raw == [] {
      Cons(0x7D, rest);
      BlankSkipped(inner, [0x7D] + rest);
    } else {
      MembersOpen(inner, raw, [0x7D] + rest);
      MembersComplete(inner, raw, rest);
    }
  }

  lemma ElementOpens(x: Text, v: Value, rest: Text)
    requires IsElement(x, v)
    ensures Opens(SkipSpace(x + rest))
  {
    var a, core, b :| x == a + core + b && Blank(a) && IsCore(core, v) && Blank(b);
    CoreOpens(core, v, b + rest);
    BlankSkipped(a, core + (b + rest));
    Regroup(a, core, b, rest);
  }

  lemma ItemsOpen(t: Text, items: seq<Value>, rest: Text)
    requires IsItems(t, items) && items != []
    ensures Opens(SkipSpace(t + rest))
  {
    if |items| == 1 {
      ElementOpens(t, items[0], rest);
    } else {
      var x, y :| t == x + [0x2C] + y && IsElement(x, items[0]) && IsItems(y, items[1..]);
      ElementOpens(x, items[0], [0x2C] + y + rest);
      Regroup(x, [0x2C], y, rest);
    }
  }

  /** An element is read up to the blanks behind it. */
  lemma {:induction false} ElementComplete(x: Text, v: Value, rest: Text)
    requires IsElement(x, v) && Follows(rest) && (rest != [] ==> !IsSpace(rest[0]))
    ensures ParseValue(x + rest).Ok? && ParseValue(x + rest).value == v
    ensures SkipSpace(ParseValue(x + rest).rest) == rest
    decreases |x|, 1
  {
    var a, core, b :| x == a + core + b && Blank(a) && IsCore(core, v) && Blank(b);
    var more := b + rest;
    BlankSkipped(b, rest);
    assert b != [] ==> more[0] == b[0];
    assert b == [] ==> more == rest;
    CoreComplete(core, v, more);
    CoreOpens(core, v, more);
    LeadingIgnored(a, core + more);
    Regroup(a, core, b, rest);
  }

  lemma {:induction false} ItemsComplete(t: Text, items: seq<Value>, rest: Text)
    requires IsItems(t, items) && items != []
    ensures ParseItems(t + [0x5D] + rest) == Ok(items, rest)
    decreases |t|, 3
  {
    if |items| == 1 {
      var close := [0x5D] + rest;
      Cons(0x5D, rest);
      ElementComplete(t, items[0], close);
      Assoc(t, [0x5D], rest);
      assert [items[0]] == items;
    } else {
      var x, y :| t == x + [0x2C] + y && IsElement(x, items[0]) && IsItems(y, items[1..]);
      var more := y + [0x5D] + rest;
      Cons(0x2C, more);
      ElementComplete(x, items[0], [0x2C] + more);
      ItemsComplete(y, items[1..], rest);
      Joined(x, 0x2C, y, 0x5D, rest);
      assert [items[0]] + items[1..] == items;
    }
  }

  lemma MembersOpen(t: Text, raw: Members, rest: Text)
    requires IsMembers(t, raw) && raw != []
    ensures SkipSpace(t + rest) != [] && SkipSpace(t + rest)[0] == QUOTE
  {
    if |raw| == 1 {
      MemberOpens(t, raw[0], rest);
    } else {
      var x, y :| t == x + [0x2C] + y && IsMember(x, raw[0]) && IsMembers(y, raw[1..]);
      MemberOpens(x, raw[0], [0x2C] + y + rest);
      Regroup(x, [0x2C], y, rest);
    }
  }

  lemma MemberOpens(t: Text, m: Entry<Value>, rest: Text)
    requires IsMember(t, m)
    ensures SkipSpace(t + rest) != [] && SkipSpace(t + rest)[0] == QUOTE
  {
    var a, q, b, x :|
      t == a + q + b + [0x3A] + x && Blank(a) && IsQuoted(q, m.key) && Blank(b) && IsElement(x, m.value);
    KeyComplete(a, q, b, x + rest, m.key);
    Assoc(a + q + b + [0x3A], x, rest);
  }

  lemma KeyComplete(a: Text, q: Text, b: Text, after: Text, key: Text)
    requires Blank(a) && IsQuoted(q, key) && Blank(b)
    ensures var t := a + q + b + [0x3A] + after; KeyRead(t) && KeyOf(t) == key && AfterColon(t) == after
    ensures SkipSpace(a + q + b + [0x3A] + after) != [] && SkipSpace(a + q + b + [0x3A] + after)[0] == QUOTE
  {
    var colon := [0x3A] + after;
    Cons(0x3A, after);
    QuotedComplete(q, key, b + colon);
    BlankSkipped(a, q + (b + colon));
    BlankSkipped(b, colon);
    KeyJoined(a, q, b, after);
  }

  /** A member is read up to the blanks behind its value. */
  lemma {:induction false} MemberComplete(t: Text, m: Entry<Value>, rest: Text)
    requires IsMember(t, m) && Follows(rest) && (rest != [] ==> !IsSpace(rest[0]))
    ensures KeyRead(t + rest) && KeyOf(t + rest) == m.key && ParseValue(AfterColon(t + rest)).Ok?
    ensures ParseValue(AfterColon(t + rest)).value == m.value
    ensures SkipSpace(ParseValue(AfterColon(t + rest)).rest) == rest
    decreases |t|, 2
  {
    var a, q, b, x :|
      t == a + q + b + [0x3A] + x && Blank(a) && IsQuoted(q, m.key) && Blank(b) && IsElement(x, m.value);
    KeyComplete(a, q, b, x + rest, m.key);
    Assoc(a + q + b + [0x3A], x, rest);
    ElementComplete(x, m.value, rest);
  }

  /** `ParseMembers` once its first member has been read. */
  lemma MembersResume(t: Text)
    requires KeyRead(t) && ParseValue(AfterColon(t)).Ok?
    ensures var m := Entry(KeyOf(t), ParseValue(AfterColon(t)).value);
            var s := SkipSpace(ParseValue(AfterColon(t)).rest);
            && (s != [] && s[0] == RBRACE ==> ParseMembers(t) == Ok([m], s[1..]))
            && (s != [] && s[0] == COMMA && ParseMembers(s[1..]).Ok? ==>
                  ParseMembers(t) == Ok(PrependMember(m, ParseMembers(s[1..]).value), ParseMembers(s[1..]).rest))
  {
  }

  lemma {:induction false} MembersComplete(t: Text, raw: Members, rest: Text)
    requires IsMembers(t, raw) && raw != []
    ensures ParseMembers(t + [0x7D] + rest) == Ok(Spread([], raw), rest)
    decreases |t|, 4
  {
    if |raw| == 1 {
      Cons(0x7D, rest);
      MemberComplete(t, raw[0], [0x7D] + rest);
      Assoc(t, [0x7D], rest);
      MembersResume(t + ([0x7D] + rest));
      SpreadOne(raw[0]);
      assert [raw[0]] == raw;
    } else {
      var x, y :| t == x + [0x2C] + y && IsMember(x, raw[0]) && IsMembers(y, raw[1..]);
      var more := y + [0x7D] + rest;
      Cons(0x2C, more);
      MemberComplete(x, raw[0], [0x2C] + more);
      MembersComplete(y, raw[1..], rest);
      Joined(x, 0x2C, y, 0x7D, rest);
      MembersResume(x + ([0x2C] + more));
      SpreadPrepend(raw[0], raw[1..]);
      assert [raw[0]] + raw[1..] == raw;
    }
  }

  // ----- Main result -----

  /** A text is parsed to a value exactly when it is a JSON text that denotes this value. */
  lemma ParseExactly(t: Text, v: Value)
    ensures Parse(t) == Ok(v, []) <==> IsElement(t, v)
  {
    if Parse(t) == Ok(v, []) {
      var x := ElementSound(t);
      var b := SkippedBlank(ParseValue(t).rest);
      assert b + [] == b;
      Trailing(x, v, b);
    }
    if IsElement(t, v) {
      ElementComplete(t, v, []);
      assert t + [] == t;
    }
  }
}
