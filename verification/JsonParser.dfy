/**
 `JSON.parse` for texts whose numbers are integers, and the proof that it inverts the printers:
 canonical text therefore determines the JSON value it was made from.
 */
module JsonParser {
  import opened JsText
  import opened JsValues
  import opened CanonicalJson

  datatype Parsed<+T> = Fail | Ok(value: T, rest: Text)

  predicate IsSpace(u: Unit) {
    u == 0x20 || u == 0x09 || u == 0x0A || u == 0x0D
  }

  function SkipSpace(t: Text): (r: Text)
    ensures |r| <= |t|
    ensures t == [] || !IsSpace(t[0]) ==> r == t
  {
    if t != [] && IsSpace(t[0]) then SkipSpace(t[1..]) else t
  }

  // ----- Strings -----

  predicate IsHex(u: Unit) {
    IsDigit(u) || 0x61 <= u <= 0x66 || 0x41 <= u <= 0x46
  }

  function HexValue(u: Unit): (d: nat)
    requires IsHex(u)
    ensures d < 16
  {
    if IsDigit(u) then u - ZERO else if u >= 0x61 then u - 0x61 + 10 else u - 0x41 + 10
  }

  /** The unit that a two-character escape stands for; 0xFFFF is never one of them. */
  function ShortEscape(u: Unit): Parsed<Unit> {
    if u == QUOTE || u == BACKSLASH || u == 0x2F then Ok(u, [])
    else if u == 0x62 then Ok(0x08, [])
    else if u == 0x74 then Ok(0x09, [])
    else if u == 0x6E then Ok(0x0A, [])
    else if u == 0x66 then Ok(0x0C, [])
    else if u == 0x72 then Ok(0x0D, [])
    else Fail
  }

  /** One unit of a string body, written plainly or as an escape. */
  function ParseUnit(t: Text): (r: Parsed<Unit>)
    ensures r.Ok? ==> |r.rest| < |t|
  {
    if t == [] || t[0] == QUOTE || t[0] < 0x20 then Fail
    else if t[0] != BACKSLASH then Ok(t[0], t[1..])
    else if |t| < 2 then Fail
    else if t[1] == LOWER_U then
      if |t| < 6 || !IsHex(t[2]) || !IsHex(t[3]) || !IsHex(t[4]) || !IsHex(t[5]) then Fail
      else
        Ok(HexValue(t[2]) * 0x1000 + HexValue(t[3]) * 0x100 + HexValue(t[4]) * 0x10 + HexValue(t[5]), t[6..])
    else
      var short := ShortEscape(t[1]);
      if short.Fail? then Fail else Ok(short.value, t[2..])
  }

  /** The rest of a string whose opening quote has been read. */
  function ParseString(t: Text): (r: Parsed<Text>)
    ensures r.Ok? ==> |r.rest| < |t|
    decreases |t|
  {
    if t != [] && t[0] == QUOTE then Ok([], t[1..])
    else
      var head := ParseUnit(t);
      if head.Fail? then Fail
      else
        var tail := ParseString(head.rest);
        if tail.Fail? then Fail else Ok([head.value] + tail.value, tail.rest)
  }

  // ----- Values -----

  predicate StartsWith(t: Text, word: Text) {
    |word| <= |t| && t[..|word|] == word
  }

  /** Integers without leading zeros; a fraction or an exponent is outside this model's numbers. */
  function ParseNumber(t: Text): (r: Parsed<Value>)
    ensures r.Ok? ==> |r.rest| < |t| && r.value.Num?
  {
    var digits := if t != [] && t[0] == MINUS then t[1..] else t;
    var k := DigitRun(digits);
    if k == 0 || (k > 1 && digits[0] == ZERO) then Fail
    else if k < |digits| && digits[k] in {0x2E, 0x45, 0x65} then Fail
    else
      var n: int := DigitsValue(digits[..k]);
      Ok(Num(if t[0] == MINUS then -n else n), digits[k..])
  }

  /** A repeated key keeps the place of its first occurrence and the value of its last. */
  function PrependMember(m: Entry<Value>, ms: Members): Members {
    if HasKey(ms, m.key) then [Entry(m.key, Get(ms, m.key))] + Without(ms, {m.key}) else [m] + ms
  }

  function ParseValue(t: Text): (r: Parsed<Value>)
    ensures r.Ok? ==> |r.rest| < |t|
    decreases |t|, 0
  {
    var s := SkipSpace(t);
    if s == [] then Fail
    else if s[0] == QUOTE then
      var body := ParseString(s[1..]);
      if body.Fail? then Fail else Ok(Str(body.value), body.rest)
    else if s[0] == LBRACKET then
      var first := SkipSpace(s[1..]);
      if first != [] && first[0] == RBRACKET then Ok(Arr([]), first[1..])
      else
        var items := ParseItems(s[1..]);
        if items.Fail? then Fail else Ok(Arr(items.value), items.rest)
    else if s[0] == LBRACE then
      var first := SkipSpace(s[1..]);
      if first != [] && first[0] == RBRACE then Ok(Obj([]), first[1..])
      else
        var ms := ParseMembers(s[1..]);
        if ms.Fail? then Fail else Ok(Obj(ms.value), ms.rest)
    else if StartsWith(s, NULL) then Ok(Null, s[4..])
    else if StartsWith(s, TRUE) then Ok(Bool(true), s[4..])
    else if StartsWith(s, FALSE) then Ok(Bool(false), s[5..])
    else ParseNumber(s)
  }

  /** One or more elements and the closing bracket. */
  function ParseItems(t: Text): (r: Parsed<seq<Value>>)
    ensures r.Ok? ==> |r.rest| < |t|
    decreases |t|, 1
  {
    var head := ParseValue(t);
    if head.Fail? then Fail
    else
      var s := SkipSpace(head.rest);
      if s == [] then Fail
      else if s[0] == RBRACKET then Ok([head.value], s[1..])
      else if s[0] != COMMA then Fail
      else
        var tail := ParseItems(s[1..]);
        if tail.Fail? then Fail else Ok([head.value] + tail.value, tail.rest)
  }

  /** One or more members and the closing brace. */
  function ParseMembers(t: Text): (r: Parsed<Members>)
    ensures r.Ok? ==> |r.rest| < |t|
    decreases |t|, 1
  {
    var open := SkipSpace(t);
    if open == [] || open[0] != QUOTE then Fail
    else
      var key := ParseString(open[1..]);
      if key.Fail? then Fail
      else
        var colon := SkipSpace(key.rest);
        if colon == [] || colon[0] != COLON then Fail
        else
          var value := ParseValue(colon[1..]);
          if value.Fail? then Fail
          else
            var m := Entry(key.value, value.value);
            var s := SkipSpace(value.rest);
            if s == [] then Fail
            else if s[0] == RBRACE then Ok([m], s[1..])
            else if s[0] != COMMA then Fail
            else
              var tail := ParseMembers(s[1..]);
              if tail.Fail? then Fail else Ok(PrependMember(m, tail.value), tail.rest)
  }

  /** `JSON.parse`, with `Fail` for a syntax error. */
  function Parse(t: Text): Parsed<Value> {
    var r := ParseValue(t);
    if r.Fail? || SkipSpace(r.rest) != [] then Fail else Ok(r.value, [])
  }

  // ----- Parsed values are well formed -----

  lemma {:induction false} GetWellFormed(ms: Members, k: Text)
    requires forall i | 0 <= i < |ms| :: WellFormed(ms[i].value) && Clean(ms[i].value)
    requires HasKey(ms, k)
    ensures WellFormed(Get(ms, k)) && Clean(Get(ms, k))
  {
    if ms[0].key != k {
      GetWellFormed(ms[1..], k);
    }
  }

  lemma {:induction false} WithoutWellFormed(ms: Members, ks: set<Text>)
    requires DistinctKeys(ms)
    ensures DistinctKeys(Without(ms, ks))
    ensures forall i | 0 <= i < |Without(ms, ks)| :: Without(ms, ks)[i] in ms
  {
    if ms != [] {
      WithoutWellFormed(ms[1..], ks);
      WithoutFacts(ms[1..], ks, ms[0].key);
      assert ms == [ms[0]] + ms[1..];
    }
  }

  lemma PrependWellFormed(m: Entry<Value>, ms: Members)
    requires WellFormed(m.value) && Clean(m.value)
    requires WellFormed(Obj(ms)) && Clean(Obj(ms))
    ensures WellFormed(Obj(PrependMember(m, ms))) && Clean(Obj(PrependMember(m, ms)))
  {
    if HasKey(ms, m.key) {
      GetWellFormed(ms, m.key);
      WithoutWellFormed(ms, {m.key});
      WithoutFacts(ms, {m.key}, m.key);
      assert PrependMember(m, ms)[1..] == Without(ms, {m.key});
    } else {
      assert PrependMember(m, ms)[1..] == ms;
    }
  }

  lemma {:induction false} ParsedValueIsJson(t: Text)
    ensures ParseValue(t).Ok? ==> WellFormed(ParseValue(t).value) && Clean(ParseValue(t).value)
    decreases |t|, 0
  {
    var s := SkipSpace(t);
    if s != [] && s[0] == LBRACKET {
      ParsedItemsAreJson(s[1..]);
    } else if s != [] && s[0] == LBRACE {
      ParsedMembersAreJson(s[1..]);
    }
  }

  lemma {:induction false} ParsedItemsAreJson(t: Text)
    ensures ParseItems(t).Ok? ==>
              WellFormed(Arr(ParseItems(t).value)) && Clean(Arr(ParseItems(t).value))
    decreases |t|, 1
  {
    ParsedValueIsJson(t);
    var head := ParseValue(t);
    if head.Ok? {
      var s := SkipSpace(head.rest);
      if s != [] && s[0] == COMMA {
        ParsedItemsAreJson(s[1..]);
      }
    }
  }

  lemma {:induction false} ParsedMembersAreJson(t: Text)
    ensures ParseMembers(t).Ok? ==>
              WellFormed(Obj(ParseMembers(t).value)) && Clean(Obj(ParseMembers(t).value))
    decreases |t|, 1
  {
    var open := SkipSpace(t);
    if ParseMembers(t).Ok? {
      var key := ParseString(open[1..]);
      var colon := SkipSpace(key.rest);
      ParsedValueIsJson(colon[1..]);
      var value := ParseValue(colon[1..]);
      var s := SkipSpace(value.rest);
      if s[0] == COMMA {
        ParsedMembersAreJson(s[1..]);
        PrependWellFormed(Entry(key.value, value.value), ParseMembers(s[1..]).value);
      }
    }
  }

  // ----- Reading back what was printed -----

  lemma Cons(u: Unit, t: Text)
    ensures ([u] + t)[0] == u && ([u] + t)[1..] == t
  {
  }

  lemma Assoc(a: Text, b: Text, c: Text)
    ensures (a + b) + c == a + (b + c)
  {
  }

  lemma HexInverse(d: nat)
    requires d < 16
    ensures IsHex(HexDigit(d)) && HexValue(HexDigit(d)) == d
  {
  }

  lemma HexSplit(u: Unit)
    ensures u / 0x1000 * 0x1000 + u / 0x100 % 0x10 * 0x100 + u / 0x10 % 0x10 * 0x10 + u % 0x10 == u
  {
    var a := u / 0x10;
    var b := a / 0x10;
    assert u / 0x100 == b && u / 0x1000 == b / 0x10;
    assert u == a * 0x10 + u % 0x10 && a == b * 0x10 + a % 0x10 && b == b / 0x10 * 0x10 + b % 0x10;
  }

  lemma ParseEscapedUnit(u: Unit, rest: Text)
    ensures ParseUnit(EscapedUnit(u) + rest) == Ok(u, rest)
  {
    var t := EscapedUnit(u) + rest;
    HexInverse(u / 0x1000);
    HexInverse(u / 0x100 % 0x10);
    HexInverse(u / 0x10 % 0x10);
    HexInverse(u % 0x10);
    assert t[0] == BACKSLASH && t[1] == LOWER_U && t[6..] == rest;
    assert t[2] == HexDigit(u / 0x1000) && t[3] == HexDigit(u / 0x100 % 0x10);
    assert t[4] == HexDigit(u / 0x10 % 0x10) && t[5] == HexDigit(u % 0x10);
    HexSplit(u);
  }

  lemma ParseEscapeUnit(u: Unit, rest: Text)
    ensures ParseUnit(EscapeUnit(u) + rest) == Ok(u, rest)
  {
    var e := EscapeUnit(u);
    if |e| == 2 {
      var t := e + rest;
      assert t[0] == e[0] && t[1] == e[1] && t[2..] == rest;
    } else if |e| == 1 {
      Cons(u, rest);
    } else {
      ParseEscapedUnit(u, rest);
    }
  }

  lemma ParseStringStep(t: Text, u: Unit, tail: Text, s: Text, rest: Text)
    requires t != [] && t[0] != QUOTE
    requires ParseUnit(t) == Ok(u, tail) && ParseString(tail) == Ok(s, rest)
    ensures ParseString(t) == Ok([u] + s, rest)
  {
  }

  lemma ParseRawStep(u: Unit, tail: Text, s: Text, rest: Text)
    requires u >= 0x20 && u != QUOTE && u != BACKSLASH
    requires ParseString(tail) == Ok(s, rest)
    ensures ParseString([u] + tail) == Ok([u] + s, rest)
  {
    Cons(u, tail);
    ParseStringStep([u] + tail, u, tail, s, rest);
  }

  lemma ParseEscapeStep(u: Unit, tail: Text, s: Text, rest: Text)
    requires ParseString(tail) == Ok(s, rest)
    ensures ParseString(EscapeUnit(u) + tail) == Ok([u] + s, rest)
  {
    ParseEscapeUnit(u, tail);
    ParseStringStep(EscapeUnit(u) + tail, u, tail, s, rest);
  }

  lemma PairAssoc(a: Unit, b: Unit, more: Text, close: Text)
    ensures [a, b] + more + close == [a] + ([b] + (more + close))
  {
  }

  lemma EscapeLead(s: Text)
    requires |s| > 1 && IsLead(s[0]) && IsTrail(s[1])
    ensures Escape(s) == [s[0], s[1]] + Escape(s[2..])
  {
    assert s[..2] == [s[0], s[1]];
  }

  lemma EscapePair(s: Text, close: Text)
    requires |s| > 1 && IsLead(s[0]) && IsTrail(s[1])
    ensures Escape(s) + close == [s[0]] + ([s[1]] + (Escape(s[2..]) + close))
  {
    EscapeLead(s);
    PairAssoc(s[0], s[1], Escape(s[2..]), close);
  }

  lemma EscapeOne(s: Text, close: Text)
    requires s != [] && !(|s| > 1 && IsLead(s[0]) && IsTrail(s[1]))
    ensures Escape(s) + close == EscapeUnit(s[0]) + (Escape(s[1..]) + close)
  {
    Assoc(EscapeUnit(s[0]), Escape(s[1..]), close);
  }

  lemma {:induction false} ParseEscaped(s: Text, rest: Text)
    ensures ParseString(Escape(s) + ([QUOTE] + rest)) == Ok(s, rest)
  {
    var close := [QUOTE] + rest;
    if s == [] {
      Cons(QUOTE, rest);
      assert Escape(s) + close == close;
    } else if |s| > 1 && IsLead(s[0]) && IsTrail(s[1]) {
      var tail := Escape(s[2..]) + close;
      ParseEscaped(s[2..], rest);
      ParseRawStep(s[1], tail, s[2..], rest);
      ParseRawStep(s[0], [s[1]] + tail, [s[1]] + s[2..], rest);
      EscapePair(s, close);
      assert [s[0]] + ([s[1]] + s[2..]) == s;
    } else {
      ParseEscaped(s[1..], rest);
      ParseEscapeStep(s[0], Escape(s[1..]) + close, s[1..], rest);
      EscapeOne(s, close);
      assert [s[0]] + s[1..] == s;
    }
  }

  /** What does not continue a number. */
  predicate Follows(rest: Text) {
    rest != [] ==> !IsDigit(rest[0]) && rest[0] !in {0x2E, 0x45, 0x65}
  }

  lemma ValueIsNumber(t: Text)
    requires t != [] && (t[0] == MINUS || IsDigit(t[0]))
    ensures ParseValue(t) == ParseNumber(t)
  {
    assert NULL[0] == 0x6E && TRUE[0] == 0x74 && FALSE[0] == 0x66;
    assert SkipSpace(t) == t;
    NotWord(t, NULL);
    NotWord(t, TRUE);
    NotWord(t, FALSE);
  }

  lemma NotWord(t: Text, word: Text)
    requires t != [] && (t[0] == MINUS || IsDigit(t[0])) && word != [] && word[0] in {0x6E, 0x74, 0x66}
    ensures !StartsWith(t, word)
  {
    if |word| <= |t| {
      assert t[..|word|][0] == t[0];
    }
  }

  lemma NumberDigits(n: nat, rest: Text)
    requires Follows(rest)
    ensures var digits := Digits(n) + rest;
            && digits != [] && IsDigit(digits[0])
            && ParseNumber(digits) == Ok(Num(n), rest)
            && ParseNumber([MINUS] + digits) == Ok(Num(0 - n), rest)
  {
    var digits := Digits(n) + rest;
    DigitRunOf(Digits(n), rest);
    DigitsValueInverse(n);
    Cons(MINUS, digits);
    assert IsDigit(Digits(n)[0]) && digits[0] == Digits(n)[0];
    assert digits[..|Digits(n)|] == Digits(n) && digits[|Digits(n)|..] == rest;
    assert rest != [] ==> digits[|Digits(n)|] == rest[0];
  }

  lemma ParseDigits(n: nat, rest: Text)
    requires Follows(rest)
    ensures ParseValue(Digits(n) + rest) == Ok(Num(n), rest)
    ensures ParseValue([MINUS] + (Digits(n) + rest)) == Ok(Num(0 - n), rest)
  {
    var digits := Digits(n) + rest;
    NumberDigits(n, rest);
    Cons(MINUS, digits);
    ValueIsNumber(digits);
    ValueIsNumber([MINUS] + digits);
  }

  lemma ParseNumeral(n: int, rest: Text)
    requires Follows(rest)
    ensures ParseValue(Numeral(n) + rest) == Ok(Num(n), rest)
  {
    if n < 0 {
      ParseDigits(-n, rest);
      Assoc([MINUS], Digits(-n), rest);
    } else {
      ParseDigits(n, rest);
    }
  }

  lemma ParseWord(word: Text, rest: Text)
    requires word == NULL || word == TRUE || word == FALSE
    ensures ParseValue(word + rest)
         == Ok(if word == NULL then Null else Bool(word == TRUE), rest)
  {
    var t := word + rest;
    assert NULL[0] == 0x6E && TRUE[0] == 0x74 && FALSE[0] == 0x66;
    assert t[..|word|] == word && t[|word|..] == rest && t[0] == word[0];
    assert t[..4] == NULL ==> t[0] == NULL[0];
    assert t[..4] == TRUE ==> t[0] == TRUE[0];
  }

  lemma ParseScalar(v: Value, rest: Text)
    requires !v.Undefined? && !v.Arr? && !v.Obj? && Follows(rest)
    ensures ParseValue(Scalar(v) + rest) == Ok(v, rest)
  {
    match v
    case Null => ParseWord(NULL, rest);
    case Bool(b) =>
      assert NULL[0] == 0x6E && TRUE[0] == 0x74 && FALSE[0] == 0x66;
      ParseWord(if b then TRUE else FALSE, rest);
    case Num(n) => ParseNumeral(n, rest);
    case Str(s) =>
      ParseEscaped(s, rest);
      Cons(QUOTE, Escape(s) + ([QUOTE] + rest));
      assert Scalar(v) + rest == [QUOTE] + (Escape(s) + ([QUOTE] + rest));
  }

  lemma PlainStart(v: Value)
    requires !v.Undefined?
    ensures |Plain(v)| > 0
    ensures !IsSpace(Plain(v)[0]) && Plain(v)[0] != RBRACKET
  {
    match v
    case Num(n) => assert n >= 0 ==> IsDigit(Digits(n)[0]);
    case Null => assert NULL[0] == 0x6E;
    case Bool(_) => assert TRUE[0] == 0x74 && FALSE[0] == 0x66;
    case _ =>
  }

  lemma ParseArray(body: Text, items: seq<Value>, rest: Text)
    requires body != [] && !IsSpace(body[0])
    requires if body[0] == RBRACKET then items == [] && rest == body[1..]
             else ParseItems(body) == Ok(items, rest)
    ensures ParseValue([LBRACKET] + body) == Ok(Arr(items), rest)
  {
    Cons(LBRACKET, body);
  }

  lemma ParseObject(body: Text, ms: Members, rest: Text)
    requires body != [] && !IsSpace(body[0])
    requires if body[0] == RBRACE then ms == [] && rest == body[1..]
             else ParseMembers(body) == Ok(ms, rest)
    ensures ParseValue([LBRACE] + body) == Ok(Obj(ms), rest)
  {
    Cons(LBRACE, body);
  }

  lemma Bracketed(open: Unit, texts: Text, close: Unit, rest: Text)
    ensures [open] + texts + [close] + rest == [open] + (texts + ([close] + rest))
    ensures texts == [] ==> texts + ([close] + rest) == [close] + rest
    ensures ([close] + rest)[0] == close && ([close] + rest)[1..] == rest
  {
    Assoc([open] + texts, [close], rest);
    Assoc([open], texts, [close] + rest);
    Cons(close, rest);
  }

  lemma ParseArrayText(texts: Text, items: seq<Value>, rest: Text)
    requires items == [] ==> texts == []
    requires items != [] ==> ParseItems(texts + ([RBRACKET] + rest)) == Ok(items, rest)
    requires var t := texts + ([RBRACKET] + rest); items != [] ==> !IsSpace(t[0]) && t[0] != RBRACKET
    ensures ParseValue([LBRACKET] + texts + [RBRACKET] + rest) == Ok(Arr(items), rest)
  {
    Bracketed(LBRACKET, texts, RBRACKET, rest);
    ParseArray(texts + ([RBRACKET] + rest), items, rest);
  }

  lemma ParseObjectText(texts: Text, ms: Members, rest: Text)
    requires ms == [] ==> texts == []
    requires ms != [] ==> ParseMembers(texts + ([RBRACE] + rest)) == Ok(ms, rest)
    requires var t := texts + ([RBRACE] + rest); ms != [] ==> t[0] == QUOTE
    ensures ParseValue([LBRACE] + texts + [RBRACE] + rest) == Ok(Obj(ms), rest)
  {
    Bracketed(LBRACE, texts, RBRACE, rest);
    ParseObject(texts + ([RBRACE] + rest), ms, rest);
  }

  lemma {:induction false} ParsePlain(v: Value, rest: Text)
    requires WellFormed(v) && Clean(v) && Follows(rest)
    ensures ParseValue(Plain(v) + rest) == Ok(v, rest)
    decreases v
  {
    match v
    case Arr(items) =>
      if items == [] {
        assert Join(PlainItems(items)) == [];
      } else {
        ParsePlainItems(items, rest);
      }
      ParseArrayText(Join(PlainItems(items)), items, rest);
    case Obj(ms) =>
      if ms == [] {
        assert Join(MemberTexts(PlainEntries(ms))) == [];
      } else {
        ParsePlainMembers(ms, rest);
      }
      ParseObjectText(Join(MemberTexts(PlainEntries(ms))), ms, rest);
    case _ => ParseScalar(v, rest);
  }

  lemma ParseItemsStep(t: Text, v: Value, tail: Text, items: seq<Value>, rest: Text)
    requires ParseValue(t) == Ok(v, [COMMA] + tail) && ParseItems(tail) == Ok(items, rest)
    ensures ParseItems(t) == Ok([v] + items, rest)
  {
    Cons(COMMA, tail);
  }

  lemma {:induction false} ParsePlainItems(items: seq<Value>, rest: Text)
    requires items != []
    requires forall i | 0 <= i < |items| :: WellFormed(items[i]) && Clean(items[i])
    ensures var t := Join(PlainItems(items)) + ([RBRACKET] + rest);
            && ParseItems(t) == Ok(items, rest)
            && !IsSpace(t[0]) && t[0] != RBRACKET
    decreases items
  {
    var close := [RBRACKET] + rest;
    PlainStart(items[0]);
    if |items| == 1 {
      ParsePlain(items[0], close);
      Cons(RBRACKET, rest);
      assert items == [items[0]];
    } else {
      var tail := Join(PlainItems(items[1..])) + close;
      ParsePlainItems(items[1..], rest);
      Cons(COMMA, tail);
      ParsePlain(items[0], [COMMA] + tail);
      ParseItemsStep(Plain(items[0]) + ([COMMA] + tail), items[0], tail, items[1..], rest);
      assert PlainItems(items)[1..] == PlainItems(items[1..]);
      Assoc(Plain(items[0]) + [COMMA], Join(PlainItems(items[1..])), close);
      Assoc(Plain(items[0]), [COMMA], tail);
      assert items == [items[0]] + items[1..];
    }
  }

  /** One printed member, with `after` behind it. */
  function MemberBefore(m: Entry<Value>, after: Text): Text {
    [QUOTE] + (Escape(m.key) + ([QUOTE] + ([COLON] + (Plain(m.value) + after))))
  }

  lemma MemberTextBefore(m: Entry<Value>, after: Text)
    ensures Quote(m.key) + [COLON] + Plain(m.value) + after == MemberBefore(m, after)
  {
    var e := Escape(m.key);
    var p := Plain(m.value);
    Assoc(Quote(m.key) + [COLON], p, after);
    Assoc(Quote(m.key), [COLON], p + after);
    Assoc([QUOTE] + e, [QUOTE], [COLON] + (p + after));
    Assoc([QUOTE], e, [QUOTE] + ([COLON] + (p + after)));
  }

  lemma ParseMembersStep(t: Text, key: Text, value: Text, v: Value, after: Text)
    requires t != [] && t[0] == QUOTE && ParseString(t[1..]) == Ok(key, [COLON] + value)
    requires ParseValue(value) == Ok(v, after)
    requires after != [] && (after[0] == COMMA || after[0] == RBRACE)
    ensures ParseMembers(t)
         == if after[0] == RBRACE then Ok([Entry(key, v)], after[1..])
            else if ParseMembers(after[1..]).Fail? then Fail
            else Ok(PrependMember(Entry(key, v), ParseMembers(after[1..]).value), ParseMembers(after[1..]).rest)
  {
    Cons(COLON, value);
  }

  lemma ParseMember(m: Entry<Value>, after: Text)
    requires ParseValue(Plain(m.value) + after) == Ok(m.value, after)
    requires after != [] && (after[0] == COMMA || after[0] == RBRACE)
    ensures ParseMembers(MemberBefore(m, after))
         == if after[0] == RBRACE then Ok([m], after[1..])
            else if ParseMembers(after[1..]).Fail? then Fail
            else Ok(PrependMember(m, ParseMembers(after[1..]).value), ParseMembers(after[1..]).rest)
  {
    var value := Plain(m.value) + after;
    ParseEscaped(m.key, [COLON] + value);
    Cons(QUOTE, Escape(m.key) + ([QUOTE] + ([COLON] + value)));
    ParseMembersStep(MemberBefore(m, after), m.key, value, m.value, after);
  }

  lemma {:induction false} ParsePlainMembers(ms: Members, rest: Text)
    requires ms != [] && DistinctKeys(ms)
    requires forall i | 0 <= i < |ms| :: WellFormed(ms[i].value) && Clean(ms[i].value)
    ensures var t := Join(MemberTexts(PlainEntries(ms))) + ([RBRACE] + rest);
            ParseMembers(t) == Ok(ms, rest) && t[0] == QUOTE
    decreases ms
  {
    var close := [RBRACE] + rest;
    Cons(RBRACE, rest);
    assert ms == [ms[0]] + ms[1..];
    if |ms| == 1 {
      ParsePlain(ms[0].value, close);
      ParseMember(ms[0], close);
      MemberTextBefore(ms[0], close);
      assert Join(MemberTexts(PlainEntries(ms))) == Quote(ms[0].key) + [COLON] + Plain(ms[0].value);
      assert [ms[0]] == ms;
    } else {
      ParsePlainMembers(ms[1..], rest);
      var more := Join(MemberTexts(PlainEntries(ms[1..]))) + close;
      Cons(COMMA, more);
      ParsePlain(ms[0].value, [COMMA] + more);
      ParseMember(ms[0], [COMMA] + more);
      JoinMembers(ms, close);
    }
  }

  lemma JoinMembers(ms: Members, close: Text)
    requires |ms| > 1
    ensures Join(MemberTexts(PlainEntries(ms))) + close
         == MemberBefore(ms[0], [COMMA] + (Join(MemberTexts(PlainEntries(ms[1..]))) + close))
  {
    var texts := MemberTexts(PlainEntries(ms));
    var more := Join(MemberTexts(PlainEntries(ms[1..])));
    assert texts[1..] == MemberTexts(PlainEntries(ms[1..]));
    Assoc(texts[0] + [COMMA], more, close);
    Assoc(texts[0], [COMMA], more + close);
    MemberTextBefore(ms[0], [COMMA] + (more + close));
  }

  // ----- Main results -----

  lemma {:induction false} NormalIsJson(v: Value)
    requires Normal(v)
    ensures WellFormed(v) && Clean(v)
    decreases v
  {
    match v
    case Arr(items) =>
      forall i | 0 <= i < |items|
        ensures WellFormed(items[i]) && Clean(items[i])
      {
        NormalIsJson(items[i]);
      }
    case Obj(ms) =>
      AscendingDistinct(ms);
      forall i | 0 <= i < |ms|
        ensures WellFormed(ms[i].value) && Clean(ms[i].value)
      {
        NormalIsJson(ms[i].value);
      }
    case _ =>
  }

  lemma {:induction false} AscendingDistinct(ms: Members)
    requires Ascending(ms)
    ensures DistinctKeys(ms)
  {
    if ms != [] {
      AscendingDistinct(ms[1..]);
      if HasKey(ms[1..], ms[0].key) {
        var i := KeyIndex(ms[1..], ms[0].key);
        assert Less(ms[0].key, ms[i + 1].key);
        LessIrreflexive(ms[0].key);
      }
    }
  }

  lemma PlainRoundTrip(v: Value)
    requires WellFormed(v) && Clean(v)
    ensures Parse(Plain(v)) == Ok(v, [])
  {
    ParsePlain(v, []);
    assert Plain(v) + [] == Plain(v);
  }

  /** Parsing canonical text gives back the value, up to key order and `undefined` read as `null`. */
  lemma CanonicalRoundTrip(v: Value)
    requires WellFormed(v)
    ensures Parse(Canonical(v)) == Ok(NormalForm(v), [])
    ensures Meaning(NormalForm(v)) == Meaning(v)
  {
    CanonicalIsPlain(v);
    NormalFormFacts(v);
    NormalIsJson(NormalForm(v));
    PlainRoundTrip(NormalForm(v));
  }

  /** Two values have one canonical text exactly when they are the same JSON value. */
  lemma CanonicalInjective(a: Value, b: Value)
    requires WellFormed(a) && WellFormed(b)
    ensures Canonical(a) == Canonical(b) <==> Meaning(a) == Meaning(b)
  {
    CanonicalRoundTrip(a);
    CanonicalRoundTrip(b);
    NormalFormFacts(a);
    NormalFormFacts(b);
    if Meaning(a) == Meaning(b) {
      NormalUnique(NormalForm(a), NormalForm(b));
      CanonicalIsPlain(a);
      CanonicalIsPlain(b);
    }
  }
}
