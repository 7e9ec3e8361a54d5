/**
 JavaScript strings as sequences of UTF-16 code units, with the operations that the audit code
 relies on: the order used by `Array.prototype.sort`, `join(',')`, and decimal numerals.
 */
module JsText {
  type Unit = u: int | 0 <= u < 0x1_0000
  type Text = seq<Unit>

  const QUOTE: Unit := 0x22
  const COMMA: Unit := 0x2C
  const MINUS: Unit := 0x2D
  const ZERO: Unit := 0x30
  const NINE: Unit := 0x39
  const COLON: Unit := 0x3A
  const LBRACKET: Unit := 0x5B
  const BACKSLASH: Unit := 0x5C
  const RBRACKET: Unit := 0x5D
  const LBRACE: Unit := 0x7B
  const RBRACE: Unit := 0x7D

  /** The code units of an ASCII literal. */
  function Ascii(s: string): (t: Text)
    requires forall i | 0 <= i < |s| :: s[i] < '\U{0080}'
    ensures |t| == |s| && forall i | 0 <= i < |s| :: t[i] == s[i] as int
  {
    seq(|s|, i requires 0 <= i < |s| => s[i] as int)
  }

  // ----- Order -----

  /** The default order of `sort()`: lexicographic by code unit, a proper prefix coming first. */
  predicate Less(a: Text, b: Text) {
    b != [] && (a == [] || a[0] < b[0] || (a[0] == b[0] && Less(a[1..], b[1..])))
  }

  /** At `n` the texts part: `a` ends there and `b` goes on, or `a` has the smaller unit. */
  predicate PartsAt(a: Text, b: Text, n: nat) {
    && n <= |a| && n <= |b| && a[..n] == b[..n]
    && if n == |a| then n < |b| else n < |b| && a[n] < b[n]
  }

  /** `a` comes before `b` in the order of code units. */
  ghost predicate Precedes(a: Text, b: Text) {
    exists n: nat :: PartsAt(a, b, n)
  }

  lemma PartsLater(a: Text, b: Text, n: nat)
    requires a != [] && b != [] && a[0] == b[0]
    ensures PartsAt(a, b, n + 1) <==> PartsAt(a[1..], b[1..], n)
  {
    if n + 1 <= |a| && n + 1 <= |b| {
      assert a[..n + 1] == [a[0]] + a[1..][..n] && b[..n + 1] == [b[0]] + b[1..][..n];
      assert a[..n + 1] == b[..n + 1] ==> a[1..][..n] == a[..n + 1][1..] && b[1..][..n] == b[..n + 1][1..];
    }
  }

  /** The recursive comparison is the order by the first position at which the texts part. */
  lemma {:induction false} LessMeans(a: Text, b: Text)
    ensures Less(a, b) <==> Precedes(a, b)
  {
    if a == [] || b == [] || a[0] != b[0] {
      assert PartsAt(a, b, 0) <==> Less(a, b);
      forall n: nat | PartsAt(a, b, n)
        ensures n == 0
      {
      }
    } else {
      LessMeans(a[1..], b[1..]);
      if Less(a, b) {
        var n: nat :| PartsAt(a[1..], b[1..], n);
        PartsLater(a, b, n);
      } else if Precedes(a, b) {
        var n: nat :| PartsAt(a, b, n);
        if n > 0 {
          PartsLater(a, b, n - 1);
        }
      }
    }
  }

  lemma {:induction false} LessIrreflexive(a: Text)
    ensures !Less(a, a)
  {
    if a != [] {
      LessIrreflexive(a[1..]);
    }
  }

  lemma {:induction false} LessTransitive(a: Text, b: Text, c: Text)
    requires Less(a, b) && Less(b, c)
    ensures Less(a, c)
  {
    if a != [] && a[0] == b[0] && b[0] == c[0] {
      LessTransitive(a[1..], b[1..], c[1..]);
    }
  }

  lemma {:induction false} LessTotal(a: Text, b: Text)
    ensures Less(a, b) || a == b || Less(b, a)
  {
    if a != [] && b != [] && a[0] == b[0] {
      LessTotal(a[1..], b[1..]);
      assert a == [a[0]] + a[1..] && b == [b[0]] + b[1..];
    }
  }

  // ----- join(',') -----

  function Join(parts: seq<Text>): Text {
    if |parts| == 0 then []
    else if |parts| == 1 then parts[0]
    else parts[0] + [COMMA] + Join(parts[1..])
  }

  /** Where part `i` begins in the joined text: all earlier parts and one comma after each. */
  function Offset(parts: seq<Text>, i: nat): nat
    requires i <= |parts|
  {
    if i == 0 then 0 else Offset(parts, i - 1) + |parts[i - 1]| + 1
  }

  lemma {:induction false} OffsetLater(parts: seq<Text>, i: nat)
    requires 0 < i <= |parts|
    ensures Offset(parts, i) == |parts[0]| + 1 + Offset(parts[1..], i - 1)
  {
    if i > 1 {
      OffsetLater(parts, i - 1);
    }
  }

  lemma Shifted(lead: Text, rest: Text, n: nat, k: nat)
    requires n + k <= |rest|
    ensures (lead + rest)[|lead| + n..|lead| + n + k] == rest[n..n + k]
    ensures |lead| > 0 && n == 0 ==> (lead + rest)[|lead| + n - 1] == lead[|lead| - 1]
    ensures n > 0 ==> (lead + rest)[|lead| + n - 1] == rest[n - 1]
  {
  }

  lemma JoinRest(parts: seq<Text>)
    requires |parts| > 1
    ensures Join(parts) == (parts[0] + [COMMA]) + Join(parts[1..])
  {
  }

  lemma JoinFirst(parts: seq<Text>)
    requires parts != []
    ensures |parts[0]| <= |Join(parts)| && Join(parts)[..|parts[0]|] == parts[0]
    ensures |parts| == 1 ==> Join(parts) == parts[0]
  {
  }

  /** The joined text holds every part at its offset, single commas between, and nothing else. */
  lemma {:induction false} JoinAt(parts: seq<Text>, i: nat)
    requires i < |parts|
    ensures Offset(parts, i) + |parts[i]| <= |Join(parts)|
    ensures Join(parts)[Offset(parts, i)..Offset(parts, i) + |parts[i]|] == parts[i]
    ensures i > 0 ==> Join(parts)[Offset(parts, i) - 1] == COMMA
    ensures i == |parts| - 1 ==> |Join(parts)| == Offset(parts, i) + |parts[i]|
  {
    if i == 0 {
      JoinFirst(parts);
    } else {
      JoinAt(parts[1..], i - 1);
      JoinRest(parts);
      OffsetLater(parts, i);
      Shifted(parts[0] + [COMMA], Join(parts[1..]), Offset(parts[1..], i - 1), |parts[i]|);
    }
  }

  // ----- Decimal numerals -----

  predicate IsDigit(u: Unit) {
    ZERO <= u <= NINE
  }

  function Digits(n: nat): (t: Text)
    ensures |t| > 0 && forall i | 0 <= i < |t| :: IsDigit(t[i])
    ensures n > 0 ==> t[0] != ZERO
    ensures n == 0 ==> t == [ZERO]
  {
    if n < 10 then [ZERO + n] else Digits(n / 10) + [ZERO + n % 10]
  }

  function Numeral(n: int): Text {
    if n < 0 then [MINUS] + Digits(-n) else Digits(n)
  }

  lemma NumeralSign(n: int)
    ensures Numeral(n) != [] && (Numeral(n)[0] == MINUS <==> n < 0)
  {
  }

  /** The number that a run of digits denotes. */
  function DigitsValue(t: Text): nat
    requires forall i | 0 <= i < |t| :: IsDigit(t[i])
  {
    if t == [] then 0
    else
      var last := t[|t| - 1];
      assert IsDigit(last);
      10 * DigitsValue(t[..|t| - 1]) + (last - ZERO)
  }

  lemma {:induction false} DigitsValueInverse(n: nat)
    ensures DigitsValue(Digits(n)) == n
  {
    if n >= 10 {
      DigitsValueInverse(n / 10);
      assert Digits(n)[..|Digits(n)| - 1] == Digits(n / 10);
    } else {
      assert Digits(n)[..0] == [];
    }
  }

  /** How many digits a text starts with. */
  function DigitRun(t: Text): (k: nat)
    ensures k <= |t| && forall i | 0 <= i < k :: IsDigit(t[i])
    ensures k < |t| ==> !IsDigit(t[k])
  {
    if t == [] || !IsDigit(t[0]) then 0 else 1 + DigitRun(t[1..])
  }

  lemma {:induction false} DigitRunOf(digits: Text, rest: Text)
    requires forall i | 0 <= i < |digits| :: IsDigit(digits[i])
    requires rest == [] || !IsDigit(rest[0])
    ensures DigitRun(digits + rest) == |digits|
  {
    var t := digits + rest;
    assert forall i | 0 <= i < |digits| :: IsDigit(t[i]);
    assert |digits| < |t| ==> t[|digits|] == rest[0];
  }
}
