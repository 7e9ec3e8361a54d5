/**
 The verification script: the input text is cut into lines, each line is trimmed and parsed, audit
 records are kept, and the exit code reports the verdict.
 */
module LogReader {
  import opened JsText
  import opened JsValues
  import opened CanonicalJson
  import opened JsonParser
  import opened JsonGrammar
  import opened LogLine
  import opened AuditRecords
  import opened ChainVerifier
  import opened HonestChain

  const LF: Unit := 0x0A

  /** `text.split('\n')`. */
  function Split(t: Text): (lines: seq<Text>)
    ensures lines != []
  {
    if t == [] then [[]]
    else
      var rest := Split(t[1..]);
      if t[0] == LF then [[]] + rest else [[t[0]] + rest[0]] + rest[1..]
  }

  /** White space and line terminators of ECMAScript. */
  predicate IsTrimmed(u: Unit) {
    || 0x09 <= u <= 0x0D || u == 0x20 || u == 0xA0 || u == 0x1680 || 0x2000 <= u <= 0x200A
    || u == 0x2028 || u == 0x2029 || u == 0x202F || u == 0x205F || u == 0x3000 || u == 0xFEFF
  }

  function TrimStart(t: Text): Text {
    if t != [] && IsTrimmed(t[0]) then TrimStart(t[1..]) else t
  }

  function TrimEnd(t: Text): Text {
    if t != [] && IsTrimmed(t[|t| - 1]) then TrimEnd(t[..|t| - 1]) else t
  }

  function Trim(t: Text): Text {
    TrimEnd(TrimStart(t))
  }

  // ----- What cutting and trimming mean -----

  /** The lines put together again with a line feed between each two. */
  function Joined(lines: seq<Text>): Text
    requires lines != []
  {
    if |lines| == 1 then lines[0] else lines[0] + [0x0A] + Joined(lines[1..])
  }

  ghost predicate NoFeeds(lines: seq<Text>) {
    forall i | 0 <= i < |lines| :: 0x0A !in lines[i]
  }

  lemma JoinFront(u: Unit, lines: seq<Text>)
    requires lines != []
    ensures Joined([[u] + lines[0]] + lines[1..]) == [u] + Joined(lines)
  {
    var more := [[u] + lines[0]] + lines[1..];
    assert more[1..] == lines[1..];
    if |lines| == 1 {
      assert more == [[u] + lines[0]];
    } else {
      assert ([u] + lines[0]) + [0x0A] + Joined(lines[1..]) == [u] + (lines[0] + [0x0A] + Joined(lines[1..]));
    }
  }

  lemma JoinBlank(lines: seq<Text>)
    requires lines != []
    ensures Joined([[]] + lines) == [0x0A] + Joined(lines)
  {
    assert ([[]] + lines)[1..] == lines;
    assert [] + [0x0A] + Joined(lines) == [0x0A] + Joined(lines);
  }

  lemma {:induction false} SplitJoins(t: Text)
    ensures Joined(Split(t)) == t && NoFeeds(Split(t))
  {
    if t != [] {
      var rest := Split(t[1..]);
      SplitJoins(t[1..]);
      assert t == [t[0]] + t[1..];
      if t[0] == LF {
        JoinBlank(rest);
      } else {
        JoinFront(t[0], rest);
      }
    }
  }

  lemma {:induction false} SplitOnly(lines: seq<Text>)
    requires lines != [] && NoFeeds(lines)
    ensures Split(Joined(lines)) == lines
  {
    if |lines| == 1 {
      SplitLast(lines[0]);
    } else {
      SplitOnly(lines[1..]);
      SplitLine(lines[0], Joined(lines[1..]));
      assert lines == [lines[0]] + lines[1..];
    }
  }

  lemma {:induction false} SplitLast(line: Text)
    requires 0x0A !in line
    ensures Split(line) == [line]
  {
    if line != [] {
      SplitLast(line[1..]);
      assert [line[0]] + line[1..] == line;
    }
  }

  /** For every text, with or without a final line feed: its lines are the one list that joins to it. */
  lemma SplitExactly(t: Text, lines: seq<Text>)
    ensures lines == Split(t) <==> lines != [] && NoFeeds(lines) && Joined(lines) == t
  {
    SplitJoins(t);
    if lines != [] && NoFeeds(lines) {
      SplitOnly(lines);
    }
  }

  /** The code units that `trim` removes. */
  const WHITE: seq<Unit> := [
    9, 10, 11, 12, 13, 32, 160, 5760, 8192, 8193, 8194, 8195, 8196, 8197, 8198, 8199, 8200, 8201, 8202,
    8232, 8233, 8239, 8287, 12288, 65279]

  lemma WhiteExactly(u: Unit)
    ensures IsTrimmed(u) <==> u in WHITE
  {
    var at: seq<int> := WHITE;
    assert IsTrimmed(u) && u < 14 ==> at[u - 9] == u;
    assert IsTrimmed(u) && 8192 <= u <= 8202 ==> at[u - 8192 + 8] == u;
    assert at[5] == 32 && at[6] == 160 && at[7] == 5760 && at[19] == 8232 && at[20] == 8233;
    assert at[21] == 8239 && at[22] == 8287 && at[23] == 12288 && at[24] == 65279;
  }

  lemma {:induction false} TrimStartDrops(a: Text, rest: Text)
    requires (forall i | 0 <= i < |a| :: a[i] in WHITE) && (rest == [] || rest[0] !in WHITE)
    ensures TrimStart(a + rest) == rest
  {
    if a == [] {
      assert a + rest == rest;
      if rest != [] {
        WhiteExactly(rest[0]);
      }
    } else {
      assert (a + rest)[0] == a[0] && (a + rest)[1..] == a[1..] + rest;
      WhiteExactly(a[0]);
      TrimStartDrops(a[1..], rest);
    }
  }

  lemma {:induction false} TrimEndDrops(t: Text, b: Text)
    requires (forall i | 0 <= i < |b| :: b[i] in WHITE) && (t == [] || t[|t| - 1] !in WHITE)
    ensures TrimEnd(t + b) == t
  {
    if b == [] {
      assert t + b == t;
      if t != [] {
        WhiteExactly(t[|t| - 1]);
      }
    } else {
      var n := |b| - 1;
      assert (t + b)[|t + b| - 1] == b[n] && (t + b)[..|t + b| - 1] == t + b[..n];
      WhiteExactly(b[n]);
      TrimEndDrops(t, b[..n]);
    }
  }

  /** Trimming removes the white space at both ends and nothing else. */
  lemma TrimExactly(a: Text, t: Text, b: Text)
    requires forall i | 0 <= i < |a| :: a[i] in WHITE
    requires forall i | 0 <= i < |b| :: b[i] in WHITE
    requires t != [] ==> t[0] !in WHITE && t[|t| - 1] !in WHITE
    ensures Trim(a + t + b) == t
  {
    if t == [] {
      assert a + t + b == (a + b) + [];
      TrimStartDrops(a + b, []);
    } else {
      assert a + t + b == a + (t + b);
      TrimStartDrops(a, t + b);
      TrimEndDrops(t, b);
    }
  }

  /** The audit record on a line, if there is one; anything else is ignored. */
  function ReadLine(line: Text): seq<Value> {
    var trimmed := Trim(line);
    if trimmed == [] then []
    else
      var parsed := Parse(trimmed);
      if parsed.Ok? && IsAudit(parsed.value) then [parsed.value] else []
  }

  function ReadLines(lines: seq<Text>): seq<Value> {
    if lines == [] then [] else ReadLine(lines[0]) + ReadLines(lines[1..])
  }

  /**
   A line counts exactly when what is left of it after trimming is a JSON text whose value has the
   category AUDIT, and then for that value.
   */
  lemma ReadLineExactly(line: Text, v: Value)
    ensures ReadLine(line) == [v] <==> IsElement(Trim(line), v) && Field(v, Ascii("category")) == Str(Ascii("AUDIT"))
    ensures |ReadLine(line)| <= 1
  {
    var t := Trim(line);
    ParseExactly(t, v);
    if t == [] && IsElement(t, v) {
      NoEmptyElement(v);
    }
    assert Parse(t).Ok? ==> Parse(t) == Ok(Parse(t).value, []);
  }

  lemma NoEmptyElement(v: Value)
    ensures !IsElement([], v)
  {
    ParseExactly([], v);
    assert Parse([]).Fail?;
  }

  method ReadLog(text: Text) returns (records: seq<Value>)
    ensures records == ReadLines(Split(text))
    ensures AllAudits(records)
  {
    var lines := Split(text);
    records := [];
    assert lines[0..] == lines;
    for i := 0 to |lines|
      invariant records + ReadLines(lines[i..]) == ReadLines(lines)
      invariant AllAudits(records)
    {
      ReadMore(records, lines, i);
      var trimmed := Trim(lines[i]);
      if trimmed == [] {
        continue;
      }
      var parsed := Parse(trimmed);
      if parsed.Ok? && IsAudit(parsed.value) {
        records := records + [parsed.value];
      }
    }
  }

  ghost predicate AllAudits(records: seq<Value>) {
    forall r | r in records :: IsAudit(r) && WellFormed(r) && Clean(r)
  }

  lemma ReadMore(records: seq<Value>, lines: seq<Text>, i: nat)
    requires i < |lines|
    ensures (records + ReadLine(lines[i])) + ReadLines(lines[i + 1..]) == records + ReadLines(lines[i..])
    ensures AllAudits(records) ==> AllAudits(records + ReadLine(lines[i]))
    ensures records + [] == records
  {
    ReadLinesAt(lines, i);
    AppendAssoc(records, ReadLine(lines[i]), ReadLines(lines[i + 1..]));
    ParsedLineIsJson(lines[i]);
  }

  lemma ReadLinesAt(lines: seq<Text>, i: nat)
    requires i < |lines|
    ensures ReadLines(lines[i..]) == ReadLine(lines[i]) + ReadLines(lines[i + 1..])
  {
    assert lines[i..][0] == lines[i] && lines[i..][1..] == lines[i + 1..];
  }

  lemma ParsedLineIsJson(line: Text)
    ensures forall r | r in ReadLine(line) :: IsAudit(r) && WellFormed(r) && Clean(r)
  {
    ParsedValueIsJson(Trim(line));
  }

  /** Exit code 2: no key or no audit record; 1: tampering; 0: every chain verifies. */
  ghost function ExitCode(records: seq<Value>, hmac: Hmac, key: Text): nat {
    if key == [] || records == [] then 2 else if Accepts(records, hmac, key) then 0 else 1
  }

  /** The whole script: no key, an empty log, the verdict. */
  method VerifyAudit(text: Text, hmac: Hmac, key: Text) returns (exit: nat)
    ensures exit == ExitCode(ReadLines(Split(text)), hmac, key)
    ensures exit == 2 <==> key == [] || ReadLines(Split(text)) == []
    ensures exit == 0 <==> key != [] && ReadLines(Split(text)) != [] && Accepts(ReadLines(Split(text)), hmac, key)
    ensures exit <= 2
  {
    if key == [] {
      return 2;
    }
    var records := ReadLog(text);
    if |records| == 0 {
      return 2;
    }
    var ok, chains, checked, errors := VerifyChain(records, hmac, key);
    exit := if ok then 0 else 1;
  }

  // ----- A written log is read back -----

  /** The log text of printed lines. */
  function LogText(lines: seq<Text>): Text {
    if lines == [] then [] else lines[0] + [LF] + LogText(lines[1..])
  }

  lemma {:induction false} SplitLine(line: Text, rest: Text)
    requires 0x0A !in line
    ensures Split(line + [LF] + rest) == [line] + Split(rest)
  {
    var t := line + [LF] + rest;
    if line == [] {
      assert t == [LF] + rest && t[1..] == rest;
    } else {
      SplitLine(line[1..], rest);
      assert t[1..] == line[1..] + [LF] + rest;
      assert [line[0]] + line[1..] == line;
    }
  }

  lemma {:induction false} SplitLog(lines: seq<Text>)
    requires NoFeeds(lines)
    ensures Split(LogText(lines)) == lines + [[]]
  {
    if lines != [] {
      SplitLine(lines[0], LogText(lines[1..]));
      SplitLog(lines[1..]);
      assert lines == [lines[0]] + lines[1..];
    }
  }

  function PrintedLines(recs: seq<Value>): (lines: seq<Text>)
    requires forall i | 0 <= i < |recs| :: recs[i].Obj?
    ensures |lines| == |recs| && forall i | 0 <= i < |lines| :: lines[i] == Stringify(Logged(recs[i]))
  {
    seq(|recs|, i requires 0 <= i < |recs| => Stringify(Logged(recs[i])))
  }

  lemma BracedTrim(t: Text)
    requires |t| > 0 && t[0] == LBRACE && t[|t| - 1] == RBRACE
    ensures Trim(t) == t
  {
  }

  lemma ReadPrinted(r: Value)
    requires r.Obj? && WellFormed(r) && IsAudit(r)
    ensures ReadLine(Stringify(Logged(r))) == [FromLine(r)]
    ensures OneLine(Stringify(Logged(r)))
  {
    Names();
    FromLineFacts(r);
    StringifyIsPlain(Logged(r));
    PlainOneLine(Dropped(Logged(r)));
    BracedTrim(Stringify(Logged(r)));
  }

  lemma {:induction false} ReadLinesAppend(a: seq<Text>, b: seq<Text>)
    ensures ReadLines(a + b) == ReadLines(a) + ReadLines(b)
  {
    if a == [] {
      assert a + b == b;
    } else {
      var first := ReadLine(a[0]);
      ReadLinesAppend(a[1..], b);
      assert (a + b)[1..] == a[1..] + b && (a + b)[0] == a[0];
      AppendAssoc(first, ReadLines(a[1..]), ReadLines(b));
    }
  }

  lemma PrintedFirst(recs: seq<Value>)
    requires recs != [] && forall i | 0 <= i < |recs| :: recs[i].Obj?
    ensures PrintedLines(recs) != [] && PrintedLines(recs)[0] == Stringify(Logged(recs[0]))
    ensures PrintedLines(recs)[1..] == PrintedLines(recs[1..])
  {
  }

  lemma FromLinesFirst(recs: seq<Value>)
    requires recs != [] && forall i | 0 <= i < |recs| :: recs[i].Obj?
    ensures FromLines(recs) == [FromLine(recs[0])] + FromLines(recs[1..])
  {
  }

  lemma {:induction false} ReadPrintedLines(recs: seq<Value>)
    requires forall i | 0 <= i < |recs| :: recs[i].Obj? && WellFormed(recs[i]) && IsAudit(recs[i])
    ensures ReadLines(PrintedLines(recs)) == FromLines(recs)
  {
    if recs != [] {
      ReadPrinted(recs[0]);
      ReadPrintedLines(recs[1..]);
      PrintedFirst(recs);
      FromLinesFirst(recs);
    }
  }

  /** The script reads from a log text exactly the records that were printed to it, in order. */
  lemma LogRoundTrip(recs: seq<Value>)
    requires forall i | 0 <= i < |recs| :: recs[i].Obj? && WellFormed(recs[i]) && IsAudit(recs[i])
    ensures ReadLines(Split(LogText(PrintedLines(recs)))) == FromLines(recs)
  {
    var lines := PrintedLines(recs);
    forall i | 0 <= i < |lines|
      ensures 0x0A !in lines[i]
    {
      ReadPrinted(recs[i]);
    }
    ReadPrintedLines(recs);
    ReadWritten(lines);
  }

  /** Writing lines and splitting the text again loses none and joins none. */
  lemma ReadWritten(lines: seq<Text>)
    requires NoFeeds(lines)
    ensures ReadLines(Split(LogText(lines))) == ReadLines(lines)
  {
    SplitLog(lines);
    ReadLinesAppend(lines, [[]]);
    assert ReadLines([[]]) == ReadLine([]) + ReadLines([]);
  }
}
