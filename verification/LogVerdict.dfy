/**
 From the calls of `audit` to the exit code of the script: what `verify-audit` says about a log text in
 which the lines of any processes are interleaved with each other and with lines of other kinds.
 */
module LogVerdict {
  import opened JsText
  import opened JsValues
  import opened LogLine
  import opened AuditRecords
  import opened ChainVerifier
  import opened HonestChain
  import opened LogReader

  /** The lines that hold an audit record. */
  function AuditLines(lines: seq<Text>): seq<Text> {
    if lines == [] then []
    else (if ReadLine(lines[0]) == [] then [] else [lines[0]]) + AuditLines(lines[1..])
  }

  /** All lines that the processes write, process by process. */
  function AllPrinted(ps: seq<Process>, hmac: Hmac, key: Text): seq<Text> {
    if ps == [] then [] else PrintedLines(Records(ps[0], hmac, key)) + AllPrinted(ps[1..], hmac, key)
  }

  /** The audit lines of the log are those the processes wrote, in any order; no line contains a line feed. */
  ghost predicate Interleaves(lines: seq<Text>, ps: seq<Process>, hmac: Hmac, key: Text) {
    && NoFeeds(lines)
    && multiset(AuditLines(lines)) == multiset(AllPrinted(ps, hmac, key))
  }

  lemma {:induction false} OtherLinesIgnored(lines: seq<Text>)
    ensures ReadLines(lines) == ReadLines(AuditLines(lines))
  {
    if lines != [] {
      var rest := AuditLines(lines[1..]);
      OtherLinesIgnored(lines[1..]);
      if ReadLine(lines[0]) == [] {
        assert AuditLines(lines) == rest;
        assert [] + ReadLines(lines[1..]) == ReadLines(lines[1..]);
      } else {
        assert AuditLines(lines) == [lines[0]] + rest && ([lines[0]] + rest)[1..] == rest;
      }
    }
  }

  lemma ReadLinesFirst(line: Text, tail: seq<Text>)
    ensures ReadLines([line] + tail) == ReadLine(line) + ReadLines(tail)
  {
    assert ([line] + tail)[0] == line && ([line] + tail)[1..] == tail;
  }

  lemma ReadLinesParts(lines: seq<Text>, lead: seq<Text>, line: Text, tail: seq<Text>)
    requires lines == lead + ([line] + tail)
    ensures ReadLines(lines) == ReadLines(lead) + (ReadLine(line) + ReadLines(tail))
  {
    ReadLinesAppend(lead, [line] + tail);
    ReadLinesFirst(line, tail);
  }

  lemma ReadLinesAround(lines: seq<Text>, k: nat)
    requires k < |lines|
    ensures ReadLines(lines) == ReadLines(lines[..k]) + (ReadLine(lines[k]) + ReadLines(lines[k + 1..]))
  {
    CutAt(lines, k);
    ReadLinesParts(lines, lines[..k], lines[k], lines[k + 1..]);
  }

  lemma CutAt<T>(s: seq<T>, k: nat)
    requires k < |s|
    ensures s == s[..k] + ([s[k]] + s[k + 1..])
  {
  }

  lemma ReadLinesWithout(lines: seq<Text>, k: nat)
    requires k < |lines|
    ensures multiset(ReadLines(lines))
         == multiset(ReadLine(lines[k])) + multiset(ReadLines(lines[..k] + lines[k + 1..]))
  {
    var a, m, b := ReadLines(lines[..k]), ReadLine(lines[k]), ReadLines(lines[k + 1..]);
    ReadLinesAround(lines, k);
    ReadLinesAppend(lines[..k], lines[k + 1..]);
    MiddleApart(a, m, b);
  }

  lemma MiddleApart<T>(a: seq<T>, m: seq<T>, b: seq<T>)
    ensures multiset(a + (m + b)) == multiset(m) + multiset(a + b)
  {
  }

  lemma SameLinesLess(a: seq<Text>, b: seq<Text>, k: nat)
    requires a != [] && k < |b| && a[0] == b[k] && multiset(a) == multiset(b)
    ensures multiset(a[1..]) == multiset(b[..k] + b[k + 1..])
  {
    assert a == [a[0]] + a[1..];
    assert b == b[..k] + [b[k]] + b[k + 1..];
    assert multiset(a[1..]) == multiset(a) - multiset{a[0]};
    assert multiset(b[..k] + b[k + 1..]) == multiset(b) - multiset{b[k]};
  }

  /** The records read depend on which lines there are, not on their order. */
  lemma {:induction false} ReadOrderless(a: seq<Text>, b: seq<Text>)
    requires multiset(a) == multiset(b)
    ensures multiset(ReadLines(a)) == multiset(ReadLines(b))
    decreases |a|
  {
    assert |multiset(a)| == |a| && |multiset(b)| == |b|;
    if a != [] {
      assert a[0] in multiset(b);
      var k :| 0 <= k < |b| && b[k] == a[0];
      SameLinesLess(a, b, k);
      ReadOrderless(a[1..], b[..k] + b[k + 1..]);
      ReadLinesWithout(b, k);
      assert multiset(ReadLines(a)) == multiset(ReadLine(a[0])) + multiset(ReadLines(a[1..]));
    }
  }

  lemma RecordsPrintable(p: Process, hmac: Hmac, key: Text)
    requires forall e | e in p.events :: EventOk(e)
    ensures forall r | r in Records(p, hmac, key) :: r.Obj? && WellFormed(r) && IsAudit(r)
  {
    var recs := Records(p, hmac, key);
    forall i | 0 <= i < |recs|
      ensures recs[i].Obj? && WellFormed(recs[i]) && IsAudit(recs[i])
    {
      HonestRecordAt(p.chainId, p.events, i, hmac, key);
    }
  }

  lemma {:induction false} ReadAllPrinted(ps: seq<Process>, hmac: Hmac, key: Text)
    requires ProcessesOk(ps)
    ensures ReadLines(AllPrinted(ps, hmac, key)) == AllLines(ps, hmac, key)
  {
    if ps != [] {
      var first := Records(ps[0], hmac, key);
      assert ps[0] in ps && ProcessesOk(ps[1..]);
      RecordsPrintable(ps[0], hmac, key);
      ReadPrintedLines(first);
      ReadAllPrinted(ps[1..], hmac, key);
      ReadLinesAppend(PrintedLines(first), AllPrinted(ps[1..], hmac, key));
    }
  }

  lemma {:induction false} LineCount(ps: seq<Process>, hmac: Hmac, key: Text)
    ensures |AllLines(ps, hmac, key)| == CallCount(ps)
  {
    if ps != [] {
      LineCount(ps[1..], hmac, key);
    }
  }

  lemma RecordsRead(ps: seq<Process>, lines: seq<Text>, hmac: Hmac, key: Text)
    requires ProcessesOk(ps) && Interleaves(lines, ps, hmac, key)
    ensures multiset(ReadLines(Split(LogText(lines)))) == multiset(AllLines(ps, hmac, key))
  {
    ReadWritten(lines);
    OtherLinesIgnored(lines);
    ReadOrderless(AuditLines(lines), AllPrinted(ps, hmac, key));
    ReadAllPrinted(ps, hmac, key);
  }

  lemma {:induction false} SplitEnded(t: Text)
    ensures Split(t + [0x0A]) == Split(t) + [[]]
  {
    if t == [] {
      assert t + [0x0A] == [0x0A] && [0x0A][1..] == [];
    } else {
      SplitEnded(t[1..]);
      assert (t + [0x0A])[0] == t[0] && (t + [0x0A])[1..] == t[1..] + [0x0A];
    }
  }

  /** A line feed at the end of the text adds no record. */
  lemma FinalFeedIgnored(t: Text)
    ensures ReadLines(Split(t + [0x0A])) == ReadLines(Split(t))
  {
    SplitEnded(t);
    ReadLinesAppend(Split(t), [[]]);
    assert ReadLines([[]]) == ReadLine([]) + ReadLines([]);
  }

  /**
   The script's verdict on the text of a log, its last line ended or not: 2 without a key or without a
   call, 0 if and only if no record has an undefined member, else 1; the interleaving and the lines of
   other kinds do not matter.
   */
  lemma TextVerdict(ps: seq<Process>, lines: seq<Text>, text: Text, hmac: Hmac, key: Text)
    requires ProcessesOk(ps) && Interleaves(lines, ps, hmac, key) && AllCollisionFree(ps, hmac, key)
    requires text == LogText(lines) || text + [0x0A] == LogText(lines)
    ensures ExitCode(ReadLines(Split(text)), hmac, key)
         == if key == [] || CallCount(ps) == 0 then 2 else if AllClean(ps, hmac, key) then 0 else 1
  {
    var records := ReadLines(Split(LogText(lines)));
    RecordsRead(ps, lines, hmac, key);
    LineCount(ps, hmac, key);
    assert |multiset(records)| == |records| && |multiset(AllLines(ps, hmac, key))| == |AllLines(ps, hmac, key)|;
    HonestCompleteness(ps, records, hmac, key);
    FinalFeedIgnored(text);
  }
}
