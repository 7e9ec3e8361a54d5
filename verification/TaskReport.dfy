/**
 The summary report over a user's tasks and the dashboard's own counts over its task list.
 */
module TaskReport {
  import opened Options
  import opened TaskStore

  datatype Report = Report(
    allUsers: bool, total: nat, pending: nat, inProgress: nat, completed: nat, overdue: nat, completionRate: nat)

  datatype Stats = Stats(total: nat, pending: nat, inProgress: nat, completed: nat)

  function WithStatus(rows: seq<Task>, st: Status): (kept: seq<Task>)
    ensures |kept| <= |rows|
  {
    if rows == [] then []
    else (if rows[0].status == st then [rows[0]] else []) + WithStatus(rows[1..], st)
  }

  predicate Overdue(t: Task, now: int) {
    t.due.Some? && t.status != COMPLETED && t.due.value < now
  }

  function Late(rows: seq<Task>, now: int): seq<Task> {
    if rows == [] then [] else (if Overdue(rows[0], now) then [rows[0]] else []) + Late(rows[1..], now)
  }

  /** The dashboard's derived counts. */
  function StatsOf(list: seq<Task>): Stats {
    Stats(|list|, |WithStatus(list, PENDING)|, |WithStatus(list, IN_PROGRESS)|, |WithStatus(list, COMPLETED)|)
  }

  /** `Math.round(part / whole * 100)`, without the rounding of the division. */
  function Percentage(part: nat, whole: nat): (r: nat)
    requires part <= whole
    ensures whole == 0 ==> r == 0
    ensures whole > 0 ==> whole * (2 * r - 1) <= 200 * part < whole * (2 * r + 1)
  {
    if whole == 0 then 0 else PercentageFacts(part, whole); (200 * part + whole) / (2 * whole)
  }

  lemma PercentageFacts(part: nat, whole: nat)
    requires 0 < whole
    ensures var r := (200 * part + whole) / (2 * whole); whole * (2 * r - 1) <= 200 * part < whole * (2 * r + 1)
  {
    var n, d := 200 * part + whole, 2 * whole;
    assert n == d * (n / d) + n % d;
  }

  /**
   `Math.round` of a quotient computed with a small error: it is the percentage, except that a quotient
   exactly half-way between two percentages may come out as the lower one.
   */
  lemma RoundedQuotient(part: nat, whole: nat, q: real)
    requires part <= whole && 0 < whole
    requires -1.0 < 2.0 * (q * whole as real - 100.0 * part as real) < 1.0
    ensures var r, n := Percentage(part, whole), (q + 0.5).Floor;
            n == r || (n == r - 1 && 200 * part + whole == 2 * whole * r)
  {
    var n, r := (q + 0.5).Floor, Percentage(part, whole);
    RoundedBounds(part, whole, q, n);
    PercentageFacts(part, whole);
    OneApart(200 * part + whole, 2 * whole, n, r);
  }

  /** In integers: `2 * whole * n <= 200 * part + whole <= 2 * whole * (n + 1)`. */
  lemma RoundedBounds(part: nat, whole: nat, q: real, n: int)
    requires 0 < whole && n == (q + 0.5).Floor
    requires -1.0 < 2.0 * (q * whole as real - 100.0 * part as real) < 1.0
    ensures 2 * whole * n <= 200 * part + whole <= 2 * whole * (n + 1)
  {
    var w, p, m := whole as real, part as real, n as real;
    assert m <= q + 0.5 < m + 1.0;
    Scaled(m, q + 0.5, w);
    Scaled(q + 0.5, m + 1.0, w);
    Distributes(q, 0.5, w);
    InReals(part, whole, n);
    InReals(part, whole, n + 1);
    assert (2 * whole * n) as real < (200 * part + whole) as real + 1.0;
    assert (200 * part + whole) as real < (2 * whole * (n + 1)) as real + 1.0;
  }

  lemma Distributes(a: real, b: real, w: real)
    ensures (a + b) * w == a * w + b * w
  {
  }

  lemma Scaled(a: real, b: real, w: real)
    requires 0.0 < w
    ensures a <= b ==> a * w <= b * w
    ensures a < b ==> a * w < b * w
  {
  }

  lemma InReals(part: nat, whole: nat, n: int)
    ensures (2 * whole * n) as real == 2.0 * (n as real * whole as real)
    ensures (200 * part + whole) as real == 200.0 * part as real + whole as real
  {
    assert (whole * n) as real == whole as real * n as real;
  }

  lemma OneApart(x: int, d: int, n: int, r: int)
    requires 0 < d && d * n <= x <= d * (n + 1) && d * r <= x < d * (r + 1)
    ensures n == r || (n == r - 1 && x == d * r)
  {
    assert n >= r + 1 ==> d * n >= d * (r + 1);
    assert n + 2 <= r ==> d * (n + 2) <= d * r && d * (n + 1) < d * (n + 2);
  }

  lemma {:induction false} CountMore(rows: seq<Task>, t: Task, st: Status, now: int)
    ensures |WithStatus(rows + [t], st)| == |WithStatus(rows, st)| + if t.status == st then 1 else 0
    ensures |Late(rows + [t], now)| == |Late(rows, now)| + if Overdue(t, now) then 1 else 0
  {
    if rows == [] {
      assert rows + [t] == [t];
    } else {
      assert (rows + [t])[1..] == rows[1..] + [t];
      CountMore(rows[1..], t, st, now);
    }
  }

  /** The rows that count as overdue at `now`: not completed, with a due date that has passed. */
  ghost function OverdueAt(rows: seq<Task>, now: int): (at: set<int>)
    ensures forall i :: i in at <==>
              0 <= i < |rows| && rows[i].due.Some? && rows[i].due.value < now && rows[i].status != COMPLETED
  {
    set i | 0 <= i < |rows| && rows[i].due.Some? && rows[i].due.value < now && rows[i].status != COMPLETED
  }

  ghost function StatusAt(rows: seq<Task>, st: Status): (at: set<int>)
    ensures forall i :: i in at <==> 0 <= i < |rows| && rows[i].status == st
  {
    set i | 0 <= i < |rows| && rows[i].status == st
  }

  lemma StatusAtMore(rows: seq<Task>, t: Task, st: Status)
    ensures |StatusAt(rows + [t], st)| == |StatusAt(rows, st)| + if t.status == st then 1 else 0
  {
    var all, was := StatusAt(rows + [t], st), StatusAt(rows, st);
    assert all - {|rows|} == was;
    assert |rows| in all <==> t.status == st;
    assert t.status != st ==> all == was;
  }

  lemma OverdueAtMore(rows: seq<Task>, t: Task, now: int)
    ensures |OverdueAt(rows + [t], now)| == |OverdueAt(rows, now)| + if Overdue(t, now) then 1 else 0
  {
    var all, was := OverdueAt(rows + [t], now), OverdueAt(rows, now);
    assert all - {|rows|} == was;
    assert |rows| in all <==> Overdue(t, now);
    assert !Overdue(t, now) ==> all == was;
  }

  /** The two counts are the numbers of such rows. */
  lemma {:induction false} CountsArePositions(rows: seq<Task>, st: Status, now: int)
    ensures |WithStatus(rows, st)| == |StatusAt(rows, st)| && |Late(rows, now)| == |OverdueAt(rows, now)|
  {
    if rows == [] {
      assert StatusAt(rows, st) == {} && OverdueAt(rows, now) == {};
    } else {
      var most, last := rows[..|rows| - 1], rows[|rows| - 1];
      assert rows == most + [last];
      CountsArePositions(most, st, now);
      CountMore(most, last, st, now);
      StatusAtMore(most, last, st);
      OverdueAtMore(most, last, now);
    }
  }

  /** A row taken out of the middle takes its own counts with it. */
  lemma CountWithout(rows: seq<Task>, k: nat, st: Status, now: int)
    requires k < |rows|
    ensures |WithStatus(rows, st)|
         == |WithStatus(rows[..k] + rows[k + 1..], st)| + if rows[k].status == st then 1 else 0
    ensures |Late(rows, now)| == |Late(rows[..k] + rows[k + 1..], now)| + if Overdue(rows[k], now) then 1 else 0
    decreases k
  {
    if k == 0 {
      assert rows[..k] + rows[k + 1..] == rows[1..];
    } else {
      var rest := rows[..k] + rows[k + 1..];
      assert rest[1..] == rows[1..][..k - 1] + rows[1..][k..];
      CountWithout(rows[1..], k - 1, st, now);
    }
  }

  /** Every task has exactly one of the three statuses. */
  lemma {:induction false} StatusesSum(rows: seq<Task>)
    ensures |WithStatus(rows, PENDING)| + |WithStatus(rows, IN_PROGRESS)| + |WithStatus(rows, COMPLETED)| == |rows|
  {
    if rows != [] {
      StatusesSum(rows[1..]);
    }
  }

  lemma SameElementsLess<T>(a: seq<T>, b: seq<T>, k: nat)
    requires a != [] && k < |b| && a[0] == b[k] && multiset(a) == multiset(b)
    ensures multiset(a[1..]) == multiset(b[..k] + b[k + 1..])
  {
    assert a == [a[0]] + a[1..];
    assert b == b[..k] + [b[k]] + b[k + 1..];
    assert multiset(a[1..]) == multiset(a) - multiset{a[0]};
    assert multiset(b[..k] + b[k + 1..]) == multiset(b) - multiset{b[k]};
  }

  /** The counts do not depend on the order of the rows. */
  lemma {:induction false} CountsOrderless(a: seq<Task>, b: seq<Task>, st: Status, now: int)
    requires multiset(a) == multiset(b)
    ensures |a| == |b| && |WithStatus(a, st)| == |WithStatus(b, st)| && |Late(a, now)| == |Late(b, now)|
    decreases |a|
  {
    assert |multiset(a)| == |a| && |multiset(b)| == |b|;
    if a != [] {
      assert a[0] in multiset(b);
      var k :| 0 <= k < |b| && b[k] == a[0];
      SameElementsLess(a, b, k);
      CountsOrderless(a[1..], b[..k] + b[k + 1..], st, now);
      CountWithout(b, k, st, now);
    }
  }

  /** The counters agree with the rows seen so far. */
  ghost predicate Tallied(byStatus: map<Status, nat>, overdue: nat, rows: seq<Task>, now: int) {
    && byStatus.Keys == {PENDING, IN_PROGRESS, COMPLETED}
    && (forall st | st in byStatus :: byStatus[st] == |WithStatus(rows, st)|)
    && overdue == |Late(rows, now)|
  }

  lemma TalliedMore(byStatus: map<Status, nat>, overdue: nat, rows: seq<Task>, t: Task, now: int)
    requires Tallied(byStatus, overdue, rows, now)
    ensures t.status in byStatus
    ensures Tallied(byStatus[t.status := byStatus[t.status] + 1],
                    if Overdue(t, now) then overdue + 1 else overdue, rows + [t], now)
  {
    CountMore(rows, t, PENDING, now);
    CountMore(rows, t, IN_PROGRESS, now);
    CountMore(rows, t, COMPLETED, now);
    assert t.status == PENDING || t.status == IN_PROGRESS || t.status == COMPLETED;
  }

  /** The summary that belongs to a list of rows, by counting what it contains. */
  function ReportOf(u: User, rows: seq<Task>, now: int): (r: Report)
    ensures StatsOf(rows) == Stats(r.total, r.pending, r.inProgress, r.completed)
  {
    Report(u.role == ADMIN, |rows|, |WithStatus(rows, PENDING)|, |WithStatus(rows, IN_PROGRESS)|,
           |WithStatus(rows, COMPLETED)|, |Late(rows, now)|, Percentage(|WithStatus(rows, COMPLETED)|, |rows|))
  }

  /** The summary of the rows that a query returned; a failed query fails the job. */
  method BuildReport(u: User, found: Option<seq<Task>>, now: int) returns (r: Option<Report>)
    ensures r.Some? <==> found.Some?
    ensures r.Some? ==>
              && r.value == ReportOf(u, found.value, now)
              && StatsOf(found.value) == Stats(r.value.total, r.value.pending, r.value.inProgress, r.value.completed)
              && r.value.overdue == |Late(found.value, now)|
              && r.value.allUsers == (u.role == ADMIN)
              && r.value.completionRate == Percentage(r.value.completed, r.value.total)
    ensures r.Some? ==>
              && r.value.total == |found.value|
              && r.value.pending == |StatusAt(found.value, PENDING)|
              && r.value.inProgress == |StatusAt(found.value, IN_PROGRESS)|
              && r.value.completed == |StatusAt(found.value, COMPLETED)| <= r.value.total
              && r.value.overdue == |OverdueAt(found.value, now)|
  {
    if found.None? {
      return None;
    }
    var rows := found.value;
    var byStatus: map<Status, nat> := map[PENDING := 0, IN_PROGRESS := 0, COMPLETED := 0];
    var overdue: nat := 0;
    for i := 0 to |rows|
      invariant Tallied(byStatus, overdue, rows[..i], now)
    {
      var task := rows[i];
      assert rows[..i + 1] == rows[..i] + [task];
      TalliedMore(byStatus, overdue, rows[..i], task, now);
      if task.status in byStatus {
        byStatus := byStatus[task.status := byStatus[task.status] + 1];
      }
      if Overdue(task, now) {
        overdue := overdue + 1;
      }
    }
    assert rows[..|rows|] == rows;
    CountsArePositions(rows, PENDING, now);
    CountsArePositions(rows, IN_PROGRESS, now);
    CountsArePositions(rows, COMPLETED, now);
    var rate := Percentage(byStatus[COMPLETED], |rows|);
    r := Some(Report(u.role == ADMIN, |rows|, byStatus[PENDING], byStatus[IN_PROGRESS], byStatus[COMPLETED],
                     overdue, rate));
  }

  /** Where a report's totals come from: the listing's order does not matter, only which tasks are visible. */
  lemma ReportCountsVisible(rows: seq<Task>, u: User, now: int)
    ensures StatsOf(FindAll(rows, u)) == StatsOf(VisibleTasks(rows, u))
    ensures |Late(FindAll(rows, u), now)| == |Late(VisibleTasks(rows, u), now)|
  {
    NewestFirstSorts(VisibleTasks(rows, u));
    CountsOrderless(FindAll(rows, u), VisibleTasks(rows, u), PENDING, now);
    CountsOrderless(FindAll(rows, u), VisibleTasks(rows, u), IN_PROGRESS, now);
    CountsOrderless(FindAll(rows, u), VisibleTasks(rows, u), COMPLETED, now);
  }
}
