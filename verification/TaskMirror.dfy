/**
 The dashboard's task list, which is changed locally after each successful call and never refetched,
 against the listing the server would give.
 */
module TaskMirror {
  import opened Options
  import opened TaskStore
  import opened TaskIsolation
  import opened TaskReport

  /** `prev.map(t => t.id === id ? data : t)`. */
  function Replaced(list: seq<Task>, id: Id, data: Task): seq<Task> {
    if list == [] then [] else [if list[0].id == id then data else list[0]] + Replaced(list[1..], id, data)
  }

  /** What the list becomes when the call `q` is answered with `r`; a failed call leaves it alone. */
  function Applied(list: seq<Task>, q: Request, r: Response): seq<Task> {
    match r
    case Tasks(rows) => if q.List? then rows else list
    case Created(task) => if q.Create? then [task] + list else list
    case One(task) => if q.Update? && q.param.Uuid? then Replaced(list, q.param.id, task) else list
    case Deleted => if q.Delete? && q.param.Uuid? then RemoveRows(list, q.param.id) else list
    case _ => list
  }

  /** The list after the calls of `cs` that are `me`'s own; the others are not seen by this client. */
  function Mirrored(s: Store, list: seq<Task>, cs: seq<Call>, me: User): seq<Task>
    decreases |cs|
  {
    if cs == [] then list
    else
      var r := Handle(s, cs[0]);
      Mirrored(r.store, if cs[0].user == me then Applied(list, cs[0].q, r.response) else list, cs[1..], me)
  }

  // ----- Creation times -----

  /** Rows were created one after the other, all before `limit`. */
  ghost predicate Dated(rows: seq<Task>, limit: int) {
    && (forall i, j | 0 <= i < j < |rows| :: rows[i].createdAt < rows[j].createdAt)
    && forall i | 0 <= i < |rows| :: rows[i].createdAt < limit
  }

  /** The database clock moves on between calls, starting no earlier than `floor`. */
  predicate Timed(cs: seq<Call>, floor: int) {
    cs == [] || (floor <= cs[0].db.now && Timed(cs[1..], cs[0].db.now + 1))
  }

  lemma DatedFront(t: Task, rows: seq<Task>, limit: int)
    requires Dated(rows, limit) && t.createdAt < limit && forall x | x in rows :: t.createdAt < x.createdAt
    ensures Dated([t] + rows, limit)
  {
    var all := [t] + rows;
    forall i, j | 0 <= i < j < |all|
      ensures all[i].createdAt < all[j].createdAt
    {
      assert all[j] == rows[j - 1];
      assert i > 0 ==> all[i] == rows[i - 1];
    }
  }

  lemma {:induction false} VisibleDated(rows: seq<Task>, u: User, limit: int)
    requires Dated(rows, limit)
    ensures Dated(VisibleTasks(rows, u), limit)
  {
    if rows != [] {
      VisibleDated(rows[1..], u, limit);
      VisibleSubset(rows[1..], u);
      DatedFront(rows[0], VisibleTasks(rows[1..], u), limit);
      assert [] + VisibleTasks(rows[1..], u) == VisibleTasks(rows[1..], u);
    }
  }

  lemma {:induction false} RemoveDated(rows: seq<Task>, id: Id, limit: int)
    requires Dated(rows, limit)
    ensures Dated(RemoveRows(rows, id), limit)
  {
    if rows != [] {
      RemoveDated(rows[1..], id, limit);
      RemoveKeeps(rows[1..], id);
      DatedFront(rows[0], RemoveRows(rows[1..], id), limit);
      assert [] + RemoveRows(rows[1..], id) == RemoveRows(rows[1..], id);
    }
  }

  lemma HandleDated(s: Store, c: Call)
    requires Dated(s.tasks, c.db.now)
    ensures Dated(Handle(s, c).store.tasks, c.db.now + 1)
  {
    ExecuteDated(s, c.user, Decide(s, c.user, c.q, c.db.readOk), c.db);
  }

  lemma ExecuteDated(s: Store, u: User, plan: Plan, db: Db)
    requires Dated(s.tasks, db.now)
    ensures Dated(Execute(s, u, plan, db).store.tasks, db.now + 1)
  {
    if plan.Change? {
      UpdateFacts(s.tasks, plan.id, plan.p, db.now);
    } else if plan.Destroy? {
      RemoveDated(s.tasks, plan.id, db.now);
    }
  }

  lemma DatedLater(rows: seq<Task>, a: int, b: int)
    requires Dated(rows, a) && a <= b
    ensures Dated(rows, b)
  {
  }

  // ----- The listing under each statement -----

  /** A row newer than all others is listed first. */
  lemma NewestIsFirst(rows: seq<Task>, t: Task)
    requires Dated(rows, t.createdAt)
    ensures NewestFirst(rows + [t]) == [t] + NewestFirst(rows)
  {
    NewestFirstSorts(rows);
    assert (rows + [t])[..|rows + [t]| - 1] == rows;
    var listed := NewestFirst(rows);
    if listed != [] {
      assert listed[0] in multiset(listed);
      assert listed[0] in rows;
    }
  }

  lemma {:induction false} UpdateAppend(rows: seq<Task>, t: Task, id: Id, p: Patch, now: int)
    ensures UpdateRows(rows + [t], id, p, now)
         == UpdateRows(rows, id, p, now) + [if t.id == id then Patched(t, p, now) else t]
  {
    if rows == [] {
      assert rows + [t] == [t];
    } else {
      assert (rows + [t])[1..] == rows[1..] + [t];
      UpdateAppend(rows[1..], t, id, p, now);
    }
  }

  lemma {:induction false} RemoveAppend(rows: seq<Task>, t: Task, id: Id)
    ensures RemoveRows(rows + [t], id) == RemoveRows(rows, id) + if t.id == id then [] else [t]
  {
    if rows == [] {
      assert rows + [t] == [t];
    } else {
      var last := if t.id == id then [] else [t];
      var first := if rows[0].id == id then [] else [rows[0]];
      assert (rows + [t])[1..] == rows[1..] + [t] && (rows + [t])[0] == rows[0];
      RemoveAppend(rows[1..], t, id);
      assert first + (RemoveRows(rows[1..], id) + last) == (first + RemoveRows(rows[1..], id)) + last;
    }
  }

  lemma UpdateDated(rows: seq<Task>, id: Id, p: Patch, now: int, limit: int)
    requires Dated(rows, limit)
    ensures Dated(UpdateRows(rows, id, p, now), limit)
  {
    UpdateFacts(rows, id, p, now);
  }

  lemma ReplacedFirst(t: Task, list: seq<Task>, id: Id, data: Task)
    ensures Replaced([t] + list, id, data) == [if t.id == id then data else t] + Replaced(list, id, data)
  {
    assert ([t] + list)[1..] == list;
  }

  lemma {:induction false} ListUpdated(rows: seq<Task>, id: Id, p: Patch, now: int, data: Task, limit: int)
    requires Dated(rows, limit)
    requires forall i | 0 <= i < |rows| && rows[i].id == id :: Patched(rows[i], p, now) == data
    ensures NewestFirst(UpdateRows(rows, id, p, now)) == Replaced(NewestFirst(rows), id, data)
  {
    if rows != [] {
      var most, t := rows[..|rows| - 1], rows[|rows| - 1];
      assert rows == most + [t];
      var t' := if t.id == id then Patched(t, p, now) else t;
      ListUpdated(most, id, p, now, data, t.createdAt);
      UpdateAppend(most, t, id, p, now);
      UpdateDated(most, id, p, now, t.createdAt);
      NewestIsFirst(most, t);
      NewestIsFirst(UpdateRows(most, id, p, now), t');
      ReplacedFirst(t, NewestFirst(most), id, data);
    }
  }

  lemma {:induction false} ListRemoved(rows: seq<Task>, id: Id, limit: int)
    requires Dated(rows, limit)
    ensures NewestFirst(RemoveRows(rows, id)) == RemoveRows(NewestFirst(rows), id)
  {
    if rows != [] {
      var most, t := rows[..|rows| - 1], rows[|rows| - 1];
      assert rows == most + [t];
      ListRemoved(most, id, t.createdAt);
      RemoveAppend(most, t, id);
      RemoveDated(most, id, t.createdAt);
      NewestIsFirst(most, t);
      assert ([t] + NewestFirst(most))[1..] == NewestFirst(most);
      if t.id != id {
        NewestIsFirst(RemoveRows(most, id), t);
      } else {
        assert RemoveRows(most, id) + [] == RemoveRows(most, id);
      }
    }
  }

  // ----- One call -----

  lemma VisiblePatch(s: Store, u: User, id: Id, p: Patch, now: int)
    requires Keyed(s.tasks) && Has(s.tasks, id) && CanAccess(u, FindById(s.tasks, id).value)
    ensures var rows := VisibleTasks(s.tasks, u);
            forall i | 0 <= i < |rows| && rows[i].id == id ::
              Patched(rows[i], p, now) == Patched(FindById(s.tasks, id).value, p, now)
  {
    var rows := VisibleTasks(s.tasks, u);
    VisibleSubset(s.tasks, u);
    forall i | 0 <= i < |rows| && rows[i].id == id
      ensures rows[i] == FindById(s.tasks, id).value
    {
      assert rows[i] in s.tasks;
      var k :| 0 <= k < |s.tasks| && s.tasks[k] == rows[i];
      FindRow(s.tasks, k);
    }
  }

  lemma OwnInsert(s: Store, c: Call, fields: NewTask)
    requires Keyed(s.tasks) && FreshId(s, c) && Dated(VisibleTasks(s.tasks, c.user), c.db.now)
    requires c.q == Create(Accepted(fields))
    requires VisibleTasks(Handle(s, c).store.tasks, c.user)
          == SeenTasks(VisibleTasks(s.tasks, c.user), c.user, Insert(fields), c.db)
    ensures Applied(FindAll(s.tasks, c.user), c.q, Handle(s, c).response) == FindAll(Handle(s, c).store.tasks, c.user)
  {
    InsertAnswer(s, c, fields);
    ListAfterInsert(VisibleTasks(s.tasks, c.user), c, Handle(s, c).response, fields);
  }

  lemma InsertAnswer(s: Store, c: Call, fields: NewTask)
    requires FreshId(s, c) && c.q == Create(Accepted(fields))
    ensures Handle(s, c).response
         == if c.db.writeOk then Created(Inserted(fields, c.user.id, c.db.newId, c.db.now)) else ServerError
  {
  }

  lemma ListAfterInsert(rows: seq<Task>, c: Call, r: Response, fields: NewTask)
    requires Dated(rows, c.db.now) && c.q == Create(Accepted(fields))
    requires r == if c.db.writeOk then Created(Inserted(fields, c.user.id, c.db.newId, c.db.now)) else ServerError
    ensures Applied(NewestFirst(rows), c.q, r) == NewestFirst(SeenTasks(rows, c.user, Insert(fields), c.db))
  {
    NewestIsFirst(rows, Inserted(fields, c.user.id, c.db.newId, c.db.now));
  }

  /** A request answered at once leaves store and list alone, a listing replaces the list by itself. */
  lemma OwnAnswer(s: Store, c: Call)
    requires Decide(s, c.user, c.q, c.db.readOk).Answer?
    ensures Handle(s, c).store == s
    ensures Applied(FindAll(s.tasks, c.user), c.q, Handle(s, c).response) == FindAll(s.tasks, c.user)
  {
  }

  lemma InsertPlan(s: Store, u: User, q: Request, readOk: bool)
    requires Decide(s, u, q, readOk).Insert?
    ensures q == Create(Accepted(Decide(s, u, q, readOk).fields))
  {
  }

  /** How a change or a removal is answered. */
  lemma MutationAnswer(s: Store, c: Call)
    requires var plan := Decide(s, c.user, c.q, c.db.readOk); plan.Change? || plan.Destroy?
    ensures var plan, r := Decide(s, c.user, c.q, c.db.readOk), Handle(s, c).response;
            && Has(s.tasks, plan.id) && CanAccess(c.user, FindById(s.tasks, plan.id).value)
            && (!c.db.writeOk ==> r == ServerError)
            && (c.db.writeOk && plan.Destroy? ==> r == Deleted && c.q == Delete(Uuid(plan.id)))
            && (c.db.writeOk && plan.Change? ==>
                  && r == One(Patched(FindById(s.tasks, plan.id).value, plan.p, c.db.now))
                  && c.q.Update? && c.q.param == Uuid(plan.id))
  {
  }

  lemma OwnChange(s: Store, c: Call, id: Id, p: Patch)
    requires Keyed(s.tasks) && Dated(VisibleTasks(s.tasks, c.user), c.db.now)
    requires Decide(s, c.user, c.q, c.db.readOk) == Change(id, p)
    requires VisibleTasks(Handle(s, c).store.tasks, c.user)
          == SeenTasks(VisibleTasks(s.tasks, c.user), c.user, Change(id, p), c.db)
    ensures Applied(FindAll(s.tasks, c.user), c.q, Handle(s, c).response) == FindAll(Handle(s, c).store.tasks, c.user)
  {
    MutationAnswer(s, c);
    VisiblePatch(s, c.user, id, p, c.db.now);
    ListAfterChange(VisibleTasks(s.tasks, c.user), c, Handle(s, c).response, id, p,
                    Patched(FindById(s.tasks, id).value, p, c.db.now));
  }

  lemma ListAfterChange(rows: seq<Task>, c: Call, r: Response, id: Id, p: Patch, data: Task)
    requires Dated(rows, c.db.now)
    requires forall i | 0 <= i < |rows| && rows[i].id == id :: Patched(rows[i], p, c.db.now) == data
    requires if c.db.writeOk then r == One(data) && c.q.Update? && c.q.param == Uuid(id) else r == ServerError
    ensures Applied(NewestFirst(rows), c.q, r) == NewestFirst(SeenTasks(rows, c.user, Change(id, p), c.db))
  {
    ListUpdated(rows, id, p, c.db.now, data, c.db.now);
  }

  lemma OwnDestroy(s: Store, c: Call, id: Id)
    requires Keyed(s.tasks) && Dated(VisibleTasks(s.tasks, c.user), c.db.now)
    requires Decide(s, c.user, c.q, c.db.readOk) == Destroy(id)
    requires VisibleTasks(Handle(s, c).store.tasks, c.user)
          == SeenTasks(VisibleTasks(s.tasks, c.user), c.user, Destroy(id), c.db)
    ensures Applied(FindAll(s.tasks, c.user), c.q, Handle(s, c).response) == FindAll(Handle(s, c).store.tasks, c.user)
  {
    MutationAnswer(s, c);
    ListRemoved(VisibleTasks(s.tasks, c.user), id, c.db.now);
  }

  /** After one's own call, answered with success or not, the adjusted list is the new listing. */
  lemma OwnCall(s: Store, c: Call)
    requires Keyed(s.tasks) && FreshId(s, c) && Dated(s.tasks, c.db.now)
    ensures Applied(FindAll(s.tasks, c.user), c.q, Handle(s, c).response) == FindAll(Handle(s, c).store.tasks, c.user)
  {
    var plan := Decide(s, c.user, c.q, c.db.readOk);
    VisibleDated(s.tasks, c.user, c.db.now);
    OwnView(s, c);
    match plan
    case Insert(fields) =>
      InsertPlan(s, c.user, c.q, c.db.readOk);
      OwnInsert(s, c, fields);
    case Change(id, p) => OwnChange(s, c, id, p);
    case Destroy(id) => OwnDestroy(s, c, id);
    case Answer(_) => OwnAnswer(s, c);
  }

  // ----- Main results -----

  /**
   Starting from a fetched listing, the local list equals the server's listing, order included, after
   any calls of `me`, successful or refused, mixed with any calls of other USERs.
   */
  lemma {:induction false} ListIsListing(s: Store, cs: seq<Call>, me: User, floor: int)
    requires Keyed(s.tasks) && Dated(s.tasks, floor) && Timed(cs, floor) && FreshIds(s, cs)
    requires forall i | 0 <= i < |cs| ::
               cs[i].user == me || (me.role == USER && cs[i].user.role == USER && cs[i].user.id != me.id)
    ensures Mirrored(s, FindAll(s.tasks, me), cs, me) == FindAll(Final(s, cs).tasks, me)
    decreases |cs|
  {
    if cs != [] {
      var c := cs[0];
      DatedLater(s.tasks, floor, c.db.now);
      HandleDated(s, c);
      HandleKeyed(s, c);
      if c.user == me {
        OwnCall(s, c);
      } else {
        ForeignStep(s, c, me);
      }
      ListIsListing(Handle(s, c).store, cs[1..], me, c.db.now + 1);
    }
  }

  /** So the dashboard's counts are those a report built at that moment would contain. */
  lemma StatsMatchReport(s: Store, cs: seq<Call>, me: User, floor: int, now: int)
    requires Keyed(s.tasks) && Dated(s.tasks, floor) && Timed(cs, floor) && FreshIds(s, cs)
    requires forall i | 0 <= i < |cs| ::
               cs[i].user == me || (me.role == USER && cs[i].user.role == USER && cs[i].user.id != me.id)
    ensures var stats := StatsOf(Mirrored(s, FindAll(s.tasks, me), cs, me));
            var report := ReportOf(me, FindAll(Final(s, cs).tasks, me), now);
            && stats == Stats(report.total, report.pending, report.inProgress, report.completed)
            && stats == StatsOf(VisibleTasks(Final(s, cs).tasks, me))
            && stats.pending + stats.inProgress + stats.completed == stats.total
  {
    ListIsListing(s, cs, me, floor);
    ReportCountsVisible(Final(s, cs).tasks, me, now);
    StatusesSum(FindAll(Final(s, cs).tasks, me));
  }
}
