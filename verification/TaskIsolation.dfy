/**
 Noninterference: what a USER is answered depends only on that user's own rows and own requests,
 whatever rows exist for others and whatever other USERs do in between.
 */
module TaskIsolation {
  import opened Options
  import opened TaskStore

  /** Two stores that show `u` the same live rows and the same deletion log, in the same order. */
  ghost predicate Agree(s: Store, t: Store, u: User) {
    && VisibleTasks(s.tasks, u) == VisibleTasks(t.tasks, u)
    && VisibleLog(s.deleted, u) == VisibleLog(t.deleted, u)
  }

  // ----- How visibility meets the table operations -----

  lemma {:induction false} VisibleAppend(rows: seq<Task>, t: Task, u: User)
    ensures VisibleTasks(rows + [t], u) == VisibleTasks(rows, u) + if CanAccess(u, t) then [t] else []
  {
    if rows == [] {
      assert rows + [t] == [t];
    } else {
      assert (rows + [t])[1..] == rows[1..] + [t];
      VisibleAppend(rows[1..], t, u);
    }
  }

  lemma {:induction false} LogAppend(log: seq<Tombstone>, t: Tombstone, u: User)
    ensures VisibleLog(log + [t], u)
         == VisibleLog(log, u) + if u.role == ADMIN || t.owner == Some(u.id) then [t] else []
  {
    if log == [] {
      assert log + [t] == [t];
    } else {
      assert (log + [t])[1..] == log[1..] + [t];
      LogAppend(log[1..], t, u);
    }
  }

  lemma {:induction false} VisibleUpdate(rows: seq<Task>, u: User, id: Id, p: Patch, now: int)
    ensures VisibleTasks(UpdateRows(rows, id, p, now), u) == UpdateRows(VisibleTasks(rows, u), id, p, now)
  {
    if rows != [] {
      VisibleUpdate(rows[1..], u, id, p, now);
      var rest := VisibleTasks(rows[1..], u);
      if CanAccess(u, rows[0]) {
        assert ([rows[0]] + rest)[1..] == rest;
      } else {
        assert VisibleTasks(rows, u) == rest;
      }
    }
  }

  lemma {:induction false} VisibleRemove(rows: seq<Task>, u: User, id: Id)
    ensures VisibleTasks(RemoveRows(rows, id), u) == RemoveRows(VisibleTasks(rows, u), id)
  {
    if rows != [] {
      VisibleRemove(rows[1..], u, id);
      var rest := VisibleTasks(rows[1..], u);
      if CanAccess(u, rows[0]) {
        assert ([rows[0]] + rest)[1..] == rest;
      } else {
        assert VisibleTasks(rows, u) == rest;
      }
      if rows[0].id == id {
        assert RemoveRows(rows, id) == RemoveRows(rows[1..], id);
      }
    }
  }

  lemma {:induction false} VisibleSubset(rows: seq<Task>, u: User)
    ensures forall t :: t in VisibleTasks(rows, u) <==> t in rows && CanAccess(u, t)
  {
    if rows != [] {
      VisibleSubset(rows[1..], u);
      assert rows == [rows[0]] + rows[1..];
    }
  }

  /** The row the user may access under an id is the one found among the user's visible rows. */
  lemma {:induction false} FindVisible(rows: seq<Task>, u: User, id: Id)
    requires Keyed(rows)
    ensures var found := FindById(rows, id);
            FindById(VisibleTasks(rows, u), id) == (if found.Some? && CanAccess(u, found.value) then found else None)
  {
    if rows != [] {
      var rest := VisibleTasks(rows[1..], u);
      FindVisible(rows[1..], u, id);
      if CanAccess(u, rows[0]) {
        assert ([rows[0]] + rest)[1..] == rest;
      } else {
        assert VisibleTasks(rows, u) == rest;
        if rows[0].id == id {
          VisibleSubset(rows[1..], u);
        }
      }
    }
  }

  /** Statements that name no row change nothing. */
  lemma {:induction false} Untouched(rows: seq<Task>, id: Id, p: Patch, now: int)
    requires !Has(rows, id)
    ensures UpdateRows(rows, id, p, now) == rows && RemoveRows(rows, id) == rows
  {
    if rows != [] {
      Untouched(rows[1..], id, p, now);
    }
  }

  // ----- One step -----

  /** The id of a new row is not in use. */
  predicate FreshId(s: Store, c: Call) {
    c.q.Create? ==> !Has(s.tasks, c.db.newId)
  }

  lemma SameFind(s: Store, t: Store, u: User, id: Id)
    requires Keyed(s.tasks) && Keyed(t.tasks) && Agree(s, t, u)
    ensures var a, b := FindById(s.tasks, id), FindById(t.tasks, id);
            && ((a.Some? && CanAccess(u, a.value)) <==> (b.Some? && CanAccess(u, b.value)))
            && (a.Some? && CanAccess(u, a.value) ==> a == b)
  {
    FindVisible(s.tasks, u, id);
    FindVisible(t.tasks, u, id);
  }

  lemma SamePlan(s: Store, t: Store, u: User, q: Request, readOk: bool)
    requires Keyed(s.tasks) && Keyed(t.tasks) && Agree(s, t, u)
    ensures Decide(s, u, q, readOk) == Decide(t, u, q, readOk)
  {
    if (q.Get? || q.Update? || q.Delete?) && q.param.Uuid? {
      SameFind(s, t, u, q.param.id);
    }
  }

  /** A plan to change or delete a row is only made for a row the user may access. */
  lemma PlanNamesOwn(s: Store, u: User, q: Request, readOk: bool)
    ensures var plan := Decide(s, u, q, readOk);
            && (plan.Change? || plan.Destroy? ==>
                  Has(s.tasks, plan.id) && CanAccess(u, FindById(s.tasks, plan.id).value))
            && (plan.Insert? ==> q.Create?)
  {
  }

  /** What a plan of `u` does to the rows and the log that `u` sees, computed from these alone. */
  function SeenTasks(rows: seq<Task>, u: User, plan: Plan, db: Db): seq<Task> {
    if !db.writeOk then rows
    else
      match plan
      case Answer(_) => rows
      case Insert(fields) => rows + [Inserted(fields, u.id, db.newId, db.now)]
      case Change(id, p) => UpdateRows(rows, id, p, db.now)
      case Destroy(id) => RemoveRows(rows, id)
  }

  function SeenLog(rows: seq<Task>, log: seq<Tombstone>, plan: Plan, db: Db): seq<Tombstone> {
    if db.writeOk && plan.Destroy? && Has(rows, plan.id)
    then log + [Buried(FindById(rows, plan.id).value, db.now)] else log
  }

  ghost predicate ViewAfter(s: Store, s': Store, u: User, plan: Plan, db: Db) {
    && VisibleTasks(s'.tasks, u) == SeenTasks(VisibleTasks(s.tasks, u), u, plan, db)
    && VisibleLog(s'.deleted, u) == SeenLog(VisibleTasks(s.tasks, u), VisibleLog(s.deleted, u), plan, db)
  }

  lemma OwnView(s: Store, c: Call)
    requires Keyed(s.tasks) && FreshId(s, c)
    ensures ViewAfter(s, Handle(s, c).store, c.user, Decide(s, c.user, c.q, c.db.readOk), c.db)
  {
    var u, db := c.user, c.db;
    var plan := Decide(s, u, c.q, db.readOk);
    PlanNamesOwn(s, u, c.q, db.readOk);
    if plan.Insert? {
      VisibleAppend(s.tasks, Inserted(plan.fields, u.id, db.newId, db.now), u);
    } else if plan.Change? {
      VisibleUpdate(s.tasks, u, plan.id, plan.p, db.now);
    } else if plan.Destroy? {
      VisibleRemove(s.tasks, u, plan.id);
      FindVisible(s.tasks, u, plan.id);
      LogAppend(s.deleted, Buried(FindById(s.tasks, plan.id).value, db.now), u);
    }
  }

  lemma SameView(s: Store, s': Store, t: Store, t': Store, u: User, plan: Plan, db: Db)
    requires Agree(s, t, u) && ViewAfter(s, s', u, plan, db) && ViewAfter(t, t', u, plan, db)
    ensures Agree(s', t', u)
  {
  }

  /** One request of `u` in two agreeing stores: the same answer, and they still agree. */
  lemma OwnStep(s: Store, t: Store, c: Call)
    requires Keyed(s.tasks) && Keyed(t.tasks) && Agree(s, t, c.user) && FreshId(s, c) && FreshId(t, c)
    ensures Handle(s, c).response == Handle(t, c).response
    ensures Agree(Handle(s, c).store, Handle(t, c).store, c.user)
  {
    SamePlan(s, t, c.user, c.q, c.db.readOk);
    OwnView(s, c);
    OwnView(t, c);
    var plan := Decide(s, c.user, c.q, c.db.readOk);
    PlanNamesOwn(s, c.user, c.q, c.db.readOk);
    PlanNamesOwn(t, c.user, c.q, c.db.readOk);
    if plan.Change? || plan.Destroy? {
      SameFind(s, t, c.user, plan.id);
    }
    SameView(s, Handle(s, c).store, t, Handle(t, c).store, c.user, plan, c.db);
  }

  /** One request of another USER: `u` sees nothing of it. */
  lemma ForeignStep(s: Store, c: Call, u: User)
    requires Keyed(s.tasks) && u.role == USER && c.user.role == USER && c.user.id != u.id
    ensures Agree(s, Handle(s, c).store, u)
  {
    var plan := Decide(s, c.user, c.q, c.db.readOk);
    PlanNamesOwn(s, c.user, c.q, c.db.readOk);
    if plan.Insert? {
      VisibleAppend(s.tasks, Inserted(plan.fields, c.user.id, c.db.newId, c.db.now), u);
    } else if plan.Change? || plan.Destroy? {
      var p := if plan.Change? then plan.p else NO_CHANGE;
      FindVisible(s.tasks, u, plan.id);
      Untouched(VisibleTasks(s.tasks, u), plan.id, p, c.db.now);
      VisibleUpdate(s.tasks, u, plan.id, p, c.db.now);
      VisibleRemove(s.tasks, u, plan.id);
      LogAppend(s.deleted, Buried(FindById(s.tasks, plan.id).value, c.db.now), u);
    }
  }

  // ----- Whole runs -----

  /** The requests of `u` among `cs`. */
  function Purge(cs: seq<Call>, u: User): seq<Call> {
    if cs == [] then [] else (if cs[0].user == u then [cs[0]] else []) + Purge(cs[1..], u)
  }

  /** What `u` is answered while `cs` is handled. */
  function Answers(s: Store, cs: seq<Call>, u: User): seq<Response>
    decreases |cs|
  {
    if cs == [] then []
    else
      (if cs[0].user == u then [Handle(s, cs[0]).response] else []) + Answers(Handle(s, cs[0]).store, cs[1..], u)
  }

  /** Every new id is unused when it is drawn. */
  predicate FreshIds(s: Store, cs: seq<Call>)
    decreases |cs|
  {
    cs == [] || (FreshId(s, cs[0]) && FreshIds(Handle(s, cs[0]).store, cs[1..]))
  }

  /** Everyone else in the run is a USER with another id. */
  predicate OnlyUsers(cs: seq<Call>, u: User) {
    forall i | 0 <= i < |cs| :: cs[i].user == u || (cs[i].user.role == USER && cs[i].user.id != u.id)
  }

  lemma AgreeTransitive(s: Store, t: Store, r: Store, u: User)
    requires Agree(s, t, u) && Agree(t, r, u)
    ensures Agree(s, r, u) && Agree(r, s, u)
  {
  }

  /**
   Two agreeing stores and two runs in which `u` makes the same requests, others any requests of
   their own: `u` gets the same answers throughout, and the stores agree at the end.
   */
  lemma {:induction false} Noninterference(s: Store, t: Store, cs: seq<Call>, ds: seq<Call>, u: User)
    requires Keyed(s.tasks) && Keyed(t.tasks) && Agree(s, t, u) && u.role == USER
    requires OnlyUsers(cs, u) && OnlyUsers(ds, u) && Purge(cs, u) == Purge(ds, u)
    requires FreshIds(s, cs) && FreshIds(t, ds)
    ensures Answers(s, cs, u) == Answers(t, ds, u)
    ensures Agree(Final(s, cs), Final(t, ds), u)
    decreases |cs| + |ds|
  {
    if cs != [] && cs[0].user != u {
      HandleKeyed(s, cs[0]);
      ForeignStep(s, cs[0], u);
      AgreeTransitive(Handle(s, cs[0]).store, s, t, u);
      Noninterference(Handle(s, cs[0]).store, t, cs[1..], ds, u);
    } else if ds != [] && ds[0].user != u {
      HandleKeyed(t, ds[0]);
      ForeignStep(t, ds[0], u);
      AgreeTransitive(s, t, Handle(t, ds[0]).store, u);
      Noninterference(s, Handle(t, ds[0]).store, cs, ds[1..], u);
    } else if cs != [] {
      PurgeOwn(cs, ds, u);
      HandleKeyed(s, cs[0]);
      HandleKeyed(t, cs[0]);
      OwnStep(s, t, cs[0]);
      Noninterference(Handle(s, cs[0]).store, Handle(t, cs[0]).store, cs[1..], ds[1..], u);
    }
  }

  lemma PurgeOwn(cs: seq<Call>, ds: seq<Call>, u: User)
    requires cs != [] && cs[0].user == u && (ds != [] ==> ds[0].user == u) && Purge(cs, u) == Purge(ds, u)
    ensures ds != [] && ds[0] == cs[0] && Purge(cs[1..], u) == Purge(ds[1..], u)
  {
    assert Purge(cs, u)[0] == cs[0];
    assert Purge(cs, u)[1..] == Purge(cs[1..], u);
    if ds != [] {
      assert Purge(ds, u)[0] == ds[0];
      assert Purge(ds, u)[1..] == Purge(ds[1..], u);
    }
  }

  // ----- Existence is not leaked -----

  /** The same request about another id. */
  function About(q: Request, id: Id): Request {
    match q
    case Get(_) => Get(Uuid(id))
    case Update(_, patch) => Update(Uuid(id), patch)
    case Delete(_) => Delete(Uuid(id))
    case _ => q
  }

  /** A USER asking about someone else's task and about a task that does not exist gets the same answer. */
  lemma ForeignLooksMissing(s: Store, c: Call, foreign: Id, missing: Id)
    requires c.user.role == USER
    requires Has(s.tasks, foreign) && !CanAccess(c.user, FindById(s.tasks, foreign).value)
    requires !Has(s.tasks, missing)
    ensures Handle(s, c.(q := About(c.q, foreign))) == Handle(s, c.(q := About(c.q, missing)))
  {
  }
}
