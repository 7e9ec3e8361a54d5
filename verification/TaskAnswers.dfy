/**
 What every request for tasks is answered, with the access condition written out: which refusals there
 are and in which order, that everything else succeeds, and what success returns and stores.
 */
module TaskAnswers {
  import opened Options
  import opened TaskStore

  // ----- One task -----

  /** A malformed id is refused first, then a task that is missing or another user's; the rest is shown. */
  lemma GetAnswers(s: Store, u: User, id: Id, db: Db)
    ensures Handle(s, Call(u, Get(Malformed), db)) == Result(s, BadId)
    ensures var found, r := FindById(s.tasks, id), Handle(s, Call(u, Get(Uuid(id)), db));
            && r.store == s
            && (r.response == NotFound <==>
                  !db.readOk || found.None? || !(u.role == ADMIN || found.value.owner == Some(u.id)))
            && (r.response != NotFound ==> found.Some? && r.response == One(found.value))
  {
  }

  /**
   An update is refused for a body the schema rejects, a malformed id, a task that is missing or another
   user's, and a body without fields, in this order. Everything else is written and the row returned,
   unless the database fails.
   */
  lemma UpdateAnswers(s: Store, u: User, param: IdParam, id: Id, p: Patch, db: Db)
    ensures Handle(s, Call(u, Update(param, Unacceptable), db)) == Result(s, ValidationFailed)
    ensures Handle(s, Call(u, Update(Malformed, Accepted(p)), db)) == Result(s, BadId)
    ensures var found, r := FindById(s.tasks, id), Handle(s, Call(u, Update(Uuid(id), Accepted(p)), db));
            var missing := !db.readOk || found.None? || !(u.role == ADMIN || found.value.owner == Some(u.id));
            var empty := p == Patch(None, None, None, None);
            && (r.response == NotFound <==> missing)
            && (r.response == NoFields <==> !missing && empty)
            && (r.response == ServerError <==> !missing && !empty && !db.writeOk)
            && (r.response.One? <==> !missing && !empty && db.writeOk)
            && (!r.response.One? ==> r.store == s)
            && (r.response.One? ==>
                  && r.response.task.id == id && FindById(r.store.tasks, id) == Some(r.response.task)
                  && r.store.deleted == s.deleted)
  {
    FindUpdated(s.tasks, id, p, db.now, id);
  }

  /**
   A deletion is refused for a malformed id and for a task that is missing or another user's. Everything
   else removes the row and logs it, unless the database fails.
   */
  lemma DeleteAnswers(s: Store, u: User, id: Id, db: Db)
    ensures Handle(s, Call(u, Delete(Malformed), db)) == Result(s, BadId)
    ensures var found, r := FindById(s.tasks, id), Handle(s, Call(u, Delete(Uuid(id)), db));
            var missing := !db.readOk || found.None? || !(u.role == ADMIN || found.value.owner == Some(u.id));
            && (r.response == NotFound <==> missing)
            && (r.response == ServerError <==> !missing && !db.writeOk)
            && (r.response == Deleted <==> !missing && db.writeOk)
            && (r.response != Deleted ==> r.store == s)
            && (r.response == Deleted ==>
                  && (forall t :: t in r.store.tasks <==> t in s.tasks && t.id != id)
                  && |r.store.deleted| == |s.deleted| + 1 && r.store.deleted[..|s.deleted|] == s.deleted
                  && r.store.deleted[|s.deleted|].taskId == id)
  {
    RemoveKeeps(s.tasks, id);
  }

  /** A creation is refused only for its body; the new task belongs to the user who asked for it. */
  lemma CreateAnswers(s: Store, u: User, n: NewTask, db: Db)
    ensures Handle(s, Call(u, Create(Unacceptable), db)) == Result(s, ValidationFailed)
    ensures var r := Handle(s, Call(u, Create(Accepted(n)), db));
            if db.writeOk && FindById(s.tasks, db.newId).None? then
              && r.response ==
                 Created(Task(db.newId, Some(u.id), n.title, n.description, n.due, n.status, db.now, db.now))
              && r.store == Store(s.tasks + [r.response.task], s.deleted)
            else r == Result(s, ServerError)
  {
  }

  /** The permitted requests in one place: for the ADMIN and the owner, a working database never refuses. */
  lemma PermittedSucceeds(s: Store, u: User, id: Id, t: Task, p: Patch, db: Db)
    requires FindById(s.tasks, id) == Some(t) && (u.role == ADMIN || t.owner == Some(u.id))
    requires db.readOk && db.writeOk
    ensures Handle(s, Call(u, Get(Uuid(id)), db)).response == One(t)
    ensures p != Patch(None, None, None, None) ==>
              Handle(s, Call(u, Update(Uuid(id), Accepted(p)), db)).response.One?
    ensures Handle(s, Call(u, Delete(Uuid(id)), db)).response == Deleted
  {
    GetAnswers(s, u, id, db);
    UpdateAnswers(s, u, Uuid(id), id, p, db);
    DeleteAnswers(s, u, id, db);
  }

  /** A mutating statement that finds its row gone, or the database down, fails and changes nothing. */
  lemma VanishedRow(s: Store, u: User, id: Id, p: Patch, db: Db)
    requires FindById(s.tasks, id).None? || !db.writeOk
    ensures Execute(s, u, Change(id, p), db) == Result(s, ServerError)
    ensures Execute(s, u, Destroy(id), db) == Result(s, ServerError)
  {
  }

  // ----- Listings -----

  lemma {:induction false} VisibleTasksCount(rows: seq<Task>, u: User, t: Task)
    ensures multiset(VisibleTasks(rows, u))[t]
         == if u.role == ADMIN || t.owner == Some(u.id) then multiset(rows)[t] else 0
  {
    if rows != [] {
      VisibleTasksCount(rows[1..], u, t);
      assert rows == [rows[0]] + rows[1..];
    }
  }

  lemma {:induction false} VisibleLogCount(log: seq<Tombstone>, u: User, t: Tombstone)
    ensures multiset(VisibleLog(log, u))[t]
         == if u.role == ADMIN || t.owner == Some(u.id) then multiset(log)[t] else 0
  {
    if log != [] {
      VisibleLogCount(log[1..], u, t);
      assert log == [log[0]] + log[1..];
    }
  }

  /** The ADMIN is shown every task and a USER exactly its own, each row once, the newest first. */
  lemma ListAnswers(s: Store, u: User, db: Db)
    ensures var r := Handle(s, Call(u, List, db));
            if !db.readOk then r == Result(s, ServerError)
            else
              && r.store == s && r.response.Tasks?
              && (forall t :: multiset(r.response.rows)[t]
                    == if u.role == ADMIN || t.owner == Some(u.id) then multiset(s.tasks)[t] else 0)
              && (forall i, j | 0 <= i < j < |r.response.rows| ::
                    r.response.rows[i].createdAt >= r.response.rows[j].createdAt)
  {
    NewestFirstSorts(VisibleTasks(s.tasks, u));
    forall t {
      VisibleTasksCount(s.tasks, u, t);
    }
  }

  /** The deletion log is shown by the same rule, the latest deletion first. */
  lemma ListDeletedAnswers(s: Store, u: User, db: Db)
    ensures var r := Handle(s, Call(u, ListDeleted, db));
            if !db.readOk then r == Result(s, ServerError)
            else
              && r.store == s && r.response.DeletionLog?
              && (forall t :: multiset(r.response.log)[t]
                    == if u.role == ADMIN || t.owner == Some(u.id) then multiset(s.deleted)[t] else 0)
              && (forall i, j | 0 <= i < j < |r.response.log| ::
                    r.response.log[i].deletedAt >= r.response.log[j].deletedAt)
  {
    LatestFirstSorts(VisibleLog(s.deleted, u));
    forall t {
      VisibleLogCount(s.deleted, u, t);
    }
  }
}
