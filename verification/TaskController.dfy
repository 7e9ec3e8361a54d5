/**
 The task handlers in their own form: database statements that change the two tables, handlers built
 from them, and the dashboard hook that replaces its list after each call.
 */
module TaskController {
  import opened Options
  import opened TaskAnswers
  import opened TaskStore
  import opened TaskMirror

  class Database {
    var tasks: seq<Task>
    var deleted: seq<Tombstone>

    ghost function State(): Store
      reads this
    {
      Store(tasks, deleted)
    }

    constructor ()
      ensures State() == Store([], [])
    {
      tasks, deleted := [], [];
    }

    // ----- Statements -----

    /** `INSERT … RETURNING`; the primary key refuses a used id. */
    method InsertRow(fields: NewTask, owner: UserId, db: Db) returns (row: Option<Task>)
      modifies this`tasks
      ensures row.Some? <==> db.writeOk && !Has(old(tasks), db.newId)
      ensures row.Some? ==> row.value == Inserted(fields, owner, db.newId, db.now) && tasks == old(tasks) + [row.value]
      ensures row.None? ==> tasks == old(tasks)
    {
      if !db.writeOk || Has(tasks, db.newId) {
        return None;
      }
      row := Some(Inserted(fields, owner, db.newId, db.now));
      tasks := tasks + [row.value];
    }

    /** `UPDATE … WHERE id = … RETURNING`, one row expected. */
    method UpdateRow(id: Id, p: Patch, db: Db) returns (row: Option<Task>)
      modifies this`tasks
      ensures row.Some? <==> db.writeOk && Has(old(tasks), id)
      ensures row.Some? ==>
                && row.value == Patched(FindById(old(tasks), id).value, p, db.now)
                && row == FindById(tasks, id)
                && tasks == UpdateRows(old(tasks), id, p, db.now)
      ensures row.None? ==> tasks == old(tasks)
    {
      if !db.writeOk || !Has(tasks, id) {
        return None;
      }
      FindUpdated(tasks, id, p, db.now, id);
      tasks := UpdateRows(tasks, id, p, db.now);
      row := FindById(tasks, id);
    }

    /** `DELETE … WHERE id = … RETURNING`; the trigger logs the old row in the same transaction. */
    method DeleteRow(id: Id, db: Db) returns (row: Option<Task>)
      modifies this
      ensures row.Some? <==> db.writeOk && Has(old(tasks), id)
      ensures row.Some? ==>
                && row == FindById(old(tasks), id)
                && tasks == RemoveRows(old(tasks), id) && !Has(tasks, id)
                && deleted == old(deleted) + [Buried(row.value, db.now)]
      ensures row.None? ==> State() == old(State())
    {
      if !db.writeOk || !Has(tasks, id) {
        return None;
      }
      row := FindById(tasks, id);
      LogTaskDeletion(row.value, db.now);
      FindRemoved(tasks, id, id);
      tasks := RemoveRows(tasks, id);
    }

    method LogTaskDeletion(row: Task, now: int)
      modifies this`deleted
      ensures deleted == old(deleted) + [Buried(row, now)]
    {
      deleted := deleted + [Buried(row, now)];
    }

    // ----- Handlers -----

    method CreateTask(u: User, body: Body<NewTask>, db: Db) returns (r: Response)
      modifies this`tasks
      ensures Result(State(), r) == Handle(old(State()), Call(u, Create(body), db))
      ensures r.Created? <==> body.Accepted? && db.writeOk && FindById(old(tasks), db.newId).None?
      ensures r.Created? ==> r.task in tasks && r.task.owner == Some(u.id)
    {
      if body.Unacceptable? {
        return ValidationFailed;
      }
      var row := InsertRow(body.fields, u.id, db);
      if row.None? {
        return ServerError;
      }
      return Created(row.value);
    }

    method GetTaskById(u: User, param: IdParam, db: Db) returns (r: Response)
      ensures r == Handle(State(), Call(u, Get(param), db)).response
      ensures r.One? ==> r.task in tasks && param == Uuid(r.task.id)
      ensures r.One? ==> u.role == ADMIN || r.task.owner == Some(u.id)
      ensures param.Uuid? && db.readOk ==>
                var found := FindById(tasks, param.id);
                found.Some? && (u.role == ADMIN || found.value.owner == Some(u.id)) ==> r == One(found.value)
    {
      if param.Malformed? {
        return BadId;
      }
      var found := if db.readOk then FindById(tasks, param.id) else None;
      if found.None? || !CanAccess(u, found.value) {
        return NotFound;
      }
      return One(found.value);
    }

    method UpdateTask(u: User, param: IdParam, patch: Body<Patch>, db: Db) returns (r: Response)
      modifies this`tasks
      ensures Result(State(), r) == Handle(old(State()), Call(u, Update(param, patch), db))
      ensures param.Uuid? && patch.Accepted? && patch.fields != NO_CHANGE && db.readOk && db.writeOk ==>
                var found := FindById(old(tasks), param.id);
                r.One? <==> found.Some? && (u.role == ADMIN || found.value.owner == Some(u.id))
    {
      if patch.Unacceptable? {
        return ValidationFailed;
      }
      if param.Malformed? {
        return BadId;
      }
      var found := if db.readOk then FindById(tasks, param.id) else None;
      if found.None? || !CanAccess(u, found.value) {
        return NotFound;
      }
      if patch.fields == NO_CHANGE {
        return NoFields;
      }
      var row := UpdateRow(param.id, patch.fields, db);
      if row.None? {
        return ServerError;
      }
      return One(row.value);
    }

    method DeleteTask(u: User, param: IdParam, db: Db) returns (r: Response)
      modifies this
      ensures Result(State(), r) == Handle(old(State()), Call(u, Delete(param), db))
      ensures param.Uuid? && db.readOk && db.writeOk ==>
                var found := FindById(old(tasks), param.id);
                r.Deleted? <==> found.Some? && (u.role == ADMIN || found.value.owner == Some(u.id))
    {
      if param.Malformed? {
        return BadId;
      }
      var found := if db.readOk then FindById(tasks, param.id) else None;
      if found.None? || !CanAccess(u, found.value) {
        return NotFound;
      }
      var row := DeleteRow(param.id, db);
      if row.None? {
        return ServerError;
      }
      return Deleted;
    }
  }

  /** The hook's list, set from a fetched listing and adjusted after each successful call. */
  class TaskList {
    var tasks: seq<Task>

    constructor (fetched: seq<Task>)
      ensures tasks == fetched
    {
      tasks := fetched;
    }

    method CreateTask(db: Database, me: User, body: Body<NewTask>, at: Db) returns (r: Response)
      modifies this, db`tasks
      ensures Result(db.State(), r) == Handle(old(db.State()), Call(me, Create(body), at))
      ensures tasks == Applied(old(tasks), Create(body), r)
    {
      r := db.CreateTask(me, body, at);
      if r.Created? {
        tasks := [r.task] + tasks;
      }
    }

    method UpdateTask(db: Database, me: User, id: Id, patch: Body<Patch>, at: Db) returns (r: Response)
      modifies this, db`tasks
      ensures Result(db.State(), r) == Handle(old(db.State()), Call(me, Update(Uuid(id), patch), at))
      ensures tasks == Applied(old(tasks), Update(Uuid(id), patch), r)
    {
      r := db.UpdateTask(me, Uuid(id), patch, at);
      if r.One? {
        tasks := Replaced(tasks, id, r.task);
      }
    }

    method DeleteTask(db: Database, me: User, id: Id, at: Db) returns (r: Response)
      modifies this, db
      ensures Result(db.State(), r) == Handle(old(db.State()), Call(me, Delete(Uuid(id)), at))
      ensures tasks == Applied(old(tasks), Delete(Uuid(id)), r)
    {
      r := db.DeleteTask(me, Uuid(id), at);
      if r.Deleted? {
        tasks := RemoveRows(tasks, id);
      }
    }
  }
}
