/**
 The task table, its deletion log and the request handlers over them. A table is the sequence of its
 rows in insertion order; every handler first finds and checks, then mutates with one statement.
 */
module TaskStore {
  import opened Options

  type Id = nat
  type UserId = nat

  datatype Role = USER | ADMIN
  datatype User = User(id: UserId, role: Role)

  datatype Status = PENDING | IN_PROGRESS | COMPLETED

  /** A row of `tasks`; rows older than the ownership column have no owner. */
  datatype Task = Task(
    id: Id, owner: Option<UserId>, title: string, description: Option<string>, due: Option<int>,
    status: Status, createdAt: int, updatedAt: int)

  /** A row of `deleted_tasks`. */
  datatype Tombstone = Tombstone(
    taskId: Id, owner: Option<UserId>, title: string, description: Option<string>, due: Option<int>,
    status: Status, deletedAt: int)

  datatype Store = Store(tasks: seq<Task>, deleted: seq<Tombstone>)

  /** A body that passed `createTaskSchema`, the status defaulted. */
  datatype NewTask = NewTask(title: string, description: Option<string>, due: Option<int>, status: Status)

  /** A body that passed `updateTaskSchema`: these four fields, each possibly absent. */
  datatype Patch = Patch(
    title: Option<string>, description: Option<Option<string>>, due: Option<Option<int>>, status: Option<Status>)

  const NO_CHANGE := Patch(None, None, None, None)

  datatype Body<T> = Unacceptable | Accepted(fields: T)
  datatype IdParam = Malformed | Uuid(id: Id)

  datatype Request =
    | List
    | ListDeleted
    | Get(param: IdParam)
    | Create(body: Body<NewTask>)
    | Update(param: IdParam, patch: Body<Patch>)
    | Delete(param: IdParam)

  datatype Response =
    | Tasks(rows: seq<Task>)
    | DeletionLog(log: seq<Tombstone>)
    | One(task: Task)
    | Created(task: Task)
    | Deleted
    | ValidationFailed
    | BadId
    | NoFields
    | NotFound
    | ServerError

  /** What the database contributes to one handler: its clock, a random id, and whether it answers. */
  datatype Db = Db(now: int, newId: Id, readOk: bool, writeOk: bool)

  function Successful(r: Response): bool {
    r.Tasks? || r.DeletionLog? || r.One? || r.Created? || r.Deleted?
  }

  // ----- Table operations -----

  function FindById(rows: seq<Task>, id: Id): (r: Option<Task>)
    ensures r.Some? ==> r.value in rows && r.value.id == id
    ensures r.None? ==> forall i | 0 <= i < |rows| :: rows[i].id != id
  {
    if rows == [] then None else if rows[0].id == id then Some(rows[0]) else FindById(rows[1..], id)
  }

  predicate Has(rows: seq<Task>, id: Id) {
    FindById(rows, id).Some?
  }

  function OrElse<T>(o: Option<T>, otherwise: T): T {
    if o.Some? then o.value else otherwise
  }

  /** One updated row; a trigger stamps `updated_at`. */
  function Patched(t: Task, p: Patch, now: int): (r: Task)
    ensures r.id == t.id && r.owner == t.owner && r.createdAt == t.createdAt
  {
    t.(title := OrElse(p.title, t.title), description := OrElse(p.description, t.description),
       due := OrElse(p.due, t.due), status := OrElse(p.status, t.status), updatedAt := now)
  }

  /** `UPDATE tasks SET … WHERE id = …`. */
  function UpdateRows(rows: seq<Task>, id: Id, p: Patch, now: int): seq<Task> {
    if rows == [] then []
    else [if rows[0].id == id then Patched(rows[0], p, now) else rows[0]] + UpdateRows(rows[1..], id, p, now)
  }

  /** `DELETE FROM tasks WHERE id = …`. */
  function RemoveRows(rows: seq<Task>, id: Id): seq<Task> {
    if rows == [] then []
    else (if rows[0].id == id then [] else [rows[0]]) + RemoveRows(rows[1..], id)
  }

  /** The row that the delete trigger writes. */
  function Buried(t: Task, now: int): Tombstone {
    Tombstone(t.id, t.owner, t.title, t.description, t.due, t.status, now)
  }

  function Inserted(n: NewTask, owner: UserId, id: Id, now: int): Task {
    Task(id, Some(owner), n.title, n.description, n.due, n.status, now, now)
  }

  /** The primary key: no two rows share an id. */
  ghost predicate Keyed(rows: seq<Task>) {
    forall i, j | 0 <= i < j < |rows| :: rows[i].id != rows[j].id
  }

  // ----- Queries -----

  predicate CanAccess(u: User, t: Task) {
    u.role == ADMIN || t.owner == Some(u.id)
  }

  function VisibleTasks(rows: seq<Task>, u: User): seq<Task> {
    if rows == [] then []
    else (if CanAccess(u, rows[0]) then [rows[0]] else []) + VisibleTasks(rows[1..], u)
  }

  function VisibleLog(log: seq<Tombstone>, u: User): seq<Tombstone> {
    if log == [] then []
    else (if u.role == ADMIN || log[0].owner == Some(u.id) then [log[0]] else []) + VisibleLog(log[1..], u)
  }

  function InsertTask(t: Task, rows: seq<Task>): seq<Task> {
    if rows == [] || t.createdAt > rows[0].createdAt then [t] + rows else [rows[0]] + InsertTask(t, rows[1..])
  }

  /** `ORDER BY created_at DESC`. */
  function NewestFirst(rows: seq<Task>): seq<Task> {
    if rows == [] then [] else InsertTask(rows[|rows| - 1], NewestFirst(rows[..|rows| - 1]))
  }

  function InsertTombstone(t: Tombstone, log: seq<Tombstone>): seq<Tombstone> {
    if log == [] || t.deletedAt > log[0].deletedAt then [t] + log else [log[0]] + InsertTombstone(t, log[1..])
  }

  /** `ORDER BY deleted_at DESC`. */
  function LatestFirst(log: seq<Tombstone>): seq<Tombstone> {
    if log == [] then [] else InsertTombstone(log[|log| - 1], LatestFirst(log[..|log| - 1]))
  }

  function FindAll(rows: seq<Task>, u: User): seq<Task> {
    NewestFirst(VisibleTasks(rows, u))
  }

  function FindAllDeleted(log: seq<Tombstone>, u: User): seq<Tombstone> {
    LatestFirst(VisibleLog(log, u))
  }

  // ----- Handlers -----

  /** Where the first half of a handler leads: an answer, or a statement to execute. */
  datatype Plan = Answer(r: Response) | Insert(fields: NewTask) | Change(id: Id, p: Patch) | Destroy(id: Id)

  function Find(s: Store, id: Id, readOk: bool): Option<Task> {
    if readOk then FindById(s.tasks, id) else None
  }

  /** Everything up to the mutating statement, in the handlers' order of checks. */
  function Decide(s: Store, u: User, q: Request, readOk: bool): Plan {
    match q
    case List => Answer(if readOk then Tasks(FindAll(s.tasks, u)) else ServerError)
    case ListDeleted => Answer(if readOk then DeletionLog(FindAllDeleted(s.deleted, u)) else ServerError)
    case Get(param) =>
      if param.Malformed? then Answer(BadId)
      else
        var found := Find(s, param.id, readOk);
        if found.None? || !CanAccess(u, found.value) then Answer(NotFound) else Answer(One(found.value))
    case Create(body) => if body.Unacceptable? then Answer(ValidationFailed) else Insert(body.fields)
    case Update(param, patch) =>
      if patch.Unacceptable? then Answer(ValidationFailed)
      else if param.Malformed? then Answer(BadId)
      else
        var found := Find(s, param.id, readOk);
        if found.None? || !CanAccess(u, found.value) then Answer(NotFound)
        else if patch.fields == NO_CHANGE then Answer(NoFields)
        else Change(param.id, patch.fields)
    case Delete(param) =>
      if param.Malformed? then Answer(BadId)
      else
        var found := Find(s, param.id, readOk);
        if found.None? || !CanAccess(u, found.value) then Answer(NotFound) else Destroy(param.id)
  }

  datatype Result = Result(store: Store, response: Response)

  /** The mutating statement; it fails when the row it names is gone. */
  function Execute(s: Store, u: User, plan: Plan, db: Db): Result {
    match plan
    case Answer(r) => Result(s, r)
    case Insert(fields) =>
      if !db.writeOk || Has(s.tasks, db.newId) then Result(s, ServerError)
      else
        var row := Inserted(fields, u.id, db.newId, db.now);
        Result(s.(tasks := s.tasks + [row]), Created(row))
    case Change(id, p) =>
      var found := FindById(s.tasks, id);
      if !db.writeOk || found.None? then Result(s, ServerError)
      else Result(s.(tasks := UpdateRows(s.tasks, id, p, db.now)), One(Patched(found.value, p, db.now)))
    case Destroy(id) =>
      var found := FindById(s.tasks, id);
      if !db.writeOk || found.None? then Result(s, ServerError)
      else
        Result(Store(RemoveRows(s.tasks, id), s.deleted + [Buried(found.value, db.now)]), Deleted)
  }

  /** One request handled without interruption. */
  datatype Call = Call(user: User, q: Request, db: Db)

  function Handle(s: Store, c: Call): Result {
    Execute(s, c.user, Decide(s, c.user, c.q, c.db.readOk), c.db)
  }

  /** The store once all of `cs` have been handled, in order. */
  function Final(s: Store, cs: seq<Call>): Store
    decreases |cs|
  {
    if cs == [] then s else Final(Handle(s, cs[0]).store, cs[1..])
  }

  // ----- Facts about the operations -----

  lemma {:induction false} FindRow(rows: seq<Task>, i: nat)
    requires Keyed(rows) && i < |rows|
    ensures FindById(rows, rows[i].id) == Some(rows[i])
  {
    if i > 0 {
      assert rows[1..][i - 1] == rows[i];
      FindRow(rows[1..], i - 1);
    }
  }

  lemma {:induction false} FindAppended(rows: seq<Task>, t: Task, id: Id)
    ensures FindById(rows + [t], id)
         == if Has(rows, id) then FindById(rows, id) else if t.id == id then Some(t) else None
  {
    if rows == [] {
      assert rows + [t] == [t];
    } else {
      assert (rows + [t])[1..] == rows[1..] + [t];
      FindAppended(rows[1..], t, id);
    }
  }

  lemma {:induction false} FindUpdated(rows: seq<Task>, id: Id, p: Patch, now: int, k: Id)
    ensures FindById(UpdateRows(rows, id, p, now), k)
         == if k == id && Has(rows, k) then Some(Patched(FindById(rows, k).value, p, now)) else FindById(rows, k)
  {
    if rows != [] {
      FindUpdated(rows[1..], id, p, now, k);
    }
  }

  lemma {:induction false} FindRemoved(rows: seq<Task>, id: Id, k: Id)
    ensures FindById(RemoveRows(rows, id), k) == if k == id then None else FindById(rows, k)
  {
    if rows != [] {
      FindRemoved(rows[1..], id, k);
      if rows[0].id == id {
        assert RemoveRows(rows, id) == RemoveRows(rows[1..], id);
      }
    }
  }

  lemma {:induction false} UpdateFacts(rows: seq<Task>, id: Id, p: Patch, now: int)
    ensures var after := UpdateRows(rows, id, p, now);
            && |after| == |rows|
            && forall i | 0 <= i < |rows| ::
                 after[i] == if rows[i].id == id then Patched(rows[i], p, now) else rows[i]
  {
    if rows != [] {
      UpdateFacts(rows[1..], id, p, now);
    }
  }

  /** Removal keeps a subsequence: rows of other ids, in their order. */
  lemma {:induction false} RemoveKeeps(rows: seq<Task>, id: Id)
    ensures forall t :: t in RemoveRows(rows, id) <==> t in rows && t.id != id
    ensures Keyed(rows) ==> Keyed(RemoveRows(rows, id))
  {
    if rows != [] {
      RemoveKeeps(rows[1..], id);
      var rest := RemoveRows(rows[1..], id);
      assert rows == [rows[0]] + rows[1..];
      if Keyed(rows) && rows[0].id != id {
        forall j | 0 <= j < |rest|
          ensures rest[j].id != rows[0].id
        {
          assert rest[j] in rows[1..];
        }
      }
    }
  }

  /** Every request keeps the primary key. */
  lemma HandleKeyed(s: Store, c: Call)
    requires Keyed(s.tasks)
    ensures Keyed(Handle(s, c).store.tasks)
  {
    ExecuteKeyed(s, c.user, Decide(s, c.user, c.q, c.db.readOk), c.db);
  }

  lemma ExecuteKeyed(s: Store, u: User, plan: Plan, db: Db)
    requires Keyed(s.tasks)
    ensures Keyed(Execute(s, u, plan, db).store.tasks)
  {
    if plan.Change? {
      UpdateFacts(s.tasks, plan.id, plan.p, db.now);
    } else if plan.Destroy? {
      RemoveKeeps(s.tasks, plan.id);
    }
  }

  /** A request that is not answered with success changed nothing. */
  lemma FailureChangesNothing(s: Store, c: Call)
    ensures !Successful(Handle(s, c).response) ==> Handle(s, c).store == s
  {
  }

  // ----- What a user reads back -----

  lemma CreateThenGet(s: Store, u: User, n: NewTask, db: Db, later: Db)
    requires db.writeOk && !Has(s.tasks, db.newId) && later.readOk
    ensures var r := Handle(s, Call(u, Create(Accepted(n)), db));
            && r.response.Created? && r.response.task.id == db.newId
            && Handle(r.store, Call(u, Get(Uuid(db.newId)), later)).response == One(r.response.task)
            && r.response.task.title == n.title && r.response.task.description == n.description
            && r.response.task.due == n.due && r.response.task.status == n.status
            && r.response.task.createdAt == db.now == r.response.task.updatedAt
            && forall k | k != db.newId :: FindById(r.store.tasks, k) == FindById(s.tasks, k)
  {
    var row := Inserted(n, u.id, db.newId, db.now);
    forall k
      ensures FindById(s.tasks + [row], k)
           == if Has(s.tasks, k) then FindById(s.tasks, k) else if k == db.newId then Some(row) else None
    {
      FindAppended(s.tasks, row, k);
    }
  }

  /** A successful update sets the given fields, keeps the absent ones, and touches no other row. */
  lemma UpdateThenGet(s: Store, u: User, id: Id, p: Patch, db: Db, later: Db)
    requires later.readOk
    requires Handle(s, Call(u, Update(Uuid(id), Accepted(p)), db)).response.One?
    ensures var r := Handle(s, Call(u, Update(Uuid(id), Accepted(p)), db));
            var before, after := FindById(s.tasks, id), r.response.task;
            && Handle(r.store, Call(u, Get(Uuid(id)), later)).response == One(after)
            && before.Some? && after.id == id && after.owner == before.value.owner
            && (p.title.Some? ==> after.title == p.title.value)
            && (p.title.None? ==> after.title == before.value.title)
            && (p.description.Some? ==> after.description == p.description.value)
            && (p.description.None? ==> after.description == before.value.description)
            && (p.due.Some? ==> after.due == p.due.value) && (p.due.None? ==> after.due == before.value.due)
            && (p.status.Some? ==> after.status == p.status.value)
            && (p.status.None? ==> after.status == before.value.status)
            && after.createdAt == before.value.createdAt && after.updatedAt == db.now
            && forall k | k != id :: FindById(r.store.tasks, k) == FindById(s.tasks, k)
  {
    forall k
      ensures FindById(UpdateRows(s.tasks, id, p, db.now), k)
           == if k == id && Has(s.tasks, k) then Some(Patched(FindById(s.tasks, k).value, p, db.now))
              else FindById(s.tasks, k)
    {
      FindUpdated(s.tasks, id, p, db.now, k);
    }
  }

  /** A deleted task is gone for everybody, stands in the log as it was, and no other row is touched. */
  lemma DeleteThenGet(s: Store, u: User, id: Id, db: Db, other: User, later: Db)
    requires Handle(s, Call(u, Delete(Uuid(id)), db)).response.Deleted?
    ensures var r := Handle(s, Call(u, Delete(Uuid(id)), db));
            var before := FindById(s.tasks, id);
            && Handle(r.store, Call(other, Get(Uuid(id)), later)).response == NotFound
            && before.Some?
            && r.store.deleted
               == s.deleted + [Tombstone(id, before.value.owner, before.value.title, before.value.description,
                                         before.value.due, before.value.status, db.now)]
            && forall k | k != id :: FindById(r.store.tasks, k) == FindById(s.tasks, k)
  {
    forall k
      ensures FindById(RemoveRows(s.tasks, id), k) == if k == id then None else FindById(s.tasks, k)
    {
      FindRemoved(s.tasks, id, k);
    }
  }

  // ----- The order of a listing -----

  ghost predicate Descending(rows: seq<Task>) {
    forall i, j | 0 <= i < j < |rows| :: rows[i].createdAt >= rows[j].createdAt
  }

  lemma {:induction false} InsertElements(t: Task, rows: seq<Task>)
    ensures multiset(InsertTask(t, rows)) == multiset(rows) + multiset{t}
  {
    if rows != [] && t.createdAt <= rows[0].createdAt {
      InsertElements(t, rows[1..]);
      assert rows == [rows[0]] + rows[1..];
    }
  }

  lemma PutFront(t: Task, rows: seq<Task>)
    requires Descending(rows) && forall x | x in rows :: t.createdAt >= x.createdAt
    ensures Descending([t] + rows)
  {
  }

  lemma {:induction false} InsertDescends(t: Task, rows: seq<Task>)
    requires Descending(rows)
    ensures Descending(InsertTask(t, rows))
    ensures forall x | x in InsertTask(t, rows) :: x == t || x in rows
  {
    if rows != [] && t.createdAt <= rows[0].createdAt {
      InsertDescends(t, rows[1..]);
      PutFront(rows[0], InsertTask(t, rows[1..]));
    } else {
      PutFront(t, rows);
    }
  }

  /** A listing is the visible rows, each once, newest first. */
  lemma {:induction false} NewestFirstSorts(rows: seq<Task>)
    ensures Descending(NewestFirst(rows)) && multiset(NewestFirst(rows)) == multiset(rows)
  {
    if rows != [] {
      var most, last := rows[..|rows| - 1], rows[|rows| - 1];
      NewestFirstSorts(most);
      InsertElements(last, NewestFirst(most));
      InsertDescends(last, NewestFirst(most));
      assert rows == most + [last];
    }
  }

  ghost predicate LatestAtFront(log: seq<Tombstone>) {
    forall i, j | 0 <= i < j < |log| :: log[i].deletedAt >= log[j].deletedAt
  }

  lemma BuryFront(t: Tombstone, log: seq<Tombstone>)
    requires LatestAtFront(log) && forall x | x in log :: t.deletedAt >= x.deletedAt
    ensures LatestAtFront([t] + log)
  {
  }

  lemma {:induction false} InsertTombstoneFacts(t: Tombstone, log: seq<Tombstone>)
    requires LatestAtFront(log)
    ensures LatestAtFront(InsertTombstone(t, log))
    ensures forall x | x in InsertTombstone(t, log) :: x == t || x in log
  {
    if log != [] && t.deletedAt <= log[0].deletedAt {
      InsertTombstoneFacts(t, log[1..]);
      BuryFront(log[0], InsertTombstone(t, log[1..]));
    } else {
      BuryFront(t, log);
    }
  }

  lemma {:induction false} InsertTombstoneElements(t: Tombstone, log: seq<Tombstone>)
    ensures multiset(InsertTombstone(t, log)) == multiset(log) + multiset{t}
  {
    if log != [] && t.deletedAt <= log[0].deletedAt {
      InsertTombstoneElements(t, log[1..]);
      assert log == [log[0]] + log[1..];
    }
  }

  /** The deletion log is shown with the latest deletion first, each entry once. */
  lemma {:induction false} LatestFirstSorts(log: seq<Tombstone>)
    ensures LatestAtFront(LatestFirst(log)) && multiset(LatestFirst(log)) == multiset(log)
  {
    if log != [] {
      var most, last := log[..|log| - 1], log[|log| - 1];
      LatestFirstSorts(most);
      InsertTombstoneFacts(last, LatestFirst(most));
      InsertTombstoneElements(last, LatestFirst(most));
      assert log == most + [last];
    }
  }
}
