/**
 The deletion log over interleaved handlers: each one finds and checks in one step and mutates in a
 later one, so the row may have been changed or removed in between by another handler.
 */
module TaskHistory {
  import opened Options
  import opened TaskStore

  type Pid = nat

  datatype Pc = Finding | Mutating(plan: Plan) | Done(response: Response)
  datatype Proc = Proc(user: User, q: Request, pc: Pc)

  /**
   `created` remembers who created each id, `writes` every row as a successful create or update
   returned it, `removedBy` which handler's statement removed each row.
   */
  datatype System = System(
    store: Store, procs: map<Pid, Proc>,
    created: map<Id, UserId>, writes: seq<Task>, removedBy: map<Id, Pid>)

  datatype Event =
    | Begin(pid: Pid, user: User, q: Request)
    | Look(pid: Pid, readOk: bool)
    | Mutate(pid: Pid, db: Db)

  const EMPTY := System(Store([], []), map[], map[], [], map[])

  function Move(s: System, pid: Pid, pc: Pc): System
    requires pid in s.procs
  {
    s.(procs := s.procs[pid := s.procs[pid].(pc := pc)])
  }

  function Step(s: System, e: Event): System {
    match e
    case Begin(pid, user, q) => if pid in s.procs then s else s.(procs := s.procs[pid := Proc(user, q, Finding)])
    case Look(pid, readOk) =>
      if pid !in s.procs || s.procs[pid].pc != Finding then s
      else
        var plan := Decide(s.store, s.procs[pid].user, s.procs[pid].q, readOk);
        Move(s, pid, if plan.Answer? then Done(plan.r) else Mutating(plan))
    case Mutate(pid, db) =>
      if pid !in s.procs || !s.procs[pid].pc.Mutating? then s
      else Mutated(s, pid, s.procs[pid].user, s.procs[pid].pc.plan, db)
  }

  /** The statement runs against the store as it is now. A random id that was drawn before is not drawn again. */
  function Mutated(s: System, pid: Pid, u: User, plan: Plan, db: Db): System
    requires pid in s.procs
  {
    if plan.Insert? && db.newId in s.created then s
    else
      var result := Execute(s.store, u, plan, db);
      var t := Move(s, pid, Done(result.response)).(store := result.store);
      match result.response
      case Created(row) => t.(created := s.created[row.id := u.id], writes := s.writes + [row])
      case One(row) => t.(writes := s.writes + [row])
      case Deleted => if plan.Destroy? then t.(removedBy := s.removedBy[plan.id := pid]) else t
      case _ => t
  }

  function Run(s: System, es: seq<Event>): System {
    if es == [] then s else Step(Run(s, es[..|es| - 1]), es[|es| - 1])
  }

  // ----- The tables -----

  ghost predicate IsLogged(log: seq<Tombstone>, id: Id) {
    exists i | 0 <= i < |log| :: log[i].taskId == id
  }

  /** The last row written under an id. */
  function LastWrite(writes: seq<Task>, id: Id): Option<Task> {
    if writes == [] then None
    else if writes[|writes| - 1].id == id then Some(writes[|writes| - 1])
    else LastWrite(writes[..|writes| - 1], id)
  }

  lemma WriteMore(writes: seq<Task>, t: Task, id: Id)
    ensures LastWrite(writes + [t], id) == if t.id == id then Some(t) else LastWrite(writes, id)
  {
    assert (writes + [t])[..|writes + [t]| - 1] == writes;
  }

  /** A live row belongs to its creator and is what was last written. */
  ghost predicate LiveOk(tasks: seq<Task>, created: map<Id, UserId>, writes: seq<Task>) {
    && Keyed(tasks)
    && forall id | Has(tasks, id) ::
         && id in created && FindById(tasks, id).value.owner == Some(created[id])
         && LastWrite(writes, id) == FindById(tasks, id)
  }

  /** The tombstone of a row is a copy of what was last written. */
  ghost predicate Commemorates(d: Tombstone, created: map<Id, UserId>, writes: seq<Task>) {
    && d.taskId in created && d.owner == Some(created[d.taskId])
    && LastWrite(writes, d.taskId).Some?
    && d == Buried(LastWrite(writes, d.taskId).value, d.deletedAt)
  }

  ghost predicate LogOk(log: seq<Tombstone>, created: map<Id, UserId>, writes: seq<Task>) {
    && (forall i | 0 <= i < |log| :: Commemorates(log[i], created, writes))
    && (forall i, j | 0 <= i < j < |log| :: log[i].taskId != log[j].taskId)
  }

  /** Every created row is live or logged, and not both. */
  ghost predicate Covered(s: Store, created: map<Id, UserId>) {
    forall id | id in created :: Has(s.tasks, id) <==> !IsLogged(s.deleted, id)
  }

  ghost predicate TablesOk(s: Store, created: map<Id, UserId>, writes: seq<Task>) {
    LiveOk(s.tasks, created, writes) && LogOk(s.deleted, created, writes) && Covered(s, created)
  }

  lemma LogUnwritten(log: seq<Tombstone>, created: map<Id, UserId>, writes: seq<Task>, t: Task,
                     created': map<Id, UserId>)
    requires LogOk(log, created, writes) && !IsLogged(log, t.id)
    requires forall id | id in created :: id in created' && created'[id] == created[id]
    ensures LogOk(log, created', writes + [t])
  {
    forall i | 0 <= i < |log|
      ensures Commemorates(log[i], created', writes + [t])
    {
      assert Commemorates(log[i], created, writes);
      WriteMore(writes, t, log[i].taskId);
    }
  }

  lemma InsertOk(s: Store, created: map<Id, UserId>, writes: seq<Task>, t: Task, owner: UserId)
    requires TablesOk(s, created, writes) && t.id !in created && t.owner == Some(owner)
    ensures TablesOk(s.(tasks := s.tasks + [t]), created[t.id := owner], writes + [t])
  {
    var tasks := s.tasks + [t];
    forall id
      ensures FindById(tasks, id) == if t.id == id then Some(t) else FindById(s.tasks, id)
      ensures LastWrite(writes + [t], id) == if t.id == id then Some(t) else LastWrite(writes, id)
    {
      FindAppended(s.tasks, t, id);
      WriteMore(writes, t, id);
    }
    assert !IsLogged(s.deleted, t.id);
    LogUnwritten(s.deleted, created, writes, t, created[t.id := owner]);
    forall i | 0 <= i < |s.tasks|
      ensures s.tasks[i].id != t.id
    {
      FindRow(s.tasks, i);
    }
  }

  lemma ChangeOk(s: Store, created: map<Id, UserId>, writes: seq<Task>, id: Id, p: Patch, now: int)
    requires TablesOk(s, created, writes) && Has(s.tasks, id)
    ensures TablesOk(s.(tasks := UpdateRows(s.tasks, id, p, now)), created,
                     writes + [Patched(FindById(s.tasks, id).value, p, now)])
  {
    var tasks := UpdateRows(s.tasks, id, p, now);
    var row := Patched(FindById(s.tasks, id).value, p, now);
    UpdateFacts(s.tasks, id, p, now);
    forall k
      ensures FindById(tasks, k) == if k == id then Some(row) else FindById(s.tasks, k)
      ensures LastWrite(writes + [row], k) == if k == id then Some(row) else LastWrite(writes, k)
    {
      FindUpdated(s.tasks, id, p, now, k);
      WriteMore(writes, row, k);
    }
    LogUnwritten(s.deleted, created, writes, row, created);
  }

  lemma LoggedMore(log: seq<Tombstone>, d: Tombstone, id: Id)
    ensures IsLogged(log + [d], id) <==> IsLogged(log, id) || d.taskId == id
  {
    if IsLogged(log, id) {
      var i :| 0 <= i < |log| && log[i].taskId == id;
      assert (log + [d])[i].taskId == id;
    }
    assert (log + [d])[|log|] == d;
  }

  lemma DestroyOk(s: Store, created: map<Id, UserId>, writes: seq<Task>, id: Id, now: int)
    requires TablesOk(s, created, writes) && Has(s.tasks, id)
    ensures TablesOk(Store(RemoveRows(s.tasks, id), s.deleted + [Buried(FindById(s.tasks, id).value, now)]),
                     created, writes)
  {
    var d := Buried(FindById(s.tasks, id).value, now);
    RemoveKeeps(s.tasks, id);
    forall k
      ensures FindById(RemoveRows(s.tasks, id), k) == if k == id then None else FindById(s.tasks, k)
      ensures IsLogged(s.deleted + [d], k) <==> IsLogged(s.deleted, k) || k == id
    {
      FindRemoved(s.tasks, id, k);
      LoggedMore(s.deleted, d, k);
    }
    DestroyLogOk(s, created, writes, id, now);
  }

  lemma DestroyLogOk(s: Store, created: map<Id, UserId>, writes: seq<Task>, id: Id, now: int)
    requires TablesOk(s, created, writes) && Has(s.tasks, id)
    ensures LogOk(s.deleted + [Buried(FindById(s.tasks, id).value, now)], created, writes)
  {
    assert Commemorates(Buried(FindById(s.tasks, id).value, now), created, writes);
    assert !IsLogged(s.deleted, id);
  }

  // ----- The handlers -----

  /** A handler about to mutate was allowed to, and still is: owners never change. */
  ghost predicate PlanOk(s: System, p: Proc) {
    p.pc.Mutating? ==>
      && !p.pc.plan.Answer?
      && (p.pc.plan.Insert? ==> p.q.Create?)
      && (p.pc.plan.Change? ==> p.q.Update?)
      && (p.pc.plan.Destroy? ==> p.q == Delete(Uuid(p.pc.plan.id)))
      && (p.pc.plan.Change? || p.pc.plan.Destroy? ==>
            p.pc.plan.id in s.created && (p.user.role == ADMIN || s.created[p.pc.plan.id] == p.user.id))
  }

  /** A finished delete succeeded exactly if it removed the row. */
  ghost predicate DeleteOk(s: System, pid: Pid) {
    pid in s.procs && s.procs[pid].q.Delete? && s.procs[pid].pc.Done? ==>
      var q, r := s.procs[pid].q, s.procs[pid].pc.response;
      if r.Deleted? then q.param.Uuid? && q.param.id in s.removedBy && s.removedBy[q.param.id] == pid
      else (r.BadId? && q.param.Malformed?) || r.NotFound? || r.ServerError?
  }

  ghost predicate RemoverOk(s: System, id: Id) {
    id in s.removedBy ==>
      var pid := s.removedBy[id];
      pid in s.procs && s.procs[pid].q == Delete(Uuid(id)) && s.procs[pid].pc == Done(Deleted)
  }

  ghost predicate ProcsOk(s: System) {
    && (forall pid | pid in s.procs :: PlanOk(s, s.procs[pid]))
    && (forall pid :: DeleteOk(s, pid))
    && (forall id: Id :: RemoverOk(s, id))
    && (forall id: Id :: id in s.removedBy <==> IsLogged(s.store.deleted, id))
  }

  ghost predicate Inv(s: System) {
    TablesOk(s.store, s.created, s.writes) && ProcsOk(s)
  }

  /** A statement that fails touches no table. */
  lemma FailedMutation(s: System, pid: Pid, u: User, plan: Plan, db: Db)
    requires pid in s.procs && !plan.Answer?
    requires plan.Insert? ==> db.newId in s.created || !db.writeOk || Has(s.store.tasks, db.newId)
    requires !plan.Insert? ==> !db.writeOk || !Has(s.store.tasks, plan.id)
    ensures var t := Mutated(s, pid, u, plan, db);
            t.store == s.store && t.created == s.created && t.writes == s.writes
  {
  }

  lemma InsertMutation(s: System, pid: Pid, u: User, fields: NewTask, db: Db)
    requires pid in s.procs && db.writeOk && db.newId !in s.created && !Has(s.store.tasks, db.newId)
    ensures var t, row := Mutated(s, pid, u, Insert(fields), db), Inserted(fields, u.id, db.newId, db.now);
            && t.store == s.store.(tasks := s.store.tasks + [row])
            && t.created == s.created[row.id := u.id] && t.writes == s.writes + [row]
  {
  }

  lemma ChangeMutation(s: System, pid: Pid, u: User, id: Id, p: Patch, db: Db)
    requires pid in s.procs && db.writeOk && Has(s.store.tasks, id)
    ensures var t := Mutated(s, pid, u, Change(id, p), db);
            && t.store == s.store.(tasks := UpdateRows(s.store.tasks, id, p, db.now))
            && t.created == s.created && t.writes == s.writes + [Patched(FindById(s.store.tasks, id).value, p, db.now)]
  {
  }

  lemma DestroyMutation(s: System, pid: Pid, u: User, id: Id, db: Db)
    requires pid in s.procs && db.writeOk && Has(s.store.tasks, id)
    ensures var t := Mutated(s, pid, u, Destroy(id), db);
            && t.procs == s.procs[pid := s.procs[pid].(pc := Done(Deleted))] && t.created == s.created
            && t.removedBy == s.removedBy[id := pid] && t.writes == s.writes
            && t.store.tasks == RemoveRows(s.store.tasks, id)
            && t.store.deleted == s.store.deleted + [Buried(FindById(s.store.tasks, id).value, db.now)]
  {
  }

  lemma MutatedTables(s: System, pid: Pid, u: User, plan: Plan, db: Db)
    requires TablesOk(s.store, s.created, s.writes) && pid in s.procs && !plan.Answer?
    ensures var t := Mutated(s, pid, u, plan, db); TablesOk(t.store, t.created, t.writes)
  {
    if plan.Insert? && db.writeOk && db.newId !in s.created && !Has(s.store.tasks, db.newId) {
      InsertMutation(s, pid, u, plan.fields, db);
      InsertOk(s.store, s.created, s.writes, Inserted(plan.fields, u.id, db.newId, db.now), u.id);
    } else if plan.Change? && db.writeOk && Has(s.store.tasks, plan.id) {
      ChangeMutation(s, pid, u, plan.id, plan.p, db);
      ChangeOk(s.store, s.created, s.writes, plan.id, plan.p, db.now);
    } else if plan.Destroy? && db.writeOk && Has(s.store.tasks, plan.id) {
      DestroyMutation(s, pid, u, plan.id, db);
      DestroyOk(s.store, s.created, s.writes, plan.id, db.now);
    } else {
      FailedMutation(s, pid, u, plan, db);
    }
  }

  /** One handler moves on; the tables and the other handlers' business stay as they were. */
  lemma MoveProcs(s: System, t: System, pid: Pid)
    requires ProcsOk(s) && pid in t.procs && t.procs == s.procs[pid := t.procs[pid]]
    requires pid in s.procs ==> !s.procs[pid].pc.Done?
    requires forall id | id in s.created :: id in t.created && t.created[id] == s.created[id]
    requires t.removedBy == s.removedBy
    requires forall id: Id :: IsLogged(t.store.deleted, id) <==> IsLogged(s.store.deleted, id)
    requires PlanOk(t, t.procs[pid]) && DeleteOk(t, pid)
    ensures ProcsOk(t)
  {
    forall k | k in t.procs
      ensures PlanOk(t, t.procs[k])
    {
      assert k != pid ==> PlanOk(s, s.procs[k]);
    }
    forall k
      ensures DeleteOk(t, k)
    {
      assert DeleteOk(s, k);
    }
    forall id: Id
      ensures RemoverOk(t, id)
    {
      assert RemoverOk(s, id);
    }
  }

  lemma DestroyProcs(s: System, t: System, pid: Pid, id: Id, d: Tombstone)
    requires ProcsOk(s) && pid in s.procs && s.procs[pid].pc == Mutating(Destroy(id))
    requires t.procs == s.procs[pid := s.procs[pid].(pc := Done(Deleted))] && t.created == s.created
    requires !IsLogged(s.store.deleted, id) && d.taskId == id
    requires t.removedBy == s.removedBy[id := pid] && t.store.deleted == s.store.deleted + [d]
    ensures ProcsOk(t)
  {
    assert PlanOk(s, s.procs[pid]) && id !in s.removedBy;
    forall k | k in t.procs
      ensures PlanOk(t, t.procs[k])
    {
      assert PlanOk(s, s.procs[k]);
    }
    forall k
      ensures DeleteOk(t, k)
    {
      assert DeleteOk(s, k);
    }
    forall k: Id
      ensures RemoverOk(t, k) && (k in t.removedBy <==> IsLogged(t.store.deleted, k))
    {
      assert RemoverOk(s, k);
      LoggedMore(s.store.deleted, d, k);
    }
  }

  /** A statement that removes nothing only finishes its handler and may create a row. */
  lemma QuietMutation(s: System, pid: Pid, u: User, plan: Plan, db: Db)
    requires pid in s.procs && s.procs[pid].user == u && !plan.Answer?
    requires !(plan.Destroy? && db.writeOk && Has(s.store.tasks, plan.id))
    ensures var t := Mutated(s, pid, u, plan, db);
            t == s || (&& t.procs == s.procs[pid := s.procs[pid].(pc := Done(t.procs[pid].pc.response))]
                       && t.removedBy == s.removedBy && t.store.deleted == s.store.deleted
                       && (forall id | id in s.created :: id in t.created && t.created[id] == s.created[id])
                       && (plan.Destroy? ==> t.procs[pid].pc.response == ServerError))
  {
  }

  lemma MutatedProcs(s: System, pid: Pid, plan: Plan, db: Db)
    requires Inv(s) && pid in s.procs && s.procs[pid].pc == Mutating(plan)
    ensures ProcsOk(Mutated(s, pid, s.procs[pid].user, plan, db))
  {
    var u := s.procs[pid].user;
    var t := Mutated(s, pid, u, plan, db);
    assert PlanOk(s, s.procs[pid]);
    if plan.Destroy? && db.writeOk && Has(s.store.tasks, plan.id) {
      DestroyMutation(s, pid, u, plan.id, db);
      DestroyProcs(s, t, pid, plan.id, Buried(FindById(s.store.tasks, plan.id).value, db.now));
    } else {
      QuietMutation(s, pid, u, plan, db);
      if t != s {
        MoveProcs(s, t, pid);
      }
    }
  }

  lemma LookStep(s: System, pid: Pid, readOk: bool)
    requires Inv(s) && pid in s.procs && s.procs[pid].pc == Finding
    ensures ProcsOk(Step(s, Look(pid, readOk)))
  {
    MoveProcs(s, Step(s, Look(pid, readOk)), pid);
  }

  lemma {:induction false} InvRun(es: seq<Event>)
    ensures Inv(Run(EMPTY, es))
  {
    if es != [] {
      var s, e := Run(EMPTY, es[..|es| - 1]), es[|es| - 1];
      InvRun(es[..|es| - 1]);
      if e.Begin? && e.pid !in s.procs {
        MoveProcs(s, Step(s, e), e.pid);
      } else if e.Look? && e.pid in s.procs && s.procs[e.pid].pc == Finding {
        LookStep(s, e.pid, e.readOk);
      } else if e.Mutate? && e.pid in s.procs && s.procs[e.pid].pc.Mutating? {
        assert PlanOk(s, s.procs[e.pid]);
        MutatedTables(s, e.pid, s.procs[e.pid].user, s.procs[e.pid].pc.plan, e.db);
        MutatedProcs(s, e.pid, s.procs[e.pid].pc.plan, e.db);
      }
    }
  }

  // ----- Main results -----

  /** The ids ever created are the disjoint union of the live and the logged ones, each once. */
  lemma LiveOrLogged(es: seq<Event>, id: Id)
    ensures var s := Run(EMPTY, es);
            && (id in s.created <==> Has(s.store.tasks, id) || IsLogged(s.store.deleted, id))
            && !(Has(s.store.tasks, id) && IsLogged(s.store.deleted, id))
            && Keyed(s.store.tasks)
            && forall i, j | 0 <= i < j < |s.store.deleted| :: s.store.deleted[i].taskId != s.store.deleted[j].taskId
  {
    InvRun(es);
    var s := Run(EMPTY, es);
    if IsLogged(s.store.deleted, id) {
      var i :| 0 <= i < |s.store.deleted| && s.store.deleted[i].taskId == id;
      assert Commemorates(s.store.deleted[i], s.created, s.writes);
    }
  }

  /** A tombstone holds the row exactly as the last successful create or update returned it, owner included. */
  lemma LoggedWithLastValues(es: seq<Event>, i: nat)
    ensures var s := Run(EMPTY, es);
            i < |s.store.deleted| ==> Commemorates(s.store.deleted[i], s.created, s.writes)
  {
    InvRun(es);
  }

  /** The handler answered "deleted" for this id. */
  predicate Deleter(s: System, pid: Pid, id: Id) {
    pid in s.procs && s.procs[pid] == Proc(s.procs[pid].user, Delete(Uuid(id)), Done(Deleted))
  }

  /** However many deletes of one task overlap, exactly one answers success if the row is gone, none otherwise. */
  lemma OneDeleteSucceeds(es: seq<Event>, id: Id)
    ensures var s := Run(EMPTY, es);
            && (IsLogged(s.store.deleted, id) <==> exists pid :: Deleter(s, pid, id))
            && (forall p, q | Deleter(s, p, id) && Deleter(s, q, id) :: p == q)
            && (forall pid | pid in s.procs && s.procs[pid].q == Delete(Uuid(id)) && s.procs[pid].pc.Done? ::
                  Deleter(s, pid, id) || s.procs[pid].pc.response.NotFound? || s.procs[pid].pc.response.ServerError?)
  {
    InvRun(es);
    var s := Run(EMPTY, es);
    if IsLogged(s.store.deleted, id) {
      assert RemoverOk(s, id);
      assert Deleter(s, s.removedBy[id], id);
    }
    forall pid | pid in s.procs && s.procs[pid].q == Delete(Uuid(id)) && s.procs[pid].pc.Done?
      ensures Deleter(s, pid, id) ==> id in s.removedBy && s.removedBy[id] == pid
      ensures Deleter(s, pid, id) || s.procs[pid].pc.response.NotFound? || s.procs[pid].pc.response.ServerError?
    {
      assert DeleteOk(s, pid);
    }
  }

  lemma MutationTarget(s: Store, u: User, plan: Plan, db: Db, id: Id)
    requires FindById(Execute(s, u, plan, db).store.tasks, id) != FindById(s.tasks, id)
    ensures (plan.Insert? && !Has(s.tasks, id) && db.newId == id)
         || ((plan.Change? || plan.Destroy?) && plan.id == id)
  {
    if plan.Insert? {
      FindAppended(s.tasks, Inserted(plan.fields, u.id, db.newId, db.now), id);
    } else if plan.Change? {
      FindUpdated(s.tasks, plan.id, plan.p, db.now, id);
    } else if plan.Destroy? {
      FindRemoved(s.tasks, plan.id, id);
    }
  }

  lemma MutatedOwner(s: System, pid: Pid, p: Proc, db: Db, id: Id)
    requires pid in s.procs && p.pc.Mutating? && PlanOk(s, p)
    requires FindById(Mutated(s, pid, p.user, p.pc.plan, db).store.tasks, id) != FindById(s.store.tasks, id)
    ensures var t := Mutated(s, pid, p.user, p.pc.plan, db);
            id in t.created && (p.user.role == ADMIN || t.created[id] == p.user.id)
  {
    var plan := p.pc.plan;
    MutationTarget(s.store, p.user, plan, db, id);
    if plan.Insert? {
      if db.newId in s.created || !db.writeOk {
        FailedMutation(s, pid, p.user, plan, db);
      } else {
        InsertMutation(s, pid, p.user, plan.fields, db);
      }
    } else {
      CreatedKept(s, pid, p.user, plan, db);
    }
  }

  lemma CreatedKept(s: System, pid: Pid, u: User, plan: Plan, db: Db)
    requires pid in s.procs && (plan.Change? || plan.Destroy?)
    ensures Mutated(s, pid, u, plan, db).created == s.created
  {
  }

  /** Only a mutation step touches the store. */
  lemma OtherStepsKeepStore(s: System, e: Event)
    requires Step(s, e).store != s.store
    ensures e.Mutate? && e.pid in s.procs && s.procs[e.pid].pc.Mutating?
    ensures Step(s, e) == Mutated(s, e.pid, s.procs[e.pid].user, s.procs[e.pid].pc.plan, e.db)
  {
  }

  /** Whatever changes a row, in any interleaving, is a statement by the row's creator or by an ADMIN. */
  lemma OnlyOwnerOrAdmin(es: seq<Event>, e: Event, id: Id)
    requires FindById(Step(Run(EMPTY, es), e).store.tasks, id) != FindById(Run(EMPTY, es).store.tasks, id)
    ensures var s, t := Run(EMPTY, es), Step(Run(EMPTY, es), e);
            && e.Mutate? && e.pid in s.procs && id in t.created
            && (s.procs[e.pid].user.role == ADMIN || t.created[id] == s.procs[e.pid].user.id)
  {
    InvRun(es);
    var s := Run(EMPTY, es);
    OtherStepsKeepStore(s, e);
    assert PlanOk(s, s.procs[e.pid]);
    MutatedOwner(s, e.pid, s.procs[e.pid], e.db, id);
  }

  lemma CreatorsStay(s: System, e: Event, id: Id)
    requires Inv(s) && id in s.created
    ensures id in Step(s, e).created && Step(s, e).created[id] == s.created[id]
  {
    if e.Mutate? && e.pid in s.procs && s.procs[e.pid].pc.Mutating? {
      assert PlanOk(s, s.procs[e.pid]);
      MutatedCreators(s, e.pid, s.procs[e.pid].user, s.procs[e.pid].pc.plan, e.db, id);
    }
  }

  lemma MutatedCreators(s: System, pid: Pid, u: User, plan: Plan, db: Db, id: Id)
    requires pid in s.procs && !plan.Answer? && id in s.created
    ensures var t := Mutated(s, pid, u, plan, db); id in t.created && t.created[id] == s.created[id]
  {
  }

  lemma LiveOwner(s: System, id: Id)
    requires Inv(s) && Has(s.store.tasks, id)
    ensures id in s.created && FindById(s.store.tasks, id).value.owner == Some(s.created[id])
  {
  }

  /** Owners never change: a live row still belongs to whoever created it. */
  lemma {:induction false} OwnersStay(es: seq<Event>, more: seq<Event>, id: Id)
    requires id in Run(EMPTY, es).created
    ensures var s, t := Run(EMPTY, es), Run(EMPTY, es + more);
            && id in t.created && t.created[id] == s.created[id]
            && (Has(t.store.tasks, id) ==> FindById(t.store.tasks, id).value.owner == Some(s.created[id]))
  {
    InvRun(es + more);
    if more == [] {
      assert es + more == es;
    } else {
      var most := more[..|more| - 1];
      OwnersStay(es, most, id);
      InvRun(es + most);
      CreatorsStay(Run(EMPTY, es + most), more[|more| - 1], id);
      RunMore(es, more);
    }
    if Has(Run(EMPTY, es + more).store.tasks, id) {
      LiveOwner(Run(EMPTY, es + more), id);
    }
  }

  lemma RunMore(es: seq<Event>, more: seq<Event>)
    requires more != []
    ensures Run(EMPTY, es + more) == Step(Run(EMPTY, es + more[..|more| - 1]), more[|more| - 1])
  {
    assert (es + more)[..|es + more| - 1] == es + more[..|more| - 1];
  }

  /** Without interruption the two steps are one request of the sequential handler. */
  lemma UninterruptedIsHandle(s: System, pid: Pid, db: Db)
    requires pid in s.procs && s.procs[pid].pc == Finding
    requires s.procs[pid].q.Create? ==> db.newId !in s.created
    ensures var t := Step(Step(s, Look(pid, db.readOk)), Mutate(pid, db));
            && t.store == Handle(s.store, Call(s.procs[pid].user, s.procs[pid].q, db)).store
            && t.procs[pid].pc == Done(Handle(s.store, Call(s.procs[pid].user, s.procs[pid].q, db)).response)
  {
  }
}
