/**
 The worker's handling of one job, as the program text runs it on its own connection, and as
 five steps of `Cluster` that nothing interrupts: both come to the same.
 */
module WorkerProcess {
  import opened Schema
  import opened AuditChain
  import opened AuditTrail
  import opened Database
  import Cluster
  import ErasureSafety
  import Gateway

  /** A job's data, and what the database adds: ids and the audit trigger's choice. */
  datatype Input = Input(tenant: Uuid, workflow: Uuid, requestedBy: Uuid, logId: Uuid, auditId: Uuid, pick: Option<Key>)

  function LogKey(i: Input): Key {
    Key(ExecutionLogs, i.tenant, i.logId)
  }

  function AuditKey(i: Input): Key {
    Key(AuditLog, i.tenant, i.auditId)
  }

  function LogInsert(i: Input, now: int): Statement {
    Insert(ExecutionLogs, i.tenant, i.logId, Cluster.ExecutionOf(i.workflow, now))
  }

  function ExecutedEvent(i: Input, now: int): Event {
    Cluster.ExecutedEvent(i.tenant, i.auditId, i.requestedBy, i.workflow, now)
  }

  /** The workflow is the tenant's, the tenant exists, and the two new keys are free. */
  predicate CanRun(store: Store, i: Input) {
    && Key(Workflows, i.tenant, i.workflow) in store
    && TenantKey(i.tenant) in store
    && LogKey(i) !in store && AuditKey(i) !in store
  }

  /** The store with the execution's row and its audit entry, if it can run; else as it was. */
  function Executed(h: Hasher, store: Store, i: Input, now: int): Store
    requires i.pick.Some? ==> i.pick.value in AuditOf(store)
  {
    if CanRun(store, i)
    then store[LogKey(i) := LogInsert(i, now).row][AuditKey(i) := AuditRowFor(h, store, ExecutedEvent(i, now), i.pick)]
    else store
  }

  /** The two rows' columns: the run's, with thirty days to live, and the entry of who ran what,
      linked to the picked one. */
  lemma ExecutedColumns(h: Hasher, store: Store, i: Input, now: int)
    requires CanRun(store, i) && (i.pick.Some? ==> i.pick.value in AuditOf(store))
    ensures
      var after := Executed(h, store, i, now);
      var (log, entry) := (Key(ExecutionLogs, i.tenant, i.logId), Key(AuditLog, i.tenant, i.auditId));
      && after.Keys == store.Keys + {log, entry} && (forall k | k in store :: after[k] == store[k])
      && after[log] == ExecutionRow(i.workflow, now, Some(now + 30 * 24 * 60 * 60 * 1000000))
      && after[entry].AuditEntry?
      && after[entry].audit.event == Event(i.tenant, i.auditId, Some(i.requestedBy), "workflow.executed", "workflow",
                                           Some(i.workflow), None, None, now)
      && after[entry].audit.previousHash
           == (if i.pick.None? then None else AuditOf(store)[i.pick.value].currentHash)
      && after[entry].audit.currentHash == Some(h(after[entry].audit.previousHash, after[entry].audit.event))
  {
  }

  /** A workflow is found by its id exactly if it is the tenant's. */
  lemma CheckAlone(h: Hasher, store: Store, i: Input, now: int)
    requires WellTyped(store)
    ensures var e := Exec(h, store, {}, i.tenant, now, Select(Workflows, Some(i.workflow)));
      && e.outcome.Rows? && e.changes == map[]
      && (e.outcome.rows != map[] <==> Key(Workflows, i.tenant, i.workflow) in store)
  {
    var k := Key(Workflows, i.tenant, i.workflow);
    var found := Targets(store, i.tenant, Workflows, Some(i.workflow));
    assert found == if k in store then {k} else {};
    assert k in store ==> k in (map r | r in found :: store[r]);
  }

  lemma OverlayInserts(store: Store, a: Key, x: Row, b: Key, y: Row)
    ensures Overlay(store, map[]) == store
    ensures Overlay(store, map[] + map[] + map[a := Some(x)]) == store[a := x]
    ensures Overlay(store, map[] + map[] + map[a := Some(x)] + map[b := Some(y)]) == store[a := x][b := y]
  {
  }

  lemma LogAlone(h: Hasher, store: Store, i: Input, now: int)
    ensures var e := Exec(h, store, {}, i.tenant, now, LogInsert(i, now));
      if TenantKey(i.tenant) in store && LogKey(i) !in store
      then e == Effect(Changed(1), map[LogKey(i) := Some(LogInsert(i, now).row)])
      else e == Effect(Failed, map[])
  {
  }

  lemma PickedAlone(store: Store, view: Store, i: Input, now: int)
    requires WellTyped(store) && IsLatest(AuditOf(store), i.tenant, i.pick)
    requires LogKey(i) !in store && view == store[LogKey(i) := LogInsert(i, now).row]
    ensures AuditOf(view) == AuditOf(store)
    ensures IsLatest(AuditShown(view, i.tenant), i.tenant, i.pick)
  {
    assert AuditOf(view) == AuditOf(store);
    forall k | k in AuditShown(view, i.tenant)
      ensures k in AuditOf(view) && AuditShown(view, i.tenant)[k] == AuditOf(view)[k]
    {}
  }

  lemma AuditAlone(h: Hasher, store: Store, view: Store, i: Input, now: int)
    requires WellTyped(store) && IsLatest(AuditOf(store), i.tenant, i.pick)
    requires TenantKey(i.tenant) in store && LogKey(i) !in store && view == store[LogKey(i) := LogInsert(i, now).row]
    ensures var e := Exec(h, view, {}, i.tenant, now, InsertAudit(ExecutedEvent(i, now), i.pick));
      if AuditKey(i) in store then e == Effect(Failed, map[])
      else e == Effect(Changed(1), map[AuditKey(i) := Some(AuditRowFor(h, store, ExecutedEvent(i, now), i.pick))])
  {
    PickedAlone(store, view, i, now);
    assert ExecutedEvent(i, now).(at := now) == ExecutedEvent(i, now);
    assert AuditKey(i) in view <==> AuditKey(i) in store;
  }

  class Worker {
    const db: Gateway.Client

    constructor (client: Gateway.Client)
      ensures db == client
    {
      db := client;
    }

    /** The job's function: it returns, or throws what the queue takes for a failed attempt. A
        job that can run leaves both rows; one that cannot, or whose connection breaks at one of
        the six queries, leaves the store as it was. If the reply to COMMIT is lost the rows are
        there although the function throws. */
    method Process(h: Hasher, i: Input, now: int, breaksAt: Option<nat>, acked: bool) returns (ok: bool)
      requires db.session == Gateway.Idle && WellTyped(db.store) && IsLatest(AuditOf(db.store), i.tenant, i.pick)
      modifies db
      ensures db.session == Gateway.Idle
      ensures ok <==> CanRun(old(db.store), i) && !Breaks(breaksAt, 6) && acked
      ensures db.store == if Breaks(breaksAt, 6) then old(db.store) else Executed(h, old(db.store), i, now)
    {
      ghost var store := db.store;
      assert Overlay(store, map[]) == store;
      CheckAlone(h, store, i, now);
      if Breaks(breaksAt, 1) {
        db.Rollback();
        return false;
      }
      db.Begin(now);
      if Breaks(breaksAt, 2) {
        db.Rollback();
        return false;
      }
      db.SetTenant(i.tenant);
      if Breaks(breaksAt, 3) {
        db.Rollback();
        return false;
      }
      var found := db.Query(h, Select(Workflows, Some(i.workflow)));
      if found.rows == map[] {
        db.Rollback();
        return false;
      }
      ok := Record(h, i, now, breaksAt, acked, store);
    }

    /** The two inserts, and COMMIT or ROLLBACK. */
    method Record(h: Hasher, i: Input, now: int, breaksAt: Option<nat>, acked: bool, ghost store: Store)
      returns (ok: bool)
      requires db.store == store && db.session == Gateway.InTransaction(Some(i.tenant), now, map[] + map[])
      requires WellTyped(store) && IsLatest(AuditOf(store), i.tenant, i.pick)
      requires Key(Workflows, i.tenant, i.workflow) in store && !Breaks(breaksAt, 3)
      modifies db
      ensures db.session == Gateway.Idle
      ensures ok <==> CanRun(store, i) && !Breaks(breaksAt, 6) && acked
      ensures db.store == if Breaks(breaksAt, 6) then store else Executed(h, store, i, now)
    {
      ghost var row := LogInsert(i, now).row;
      ghost var entry := AuditRowFor(h, store, ExecutedEvent(i, now), i.pick);
      OverlayInserts(store, LogKey(i), row, AuditKey(i), entry);
      LogAlone(h, store, i, now);
      if Breaks(breaksAt, 4) {
        db.Rollback();
        return false;
      }
      var logged := db.Query(h, LogInsert(i, now));
      if logged.Failed? || Breaks(breaksAt, 5) {
        db.Rollback();
        return false;
      }
      AuditAlone(h, store, store[LogKey(i) := row], i, now);
      var audited := db.Query(h, InsertAudit(ExecutedEvent(i, now), i.pick));
      if audited.Failed? || Breaks(breaksAt, 6) {
        db.Rollback();
        return false;
      }
      db.Commit();
      if !acked {
        db.Rollback();
        return false;
      }
      return true;
    }
  }

  // ---------------------------------------------------------------- the same in the cluster

  type State = Cluster.State
  type Session = Cluster.Session
  type JobId = Cluster.JobId

  /** The labels of an attempt from its start to its commit. */
  function Attempt(x: Session, j: JobId, i: Input, now: int, acked: bool): seq<Cluster.Label> {
    [Cluster.StartJob(x, j, now), Cluster.CheckWorkflow(x), Cluster.LogExecution(x, i.logId),
     Cluster.LogAudit(x, i.auditId, i.pick), Cluster.Finish(x, acked)]
  }

  /** A waiting job of the input's, and nobody else in the database. */
  ghost predicate Waits(h: Hasher, s: State, x: Session, j: JobId, i: Input) {
    && ErasureSafety.Safe(s) && s.txns == map[]
    && j in s.jobs && s.jobs[j].phase.Waiting?
    && j.tenant == i.tenant && x.tenant == i.tenant
    && s.jobs[j].workflow == i.workflow && s.jobs[j].requestedBy == i.requestedBy
    && IsLatest(AuditOf(s.store), i.tenant, i.pick)
  }

  /** The job while its attempt runs, and after an attempt that failed or was not acknowledged. */
  function Started(job: Cluster.Job): Cluster.Job {
    job.(attempts := job.attempts + 1, phase := Cluster.Active)
  }

  function Retried(job: Cluster.Job): Cluster.Job {
    Started(job).(phase := if job.attempts + 1 < Cluster.MAX_ATTEMPTS then Cluster.Waiting else Cluster.Dead)
  }

  /** The attempt's transaction at a stage. */
  function Running(s: State, x: Session, j: JobId, now: int, stage: Cluster.Stage, w: Writes): State
    requires j in s.jobs
  {
    s.(jobs := s.jobs[j := Started(s.jobs[j])], txns := map[x := Cluster.Txn(now, Cluster.Worker(j, stage), w)])
  }

  function Stopped(s: State, j: JobId): State
    requires j in s.jobs
  {
    s.(jobs := s.jobs[j := Retried(s.jobs[j])])
  }

  lemma FailStops(s: State, x: Session, j: JobId, now: int, stage: Cluster.Stage, w: Writes)
    requires j in s.jobs && s.txns == map[]
    ensures Cluster.FailAttempt(Running(s, x, j, now, stage, w), x, j) == Stopped(s, j)
  {
  }

  /** Alone, a worker's insert has the effect it has on the store by itself. */
  lemma InsertRuns(h: Hasher, s: State, x: Session, j: JobId, now: int, from: Cluster.Stage, w: Writes,
                   stmt: Statement, to: Cluster.Stage)
    requires j in s.jobs && s.txns == map[]
    ensures var r := Running(s, x, j, now, from, w);
      var e := Exec(h, Overlay(s.store, w), {}, x.tenant, now, stmt);
      && Cluster.EffectOf(h, r, x, stmt) == e
      && (e.outcome.Changed? ==>
            Cluster.WorkerInsert(r, x, j, e, to) == (Running(s, x, j, now, to, w + e.changes), e.outcome))
      && (e.outcome.Failed? ==> Cluster.WorkerInsert(r, x, j, e, to) == (Stopped(s, j), e.outcome))
  {
    var r := Running(s, x, j, now, from, w);
    assert Cluster.Held(r.txns, x) == {};
    FailStops(s, x, j, now, from, w);
    var txn := Cluster.Txn(now, Cluster.Worker(j, from), w);
    forall y: Cluster.Txn ensures map[x := txn][x := y] == map[x := y] {}
  }

  lemma CheckAfter(h: Hasher, s: State, x: Session, j: JobId, i: Input, now: int)
    requires Waits(h, s, x, j, i)
    ensures Cluster.StepCheckWorkflow(Running(s, x, j, now, Cluster.Started, map[]), x).0 == AfterCheck(s, x, j, i, now)
  {
    var r := Running(s, x, j, now, Cluster.Started, map[]);
    var k := Key(Workflows, i.tenant, i.workflow);
    assert Cluster.ViewOf(r, x) == s.store;
    assert Targets(s.store, i.tenant, Workflows, Some(i.workflow)) == if k in s.store then {k} else {};
    if k in s.store {
      var grown := Cluster.Txn(now, Cluster.Worker(j, Cluster.Checked), map[]);
      assert r.txns[x := grown] == map[x := grown];
      var none: Writes := map[];
      assert none + none == none;
    } else {
      FailStops(s, x, j, now, Cluster.Started, map[]);
    }
  }

  lemma LogRuns(h: Hasher, s: State, x: Session, j: JobId, i: Input, now: int)
    requires Waits(h, s, x, j, i)
    ensures Cluster.StepLogExecution(h, Running(s, x, j, now, Cluster.Checked, map[]), x, i.logId).0 ==
      if TenantKey(i.tenant) in s.store && LogKey(i) !in s.store
      then Running(s, x, j, now, Cluster.Logged, map[LogKey(i) := Some(LogInsert(i, now).row)])
      else Stopped(s, j)
  {
    assert Overlay(s.store, map[]) == s.store;
    LogAlone(h, s.store, i, now);
    InsertRuns(h, s, x, j, now, Cluster.Checked, map[], LogInsert(i, now), Cluster.Logged);
    assert map[] + map[LogKey(i) := Some(LogInsert(i, now).row)] == map[LogKey(i) := Some(LogInsert(i, now).row)];
  }

  lemma AuditRuns(h: Hasher, s: State, x: Session, j: JobId, i: Input, now: int)
    requires Waits(h, s, x, j, i) && TenantKey(i.tenant) in s.store && LogKey(i) !in s.store
    ensures
      var w: Writes := map[LogKey(i) := Some(LogInsert(i, now).row)];
      Cluster.StepLogAudit(h, Running(s, x, j, now, Cluster.Logged, w), x, i.auditId, i.pick).0 ==
        if AuditKey(i) in s.store then Stopped(s, j)
        else Running(s, x, j, now, Cluster.Audited,
                     w + map[AuditKey(i) := Some(AuditRowFor(h, s.store, ExecutedEvent(i, now), i.pick))])
  {
    var w: Writes := map[LogKey(i) := Some(LogInsert(i, now).row)];
    var view := s.store[LogKey(i) := LogInsert(i, now).row];
    assert Overlay(s.store, w) == view;
    AuditAlone(h, s.store, view, i, now);
    InsertRuns(h, s, x, j, now, Cluster.Logged, w, InsertAudit(ExecutedEvent(i, now), i.pick), Cluster.Audited);
  }

  /** The commit, acknowledged or not. */
  function Finished(s: State, j: JobId, store: Store, acked: bool): State
    requires j in s.jobs
  {
    var job := if acked then Started(s.jobs[j]).(phase := Cluster.Completed)
               else Retried(s.jobs[j]).(lostAcks := s.jobs[j].lostAcks + 1);
    s.(store := store, jobs := s.jobs[j := job.(commits := s.jobs[j].commits + 1)], committed := s.committed + [j])
  }

  lemma CommitRuns(s: State, x: Session, j: JobId, now: int, w: Writes, acked: bool)
    requires j in s.jobs && s.txns == map[]
    ensures Cluster.StepFinish(Running(s, x, j, now, Cluster.Audited, w), x, acked).0
         == Finished(s, j, Overlay(s.store, w), acked)
  {
  }

  lemma ExecutedOverlay(h: Hasher, store: Store, i: Input, now: int)
    requires CanRun(store, i) && (i.pick.Some? ==> i.pick.value in AuditOf(store))
    ensures
      var w: Writes := map[LogKey(i) := Some(LogInsert(i, now).row)];
      Overlay(store, w + map[AuditKey(i) := Some(AuditRowFor(h, store, ExecutedEvent(i, now), i.pick))])
        == Executed(h, store, i, now)
  {
  }

  /** The states after the attempt's second, third and fourth label. */
  function AfterCheck(s: State, x: Session, j: JobId, i: Input, now: int): State
    requires j in s.jobs
  {
    if Key(Workflows, i.tenant, i.workflow) in s.store then Running(s, x, j, now, Cluster.Checked, map[])
    else Stopped(s, j)
  }

  predicate CanLog(store: Store, i: Input) {
    Key(Workflows, i.tenant, i.workflow) in store && TenantKey(i.tenant) in store && LogKey(i) !in store
  }

  function AfterLog(s: State, x: Session, j: JobId, i: Input, now: int): State
    requires j in s.jobs
  {
    if CanLog(s.store, i)
    then Running(s, x, j, now, Cluster.Logged, map[LogKey(i) := Some(LogInsert(i, now).row)])
    else Stopped(s, j)
  }

  function AfterAudit(h: Hasher, s: State, x: Session, j: JobId, i: Input, now: int): State
    requires j in s.jobs && (i.pick.Some? ==> i.pick.value in AuditOf(s.store))
  {
    if CanRun(s.store, i)
    then Running(s, x, j, now, Cluster.Audited,
                 map[LogKey(i) := Some(LogInsert(i, now).row)]
                 + map[AuditKey(i) := Some(AuditRowFor(h, s.store, ExecutedEvent(i, now), i.pick))])
    else Stopped(s, j)
  }

  function AfterFinish(h: Hasher, s: State, j: JobId, i: Input, now: int, acked: bool): State
    requires j in s.jobs && (i.pick.Some? ==> i.pick.value in AuditOf(s.store))
  {
    if CanRun(s.store, i) then Finished(s, j, Executed(h, s.store, i, now), acked) else Stopped(s, j)
  }

  lemma CheckStep(h: Hasher, s: State, x: Session, j: JobId, i: Input, now: int)
    requires Waits(h, s, x, j, i)
    ensures Cluster.Step(h, Running(s, x, j, now, Cluster.Started, map[]), Cluster.CheckWorkflow(x)).0
         == AfterCheck(s, x, j, i, now)
  {
    CheckAfter(h, s, x, j, i, now);
  }

  lemma LogAfter(h: Hasher, s: State, x: Session, j: JobId, i: Input, now: int)
    requires Waits(h, s, x, j, i)
    ensures Cluster.StepLogExecution(h, AfterCheck(s, x, j, i, now), x, i.logId).0 == AfterLog(s, x, j, i, now)
  {
    if Key(Workflows, i.tenant, i.workflow) in s.store {
      LogRuns(h, s, x, j, i, now);
    }
  }

  lemma LogStep(h: Hasher, s: State, x: Session, j: JobId, i: Input, now: int)
    requires Waits(h, s, x, j, i)
    ensures Cluster.Step(h, AfterCheck(s, x, j, i, now), Cluster.LogExecution(x, i.logId)).0
         == AfterLog(s, x, j, i, now)
  {
    LogAfter(h, s, x, j, i, now);
  }

  lemma AuditAfter(h: Hasher, s: State, x: Session, j: JobId, i: Input, now: int)
    requires Waits(h, s, x, j, i)
    ensures Cluster.StepLogAudit(h, AfterLog(s, x, j, i, now), x, i.auditId, i.pick).0 == AfterAudit(h, s, x, j, i, now)
  {
    if CanLog(s.store, i) {
      AuditRuns(h, s, x, j, i, now);
    }
  }

  lemma AuditStep(h: Hasher, s: State, x: Session, j: JobId, i: Input, now: int)
    requires Waits(h, s, x, j, i)
    ensures Cluster.Step(h, AfterLog(s, x, j, i, now), Cluster.LogAudit(x, i.auditId, i.pick)).0
         == AfterAudit(h, s, x, j, i, now)
  {
    AuditAfter(h, s, x, j, i, now);
  }

  lemma FinishAfter(h: Hasher, s: State, x: Session, j: JobId, i: Input, now: int, acked: bool)
    requires Waits(h, s, x, j, i)
    ensures Cluster.StepFinish(AfterAudit(h, s, x, j, i, now), x, acked).0 == AfterFinish(h, s, j, i, now, acked)
  {
    if CanRun(s.store, i) {
      var w: Writes := map[LogKey(i) := Some(LogInsert(i, now).row)];
      var entry := AuditRowFor(h, s.store, ExecutedEvent(i, now), i.pick);
      CommitRuns(s, x, j, now, w + map[AuditKey(i) := Some(entry)], acked);
      ExecutedOverlay(h, s.store, i, now);
    }
  }

  lemma FinishStep(h: Hasher, s: State, x: Session, j: JobId, i: Input, now: int, acked: bool)
    requires Waits(h, s, x, j, i)
    ensures Cluster.Step(h, AfterAudit(h, s, x, j, i, now), Cluster.Finish(x, acked)).0
         == AfterFinish(h, s, j, i, now, acked)
  {
    FinishAfter(h, s, x, j, i, now, acked);
  }

  lemma StartStep(h: Hasher, s: State, x: Session, j: JobId, now: int)
    requires s.txns == map[] && j in s.jobs && s.jobs[j].phase.Waiting? && j.tenant == x.tenant
    ensures Cluster.Step(h, s, Cluster.StartJob(x, j, now)).0 == Running(s, x, j, now, Cluster.Started, map[])
  {
  }

  lemma AttemptRuns(h: Hasher, s: State, x: Session, j: JobId, i: Input, now: int, acked: bool)
    requires Waits(h, s, x, j, i)
    ensures Cluster.Run(h, s, Attempt(x, j, i, now, acked)) == AfterFinish(h, s, j, i, now, acked)
  {
    Cluster.RunFive(h, s, Cluster.StartJob(x, j, now), Cluster.CheckWorkflow(x), Cluster.LogExecution(x, i.logId),
                    Cluster.LogAudit(x, i.auditId, i.pick), Cluster.Finish(x, acked));
    StartStep(h, s, x, j, now);
    CheckStep(h, s, x, j, i, now);
    LogStep(h, s, x, j, i, now);
    AuditStep(h, s, x, j, i, now);
    FinishStep(h, s, x, j, i, now, acked);
  }

  /** An attempt that nothing interrupts does to the store what `Process` does, and counts for
      its job accordingly: it completes the job exactly if the function returns. */
  lemma AttemptIsProcess(h: Hasher, s: State, x: Session, j: JobId, i: Input, now: int, acked: bool)
    requires Waits(h, s, x, j, i)
    ensures var s' := Cluster.Run(h, s, Attempt(x, j, i, now, acked));
      && s'.txns == map[] && s'.store == Executed(h, s.store, i, now)
      && s'.committed == s.committed + (if CanRun(s.store, i) then [j] else [])
      && j in s'.jobs && s'.jobs[j].attempts == s.jobs[j].attempts + 1
      && (s'.jobs[j].phase.Completed? <==> CanRun(s.store, i) && acked)
  {
    AttemptRuns(h, s, x, j, i, now, acked);
    AttemptEnds(h, s, j, i, now, acked);
  }

  lemma AttemptEnds(h: Hasher, s: State, j: JobId, i: Input, now: int, acked: bool)
    requires j in s.jobs && s.txns == map[] && (i.pick.Some? ==> i.pick.value in AuditOf(s.store))
    ensures var s' := AfterFinish(h, s, j, i, now, acked);
      && s'.txns == map[] && s'.store == Executed(h, s.store, i, now)
      && s'.committed == s.committed + (if CanRun(s.store, i) then [j] else [])
      && j in s'.jobs && s'.jobs[j].attempts == s.jobs[j].attempts + 1
      && (s'.jobs[j].phase.Completed? <==> CanRun(s.store, i) && acked)
  {
  }
}
