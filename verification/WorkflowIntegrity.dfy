/**
 Referential integrity without a foreign key: in every reachable state each execution row's
 workflow exists in the row's tenant. It rests on the worker's check, on the missing delete
 of workflows, and on the way a foreign key to `tenants` settles races with erasure.
 */
module WorkflowIntegrity {
  import opened Schema
  import opened AuditChain
  import opened AuditTrail
  import opened Database
  import opened Cluster
  import opened ClusterInvariant
  import opened ErasureSafety
  import opened JobLifecycle

  /** Every execution row names a workflow of its tenant and expires 30 days after its start. */
  ghost predicate ExecutionsOk(store: Store) {
    forall k | k in store && store[k].ExecutionRow? ::
      && Key(Workflows, k.tenant, store[k].workflow) in store
      && store[k].deleteAfter == Some(store[k].startedAt + LOG_TTL)
  }

  /** The changes of an application's transaction touch neither execution rows nor committed
      audit entries, and it writes none of the worker's entries. */
  ghost predicate Uninvolved(store: Store, w: Writes) {
    forall k | k in w ::
      && k.table != ExecutionLogs
      && (k.table == AuditLog ==> k !in store)
      && (w[k].Some? ==> !IsExecuted(w[k].value))
  }

  ghost predicate IsLogged(store: Store, x: Session, txn: Txn, job: Job, k: Key) {
    && k.table == ExecutionLogs && k.tenant == x.tenant && k !in store
    && txn.writes == map[k := Some(ExecutionOf(job.workflow, txn.start))]
  }

  ghost predicate IsAudited(store: Store, x: Session, txn: Txn, job: Job, k: Key, a: Key) {
    && k.table == ExecutionLogs && k.tenant == x.tenant && k !in store
    && a.table == AuditLog && a.tenant == x.tenant && a !in store
    && txn.writes.Keys == {k, a}
    && txn.writes[k] == Some(ExecutionOf(job.workflow, txn.start))
    && txn.writes[a].Some? && IsExecuted(txn.writes[a].value)
  }

  /** What a worker's transaction has changed at each stage, and what it knows: once it has
      seen the workflow, the workflow is there as long as the tenant is. */
  ghost predicate WorkerOk(store: Store, x: Session, txn: Txn, job: Job)
    requires txn.kind.Worker?
  {
    && (txn.kind.stage != Started && TenantKey(x.tenant) in store ==> Key(Workflows, x.tenant, job.workflow) in store)
    && match txn.kind.stage
       case Started => txn.writes == map[]
       case Checked => txn.writes == map[]
       case Logged => exists k :: IsLogged(store, x, txn, job, k)
       case Audited => exists k, a :: IsAudited(store, x, txn, job, k, a)
  }

  ghost predicate TxnRowsOk(store: Store, jobs: map<JobId, Job>, x: Session, txn: Txn) {
    match txn.kind
    case Application => Uninvolved(store, txn.writes)
    case Worker(j, _) => j in jobs && WorkerOk(store, x, txn, jobs[j])
    case Erasure(_) => true
  }

  ghost predicate RowsOk(s: State) {
    && ExecutionsOk(s.store)
    && forall x | x in s.txns :: TxnRowsOk(s.store, s.jobs, x, s.txns[x])
  }

  // ---------------------------------------------------------------- what leaves it alone

  ghost predicate SameWorkflows(jobs: map<JobId, Job>, jobs': map<JobId, Job>) {
    forall j | j in jobs :: j in jobs' && jobs'[j].workflow == jobs[j].workflow
  }

  /** A transaction's part survives any change of the store that keeps the tenant's workflows
      as long as the tenant stays, and adds none of the transaction's keys. */
  lemma TxnRowsKept(store: Store, jobs: map<JobId, Job>, store': Store, jobs': map<JobId, Job>, x: Session, txn: Txn)
    requires TxnRowsOk(store, jobs, x, txn) && SameWorkflows(jobs, jobs')
    requires forall k | k in txn.writes && k in store' :: k in store
    requires TenantKey(x.tenant) in store' ==> TenantKey(x.tenant) in store
    requires TenantKey(x.tenant) in store' ==>
      forall k | k in store && k.table == Workflows && k.tenant == x.tenant :: k in store'
    ensures TxnRowsOk(store', jobs', x, txn)
  {
    if txn.kind.Worker? {
      var (job, job') := (jobs[txn.kind.job], jobs'[txn.kind.job]);
      if txn.kind.stage == Logged {
        var k :| IsLogged(store, x, txn, job, k);
        assert IsLogged(store', x, txn, job', k);
      }
      if txn.kind.stage == Audited {
        var k, a :| IsAudited(store, x, txn, job, k, a);
        assert IsAudited(store', x, txn, job', k, a);
      }
    }
  }

  /** Steps that leave the store alone, and all transactions but one. */
  lemma OneTxnRows(s: State, s': State, x: Session)
    requires RowsOk(s) && s'.store == s.store && SameWorkflows(s.jobs, s'.jobs)
    requires forall y | y in s'.txns && y != x :: y in s.txns && s'.txns[y] == s.txns[y]
    requires x in s'.txns ==> TxnRowsOk(s'.store, s'.jobs, x, s'.txns[x])
    ensures RowsOk(s')
  {
    forall y | y in s'.txns ensures TxnRowsOk(s'.store, s'.jobs, y, s'.txns[y]) {
      if y != x { TxnRowsKept(s.store, s.jobs, s'.store, s'.jobs, y, s.txns[y]); }
    }
  }

  // ---------------------------------------------------------------- statements

  lemma DoRows(h: Hasher, s: State, x: Session, stmt: Statement)
    requires Safe(s) && RowsOk(s) && x in s.txns && s.txns[x].kind.Application? && Issued(x.tenant, stmt)
    ensures Uninvolved(s.store, s.txns[x].writes + EffectOf(h, s, x, stmt).changes)
  {
    var c := EffectOf(h, s, x, stmt).changes;
    var view := ViewOf(s, x);
    OrdinaryView(s.store, s.txns, x);
    assert TxnRowsOk(s.store, s.jobs, x, s.txns[x]);
    assert TxnOk(s.store, s.txns, x);
    forall k | k in c
      ensures k.table != ExecutionLogs && (k.table == AuditLog ==> k !in s.store)
      ensures c[k].Some? ==> !IsExecuted(c[k].value)
    {
      IssuedChanges(h, view, Held(s.txns, x), x.tenant, s.txns[x].start, stmt, k);
    }
  }

  lemma SettleRows(s: State, x: Session, e: Effect)
    requires RowsOk(s) && x in s.txns && Uninvolved(s.store, s.txns[x].writes + e.changes)
    ensures RowsOk(Settle(s, x, e).0)
  {
    OneTxnRows(s, Settle(s, x, e).0, x);
  }

  lemma FailRows(s: State, x: Session, j: JobId)
    requires RowsOk(s)
    ensures RowsOk(FailAttempt(s, x, j))
  {
    OneTxnRows(s, FailAttempt(s, x, j), x);
  }

  lemma FoundWorkflow(s: State, x: Session, workflow: Uuid)
    requires Safe(s) && x in s.txns && !s.txns[x].kind.Erasure? && s.txns[x].writes == map[]
    ensures Targets(ViewOf(s, x), x.tenant, Workflows, Some(workflow)) != {} <==>
      Key(Workflows, x.tenant, workflow) in s.store
  {
    var found := Targets(ViewOf(s, x), x.tenant, Workflows, Some(workflow));
    if k :| k in found {
      assert k == Key(Workflows, x.tenant, workflow);
    }
    if Key(Workflows, x.tenant, workflow) in s.store {
      assert Key(Workflows, x.tenant, workflow) in found;
    }
  }

  lemma CheckRows(s: State, x: Session)
    requires Safe(s) && RowsOk(s)
    ensures RowsOk(StepCheckWorkflow(s, x).0)
  {
    if AtStage(s, x, Started) {
      var j := s.txns[x].kind.job;
      var workflow := s.jobs[j].workflow;
      assert TxnRowsOk(s.store, s.jobs, x, s.txns[x]);
      FailRows(s, x, j);
      FoundWorkflow(s, x, workflow);
      if Key(Workflows, x.tenant, workflow) in s.store {
        OneTxnRows(s, StepCheckWorkflow(s, x).0, x);
      }
    }
  }

  /** What a worker's insert changes if it succeeds. */
  ghost predicate InsertsOne(s: State, x: Session, e: Effect, k: Key, row: Row)
    requires x in s.txns
  {
    e.outcome.Changed? ==>
      && e.changes == map[k := Some(row)]
      && k !in ViewOf(s, x) && k.tenant == x.tenant
  }

  lemma LoggedAfter(s: State, x: Session, j: JobId, e: Effect, k: Key)
    requires RowsOk(s) && WorksOn(s, x, j) && s.txns[x].kind.stage == Checked && j in s.jobs
    requires k.table == ExecutionLogs && InsertsOne(s, x, e, k, ExecutionOf(s.jobs[j].workflow, s.txns[x].start))
    ensures RowsOk(WorkerInsert(s, x, j, e, Logged).0)
  {
    var s' := WorkerInsert(s, x, j, e, Logged).0;
    assert TxnRowsOk(s.store, s.jobs, x, s.txns[x]);
    FailRows(s, x, j);
    if e.outcome.Changed? {
      assert k !in s.store;
      assert IsLogged(s'.store, x, s'.txns[x], s'.jobs[j], k);
      OneTxnRows(s, s', x);
    }
  }

  lemma LogExecutionRows(h: Hasher, s: State, x: Session, id: Uuid)
    requires Safe(s) && RowsOk(s)
    ensures RowsOk(StepLogExecution(h, s, x, id).0)
  {
    if AtStage(s, x, Checked) {
      var j := s.txns[x].kind.job;
      var e := EffectOf(h, s, x, LogStatement(x, id, s.jobs[j], s.txns[x].start));
      LoggedAfter(s, x, j, e, Key(ExecutionLogs, x.tenant, id));
    }
  }

  lemma LoggedThenAudited(store: Store, x: Session, txn: Txn, job: Job, k: Key, a: Key, row: Row, kind: Kind)
    requires IsLogged(store, x, txn, job, k)
    requires a.table == AuditLog && a.tenant == x.tenant && a !in store && IsExecuted(row)
    ensures IsAudited(store, x, Txn(txn.start, kind, txn.writes + map[a := Some(row)]), job, k, a)
  {
  }

  lemma AuditedAfter(s: State, x: Session, j: JobId, e: Effect, a: Key, row: Row)
    requires RowsOk(s) && WorksOn(s, x, j) && s.txns[x].kind.stage == Logged && j in s.jobs
    requires a.table == AuditLog && InsertsOne(s, x, e, a, row) && IsExecuted(row)
    ensures RowsOk(WorkerInsert(s, x, j, e, Audited).0)
  {
    var s' := WorkerInsert(s, x, j, e, Audited).0;
    assert TxnRowsOk(s.store, s.jobs, x, s.txns[x]);
    FailRows(s, x, j);
    if e.outcome.Changed? {
      var k :| IsLogged(s.store, x, s.txns[x], s.jobs[j], k);
      assert a !in s.store;
      LoggedThenAudited(s.store, x, s.txns[x], s.jobs[j], k, a, row, Worker(j, Audited));
      assert IsAudited(s'.store, x, s'.txns[x], s'.jobs[j], k, a);
      OneTxnRows(s, s', x);
    }
  }

  lemma AuditInsertsOne(h: Hasher, s: State, x: Session, id: Uuid, pick: Option<Key>, job: Job) returns (row: Row)
    requires x in s.txns
    ensures IsExecuted(row)
    ensures InsertsOne(s, x, EffectOf(h, s, x, AuditStatement(x, id, job, s.txns[x].start, pick)),
                       Key(AuditLog, x.tenant, id), row)
  {
    var start := s.txns[x].start;
    var stmt := AuditStatement(x, id, job, start, pick);
    if EffectOf(h, s, x, stmt).outcome.Changed? {
      AuditInserted(h, ViewOf(s, x), Held(s.txns, x), x.tenant, start, stmt.event, pick);
      row := AuditRowFor(h, ViewOf(s, x), stmt.event.(at := start), pick);
    } else {
      row := AuditEntry(NewRow(h, None, stmt.event), 0);
    }
  }

  lemma LogAuditRows(h: Hasher, s: State, x: Session, id: Uuid, pick: Option<Key>)
    requires Safe(s) && RowsOk(s)
    ensures RowsOk(StepLogAudit(h, s, x, id, pick).0)
  {
    if AtStage(s, x, Logged) {
      var j := s.txns[x].kind.job;
      var e := EffectOf(h, s, x, AuditStatement(x, id, s.jobs[j], s.txns[x].start, pick));
      var row := AuditInsertsOne(h, s, x, id, pick, s.jobs[j]);
      AuditedAfter(s, x, j, e, Key(AuditLog, x.tenant, id), row);
    }
  }

  // ---------------------------------------------------------------- commits

  /** The other transactions' parts survive a commit. */
  lemma CommitOthers(s: State, x: Session, jobs': map<JobId, Job>, y: Session)
    requires Safe(s) && RowsOk(s) && x in s.txns && !s.txns[x].kind.Erasure? && SameWorkflows(s.jobs, jobs')
    requires y in s.txns && y != x
    ensures TxnRowsOk(ViewOf(s, x), jobs', y, s.txns[y])
  {
    assert TxnOk(s.store, s.txns, x);
    assert TxnRowsOk(s.store, s.jobs, y, s.txns[y]);
    forall k | k in s.txns[y].writes ensures k !in s.txns[x].writes {}
    TxnRowsKept(s.store, s.jobs, ViewOf(s, x), jobs', y, s.txns[y]);
  }

  lemma CommitExecutions(s: State, x: Session)
    requires Safe(s) && RowsOk(s) && x in s.txns && s.txns[x].kind.Application?
    ensures ExecutionsOk(ViewOf(s, x))
  {
    OrdinaryView(s.store, s.txns, x);
    var view := ViewOf(s, x);
    assert TxnOk(s.store, s.txns, x) && TxnRowsOk(s.store, s.jobs, x, s.txns[x]);
    forall k | k in view && view[k].ExecutionRow?
      ensures k in s.store && view[k] == s.store[k] && Key(Workflows, k.tenant, s.store[k].workflow) in view
    {
      assert Fits(k, view[k]);
    }
  }

  lemma CommitRows(s: State, x: Session)
    requires Safe(s) && RowsOk(s) && x in s.txns && s.txns[x].kind.Application?
    ensures RowsOk(CommitTxn(s, x))
  {
    var s' := CommitTxn(s, x);
    CommitExecutions(s, x);
    forall y | y in s'.txns ensures TxnRowsOk(s'.store, s'.jobs, y, s'.txns[y]) {
      CommitOthers(s, x, s.jobs, y);
    }
  }

  lemma FinishExecutions(s: State, x: Session, j: JobId)
    requires Safe(s) && RowsOk(s) && WorksOn(s, x, j) && j in s.jobs && s.txns[x].kind.stage == Audited
    ensures ExecutionsOk(ViewOf(s, x))
  {
    var txn := s.txns[x];
    assert TxnOk(s.store, s.txns, x) && TxnRowsOk(s.store, s.jobs, x, txn);
    var k, a :| IsAudited(s.store, x, txn, s.jobs[j], k, a);
    forall r | r in ViewOf(s, x) && ViewOf(s, x)[r].ExecutionRow?
      ensures Key(Workflows, r.tenant, ViewOf(s, x)[r].workflow) in ViewOf(s, x)
      ensures ViewOf(s, x)[r].deleteAfter == Some(ViewOf(s, x)[r].startedAt + LOG_TTL)
    {
      assert r in txn.writes ==> r == k;
    }
  }

  lemma FinishRows(s: State, x: Session, acked: bool)
    requires Safe(s) && RowsOk(s)
    ensures RowsOk(StepFinish(s, x, acked).0)
  {
    if AtStage(s, x, Audited) {
      var s' := StepFinish(s, x, acked).0;
      FinishExecutions(s, x, s.txns[x].kind.job);
      forall y | y in s'.txns ensures TxnRowsOk(s'.store, s'.jobs, y, s'.txns[y]) {
        CommitOthers(s, x, s'.jobs, y);
      }
    }
  }

  lemma EndErasureOthers(s: State, x: Session, y: Session)
    requires Safe(s) && RowsOk(s) && x in s.txns && s.txns[x].kind == Erasure(10)
    requires y in s.txns && y != x
    ensures TxnRowsOk(ViewOf(s, x), s.jobs, y, s.txns[y])
  {
    EndErasureRemoves(s.store, s.txns, x);
    assert TxnRowsOk(s.store, s.jobs, y, s.txns[y]);
    TxnRowsKept(s.store, s.jobs, ViewOf(s, x), s.jobs, y, s.txns[y]);
  }

  lemma EndErasureRows(s: State, x: Session)
    requires Safe(s) && RowsOk(s) && x in s.txns && s.txns[x].kind == Erasure(10)
    ensures RowsOk(CommitTxn(s, x))
  {
    EndErasureRemoves(s.store, s.txns, x);
    forall y | y in s.txns - {x} ensures TxnRowsOk(ViewOf(s, x), s.jobs, y, s.txns[y]) {
      EndErasureOthers(s, x, y);
    }
  }

  lemma PruneRows(s: State, now: int)
    requires Safe(s) && RowsOk(s)
    ensures RowsOk(StepPrune(s, now).0)
  {
    var s' := StepPrune(s, now).0;
    if StepPrune(s, now).1.Changed? {
      forall k | k in s.store && k !in s'.store ensures k.table == ExecutionLogs {
        assert Fits(k, s.store[k]);
      }
      forall y | y in s'.txns ensures TxnRowsOk(s'.store, s'.jobs, y, s'.txns[y]) {
        assert TxnRowsOk(s.store, s.jobs, y, s.txns[y]);
        TxnRowsKept(s.store, s.jobs, s'.store, s'.jobs, y, s.txns[y]);
      }
    }
  }

  // ---------------------------------------------------------------- every step, every run

  lemma SimpleRows(h: Hasher, s: State, l: Label)
    requires RowsOk(s)
    requires l.Begin? || l.Rollback? || l.StartJob? || l.BeginErasure?
    ensures RowsOk(Step(h, s, l).0)
  {
    OneTxnRows(s, Step(h, s, l).0, l.x);
  }

  lemma EraseNextRows(s: State, x: Session)
    requires RowsOk(s)
    ensures RowsOk(StepEraseNext(s, x).0)
  {
  }

  lemma EnqueueRows(s: State, j: JobId, workflow: Uuid, requestedBy: Uuid)
    requires RowsOk(s)
    ensures RowsOk(StepEnqueue(s, j, workflow, requestedBy).0)
  {
  }

  lemma WorkerStepRows(h: Hasher, s: State, l: Label)
    requires Safe(s) && RowsOk(s)
    requires l.CheckWorkflow? || l.LogExecution? || l.LogAudit? || l.Finish? || l.Abandon?
    ensures RowsOk(Step(h, s, l).0)
  {
    match l
    case CheckWorkflow(x) => CheckRows(s, x);
    case LogExecution(x, id) => LogExecutionRows(h, s, x, id);
    case LogAudit(x, id, pick) => LogAuditRows(h, s, x, id, pick);
    case Finish(x, acked) => FinishRows(s, x, acked);
    case Abandon(x) => if x in s.txns && s.txns[x].kind.Worker? { FailRows(s, x, s.txns[x].kind.job); }
  }

  lemma StepKeepsRows(h: Hasher, s: State, l: Label)
    requires Safe(s) && RowsOk(s) && Legal(l)
    ensures RowsOk(Step(h, s, l).0)
  {
    match l
    case Do(x, stmt) =>
      if x in s.txns && s.txns[x].kind.Application? {
        DoRows(h, s, x, stmt);
        SettleRows(s, x, EffectOf(h, s, x, stmt));
      }
    case Commit(x) => if x in s.txns && s.txns[x].kind.Application? { CommitRows(s, x); }
    case Enqueue(j, workflow, requestedBy) => EnqueueRows(s, j, workflow, requestedBy);
    case EndErasure(x) => if x in s.txns && s.txns[x].kind == Erasure(10) { EndErasureRows(s, x); }
    case Prune(now) => PruneRows(s, now);
    case EraseNext(x) => EraseNextRows(s, x);
    case _ =>
      if l.Begin? || l.Rollback? || l.StartJob? || l.BeginErasure? { SimpleRows(h, s, l); }
      else { WorkerStepRows(h, s, l); }
  }

  /** A database in which nothing has been executed and no transaction is open. */
  ghost predicate Initial(s: State) {
    && WellTyped(s.store) && ForeignKeys(s.store)
    && (forall k | k in s.store :: k.table != ExecutionLogs && k.table != AuditLog)
    && s.txns == map[] && s.jobs == map[] && s.pruned == map[] && s.committed == []
  }

  lemma InitialOk(s: State)
    requires Initial(s)
    ensures Safe(s) && RowsOk(s) && JobsOk(s) && WorkersOk(s)
  {
  }

  lemma {:induction false} RunKeepsRows(h: Hasher, s: State, ls: seq<Label>)
    requires Safe(s) && RowsOk(s) && LegalRun(ls)
    ensures Safe(Run(h, s, ls)) && RowsOk(Run(h, s, ls))
  {
    RunKeepsSafe(h, s, ls);
    if ls == [] {
    } else {
      var n := |ls| - 1;
      RunKeepsRows(h, s, ls[..n]);
      StepKeepsRows(h, Run(h, s, ls[..n]), ls[n]);
    }
  }

  /** In every reachable state each execution row's workflow exists, in the row's tenant. */
  lemma ExecutionsHaveWorkflows(h: Hasher, s: State, ls: seq<Label>)
    requires Initial(s) && LegalRun(ls)
    ensures var store := Run(h, s, ls).store;
      forall k | k in store && k.table == ExecutionLogs ::
        store[k].ExecutionRow? && Key(Workflows, k.tenant, store[k].workflow) in store
  {
    InitialOk(s);
    RunKeepsRows(h, s, ls);
    var store := Run(h, s, ls).store;
    forall k | k in store && k.table == ExecutionLogs ensures store[k].ExecutionRow? {
      assert Fits(k, store[k]);
    }
  }

  /** Jobs of an erased tenant never commit again: an attempt that has not looked for its
      workflow finds none, and one that has logged its execution cannot exist. */
  lemma ErasedTenantsJobsFail(h: Hasher, s: State, x: Session)
    requires Safe(s) && RowsOk(s) && TenantKey(x.tenant) !in s.store
    ensures AtStage(s, x, Started) ==> Step(h, s, CheckWorkflow(x)).1 == Failed
    ensures !AtStage(s, x, Logged) && !AtStage(s, x, Audited)
  {
    if x in s.txns && s.txns[x].kind.Worker? && s.txns[x].kind.job in s.jobs {
      assert TxnOk(s.store, s.txns, x) && TxnRowsOk(s.store, s.jobs, x, s.txns[x]);
      if AtStage(s, x, Logged) || AtStage(s, x, Audited) { NoPendingRows(s, x); }
      if AtStage(s, x, Started) {
        FoundWorkflow(s, x, s.jobs[s.txns[x].kind.job].workflow);
      }
    }
  }

  /** Only a transaction of an existing tenant has rows to commit. */
  lemma NoPendingRows(s: State, x: Session)
    requires Safe(s) && RowsOk(s) && x in s.txns && s.txns[x].kind.Worker?
    requires s.txns[x].kind.stage == Logged || s.txns[x].kind.stage == Audited
    ensures TenantKey(x.tenant) in s.store
  {
  }
}
