/**
 Safety of erasure over whole runs: referential integrity in every state, erasures that are
 complete, final, and exclusive with concurrent inserts.
 */
module ErasureSafety {
  import opened Schema
  import opened AuditChain
  import opened AuditTrail
  import opened Database
  import opened Cluster
  import opened ClusterInvariant

  ghost predicate Safe(s: State) {
    Inv(s.store, s.txns)
  }

  // ---------------------------------------------------------------- one step

  lemma DoChanges(h: Hasher, s: State, x: Session, stmt: Statement)
    requires Safe(s) && x in s.txns && s.txns[x].kind.Application? && Issued(x.tenant, stmt)
    ensures OrdinaryChanges(s.store, s.txns, x, EffectOf(h, s, x, stmt).changes)
  {
    var (view, held) := (ViewOf(s, x), Held(s.txns, x));
    var c := EffectOf(h, s, x, stmt).changes;
    OrdinaryView(s.store, s.txns, x);
    forall k | k in c
      ensures k.tenant == x.tenant && k.table != Tenants && k !in held
      ensures c[k].Some? ==> Fits(k, c[k].value)
      ensures c[k].Some? && k !in view ==> TenantKey(x.tenant) in view && TenantKey(x.tenant) !in held
      ensures c[k].None? ==> k in view && k.table == CredentialVault
    {
      IssuedChanges(h, view, held, x.tenant, s.txns[x].start, stmt, k);
    }
  }

  lemma InsertChanges(s: State, x: Session, k: Key, row: Row)
    requires x in s.txns && k.tenant == x.tenant && k.table != Tenants && Fits(k, row)
    ensures OrdinaryChanges(s.store, s.txns, x, InsertRow(ViewOf(s, x), Held(s.txns, x), x.tenant, k, row).changes)
  {
  }

  /** The worker's inserts, like the handlers' statements, change its tenant's free keys. */
  lemma WorkerChanges(h: Hasher, s: State, x: Session, stmt: Statement)
    requires x in s.txns && WorkerIssued(x.tenant, stmt)
    ensures OrdinaryChanges(s.store, s.txns, x, EffectOf(h, s, x, stmt).changes)
  {
    if stmt.Insert? {
      InsertChanges(s, x, Key(stmt.table, stmt.tenant, stmt.id), stmt.row);
    } else if IsLatest(AuditShown(ViewOf(s, x), x.tenant), x.tenant, stmt.pick) {
      var e := stmt.event.(at := s.txns[x].start);
      InsertChanges(s, x, EventKey(e), AuditRowFor(h, ViewOf(s, x), e, stmt.pick));
    }
  }

  lemma SettleKeeps(s: State, x: Session, e: Effect)
    requires Safe(s) && x in s.txns && s.txns[x].kind.Application?
    requires OrdinaryChanges(s.store, s.txns, x, e.changes)
    ensures Safe(Settle(s, x, e).0)
  {
    GrowKeeps(s.store, s.txns, x, e.changes, Application);
    DropKeeps(s.store, s.txns, x);
  }

  lemma DoKeeps(h: Hasher, s: State, x: Session, stmt: Statement)
    requires Safe(s) && Issued(x.tenant, stmt)
    ensures Safe(StepDo(h, s, x, stmt).0)
  {
    if x in s.txns && s.txns[x].kind.Application? {
      DoChanges(h, s, x, stmt);
      SettleKeeps(s, x, EffectOf(h, s, x, stmt));
    }
  }

  lemma WorkerInsertKeeps(s: State, x: Session, j: JobId, e: Effect, stage: Stage)
    requires Safe(s) && x in s.txns && s.txns[x].kind.Worker?
    requires OrdinaryChanges(s.store, s.txns, x, e.changes)
    ensures Safe(WorkerInsert(s, x, j, e, stage).0)
  {
    GrowKeeps(s.store, s.txns, x, e.changes, Worker(j, stage));
    DropKeeps(s.store, s.txns, x);
  }

  lemma LogExecutionKeeps(h: Hasher, s: State, x: Session, id: Uuid)
    requires Safe(s)
    ensures Safe(StepLogExecution(h, s, x, id).0)
  {
    if AtStage(s, x, Checked) {
      var j := s.txns[x].kind.job;
      var stmt := LogStatement(x, id, s.jobs[j], s.txns[x].start);
      WorkerChanges(h, s, x, stmt);
      WorkerInsertKeeps(s, x, j, EffectOf(h, s, x, stmt), Logged);
    }
  }

  lemma LogAuditKeeps(h: Hasher, s: State, x: Session, id: Uuid, pick: Option<Key>)
    requires Safe(s)
    ensures Safe(StepLogAudit(h, s, x, id, pick).0)
  {
    if AtStage(s, x, Logged) {
      var j := s.txns[x].kind.job;
      var stmt := AuditStatement(x, id, s.jobs[j], s.txns[x].start, pick);
      WorkerChanges(h, s, x, stmt);
      WorkerInsertKeeps(s, x, j, EffectOf(h, s, x, stmt), Audited);
    }
  }

  lemma WorkerKeeps(h: Hasher, s: State, l: Label)
    requires Safe(s)
    requires l.CheckWorkflow? || l.Finish? || l.Abandon?
    ensures Safe(Step(h, s, l).0)
  {
    var x := l.x;
    DropKeeps(s.store, s.txns, x);
    if x in s.txns && s.txns[x].kind.Worker? {
      GrowKeeps(s.store, s.txns, x, map[], Worker(s.txns[x].kind.job, Checked));
      CommitKeeps(s.store, s.txns, x);
    }
  }

  lemma EraseGrowKeeps(s: State, x: Session, n: nat)
    requires Safe(s) && x in s.txns && s.txns[x].kind == Erasure(n) && n < 10
    requires var ks := EraseTargets(ViewOf(s, x), x.tenant, n); !EraseWaits(s, x, ks, n) && !EraseFails(s, x, ks, n)
    ensures var ks := EraseTargets(ViewOf(s, x), x.tenant, n);
      Safe(Grow(s, x, map k | k in ks :: None, Erasure(n + 1)))
  {
    var ks := EraseTargets(ViewOf(s, x), x.tenant, n);
    assert TxnOk(s.store, s.txns, x);
    if n == 9 { EraseTenantSeals(s, x, ks); }
    EraseKeeps(s.store, s.txns, x, ks, n);
  }

  lemma EraseRowsKeep(s: State, x: Session, ks: set<Key>, n: nat, waits: bool, fails: bool)
    requires Safe(s) && x in s.txns
    requires !waits && !fails ==> Safe(Grow(s, x, map k | k in ks :: None, Erasure(n + 1)))
    ensures Safe(EraseRows(s, x, ks, n, waits, fails).0)
  {
    DropKeeps(s.store, s.txns, x);
  }

  lemma EraseNextKeeps(s: State, x: Session)
    requires Safe(s)
    ensures Safe(StepEraseNext(s, x).0)
  {
    if x in s.txns && s.txns[x].kind.Erasure? && s.txns[x].kind.done < 10 {
      var n := s.txns[x].kind.done;
      var ks := EraseTargets(ViewOf(s, x), x.tenant, n);
      var (waits, fails) := (EraseWaits(s, x, ks, n), EraseFails(s, x, ks, n));
      if !waits && !fails { EraseGrowKeeps(s, x, n); }
      EraseRowsKeep(s, x, ks, n, waits, fails);
    }
  }

  /** Every legal step keeps the invariant: in particular, every row's tenant exists. */
  lemma StepKeepsSafe(h: Hasher, s: State, l: Label)
    requires Safe(s) && Legal(l)
    ensures Safe(Step(h, s, l).0)
  {
    match l
    case Begin(x, now) => if x !in s.txns { BeginKeeps(s.store, s.txns, x, Txn(now, Application, map[])); }
    case Do(x, stmt) => DoKeeps(h, s, x, stmt);
    case Commit(x) => if x in s.txns && s.txns[x].kind.Application? { CommitKeeps(s.store, s.txns, x); }
    case Rollback(x) => DropKeeps(s.store, s.txns, x);
    case Enqueue(_, _, _) =>
    case StartJob(x, j, now) => if x !in s.txns { BeginKeeps(s.store, s.txns, x, Txn(now, Worker(j, Started), map[])); }
    case BeginErasure(x, now) => if x !in s.txns { BeginKeeps(s.store, s.txns, x, Txn(now, Erasure(0), map[])); }
    case EraseNext(x) => EraseNextKeeps(s, x);
    case EndErasure(x) => if x in s.txns && s.txns[x].kind == Erasure(10) { EndErasureKeeps(s.store, s.txns, x); }
    case Prune(now) => if Step(h, s, l).1.Changed? { PruneKeeps(s.store, s.txns, Expired(s.store, now)); }
    case LogExecution(x, id) => LogExecutionKeeps(h, s, x, id);
    case LogAudit(x, id, pick) => LogAuditKeeps(h, s, x, id, pick);
    case _ => WorkerKeeps(h, s, l);
  }

  lemma {:induction false} RunKeepsSafe(h: Hasher, s: State, ls: seq<Label>)
    requires Safe(s) && LegalRun(ls)
    ensures Safe(Run(h, s, ls))
  {
    if ls == [] {
    } else {
      var n := |ls| - 1;
      RunKeepsSafe(h, s, ls[..n]);
      StepKeepsSafe(h, Run(h, s, ls[..n]), ls[n]);
    }
  }

  // ---------------------------------------------------------------- erasure

  /** A committed erasure has removed the tenant's rows from all ten tables and no other row. */
  lemma ErasureIsComplete(h: Hasher, s: State, x: Session)
    requires Safe(s) && Step(h, s, EndErasure(x)).1.Changed?
    ensures Step(h, s, EndErasure(x)).0.store == map k | k in s.store && k.tenant != x.tenant :: s.store[k]
  {
    EndErasureRemoves(s.store, s.txns, x);
  }

  /** No step brings a tenant into being. */
  lemma TenantsOnlyVanish(h: Hasher, s: State, l: Label, tenant: Uuid)
    requires Safe(s) && Legal(l)
    ensures TenantKey(tenant) in Step(h, s, l).0.store ==> TenantKey(tenant) in s.store
  {
    if l.Commit? || l.Finish? || l.EndErasure? {
      if l.x in s.txns { assert TxnOk(s.store, s.txns, l.x); }
    } else if !l.Prune? {
      QuietSteps(h, s, l);
    }
  }

  /** Once a tenant is erased, no later state holds a row of it, whatever requests, queued
      jobs and retries follow. */
  lemma {:induction false} ErasureIsPermanent(h: Hasher, s: State, tenant: Uuid, ls: seq<Label>)
    requires Safe(s) && TenantKey(tenant) !in s.store && LegalRun(ls)
    ensures forall k | k in Run(h, s, ls).store :: k.tenant != tenant
    ensures TenantKey(tenant) !in Run(h, s, ls).store
  {
    RunKeepsSafe(h, s, ls);
    if ls == [] {
    } else {
      var n := |ls| - 1;
      ErasureIsPermanent(h, s, tenant, ls[..n]);
      RunKeepsSafe(h, s, ls[..n]);
      TenantsOnlyVanish(h, Run(h, s, ls[..n]), ls[n], tenant);
    }
  }

  /** An erasure that is ready to commit leaves a concurrent transaction of its tenant nothing
      to commit, and no statement that changes anything: a racing insert that came first keeps
      the erasure from getting here, and one that comes later waits. */
  lemma RaceHasOneWinner(h: Hasher, s: State, x: Session, y: Session, stmt: Statement)
    requires Safe(s) && x in s.txns && s.txns[x].kind == Erasure(10)
    requires y in s.txns && y != x && y.tenant == x.tenant
    requires if s.txns[y].kind.Application? then Issued(y.tenant, stmt)
             else s.txns[y].kind.Worker? && WorkerIssued(y.tenant, stmt)
    ensures ViewOf(s, y) == s.store
    ensures EffectOf(h, s, y, stmt).changes == map[]
  {
    assert TxnOk(s.store, s.txns, x);
    if s.txns[y].kind.Application? { DoChanges(h, s, y, stmt); } else { WorkerChanges(h, s, y, stmt); }
    SealedChangesNothing(s.store, s.txns, y, x, EffectOf(h, s, y, stmt).changes);
  }

  /** Once the erasure has committed, an insert that waited for it fails, under any key that is
      not another waiting transaction's. */
  lemma InsertAfterErasure(s: State, x: Session, y: Session, k: Key, row: Row)
    requires Safe(s) && x in s.txns && s.txns[x].kind == Erasure(10)
    requires y in s.txns && y != x && y.tenant == x.tenant && k.tenant == y.tenant
    requires k !in Held(CommitTxn(s, x).txns, y)
    ensures var s' := CommitTxn(s, x);
      InsertRow(ViewOf(s', y), Held(s'.txns, y), y.tenant, k, row) == Effect(Failed, map[])
  {
    EndErasureRemoves(s.store, s.txns, x);
    RootIsFree(s, x, y);
  }

  /** Nobody holds the row of a tenant whose erasure has committed. */
  lemma RootIsFree(s: State, x: Session, y: Session)
    requires Safe(s) && x in s.txns && s.txns[x].kind == Erasure(10)
    requires y in s.txns && y != x && y.tenant == x.tenant
    ensures TenantKey(y.tenant) !in Held(CommitTxn(s, x).txns, y)
    ensures TenantKey(y.tenant) !in ViewOf(CommitTxn(s, x), y)
  {
    EndErasureRemoves(s.store, s.txns, x);
    assert TxnOk(s.store, s.txns, x);
    forall z | z in s.txns && z != x ensures TenantKey(y.tenant) !in s.txns[z].writes {
      assert TxnOk(s.store, s.txns, z);
    }
  }

  /** The key under which a statement adds a row. */
  function NewKey(stmt: Statement): Key
    requires stmt.Insert? || stmt.InsertAudit? || stmt.UpsertSettings?
  {
    match stmt
    case Insert(table, tenant, id, _) => Key(table, tenant, id)
    case InsertAudit(e, _) => EventKey(e)
    case UpsertSettings(tenant, _, _) => Key(TenantSettings, tenant, tenant)
  }

  /** What is left of the tenant's transactions sees no row of it. */
  lemma NothingIsSeen(s: State, x: Session, y: Session)
    requires Safe(s) && x in s.txns && s.txns[x].kind == Erasure(10)
    requires y in s.txns && y != x && y.tenant == x.tenant
    ensures forall k | k in ViewOf(CommitTxn(s, x), y) :: k.tenant != x.tenant
  {
    EndErasureRemoves(s.store, s.txns, x);
    assert TxnOk(s.store, s.txns, x) && TxnOk(s.store, s.txns, y);
  }

  /** What a waiting handler's insert comes to. */
  lemma WaitingEffectFails(h: Hasher, s: State, x: Session, y: Session, stmt: Statement)
    requires Safe(s) && x in s.txns && s.txns[x].kind == Erasure(10)
    requires y in s.txns && y != x && y.tenant == x.tenant
    requires (stmt.Insert? || stmt.InsertAudit? || stmt.UpsertSettings?) && Issued(y.tenant, stmt)
    requires stmt.InsertAudit? ==>
      IsLatest(AuditShown(ViewOf(CommitTxn(s, x), y), y.tenant), stmt.event.tenant, stmt.pick)
    requires NewKey(stmt) !in Held(CommitTxn(s, x).txns, y)
    ensures EffectOf(h, CommitTxn(s, x), y, stmt) == Effect(Failed, map[])
  {
    var (s', k) := (CommitTxn(s, x), NewKey(stmt));
    if k.tenant == y.tenant {
      NothingIsSeen(s, x, y);
      match stmt
      case Insert(_, _, _, row) => InsertAfterErasure(s, x, y, k, row);
      case InsertAudit(e, pick) =>
        InsertAfterErasure(s, x, y, k, AuditRowFor(h, ViewOf(s', y), e.(at := s.txns[y].start), pick));
      case UpsertSettings(_, row, _) => InsertAfterErasure(s, x, y, k, row);
    }
  }

  /** So of the two one fails whole: whatever the waiting handler was to add, its transaction is
      lost ... */
  lemma WaitingInsertFails(h: Hasher, s: State, x: Session, y: Session, stmt: Statement)
    requires Safe(s) && x in s.txns && s.txns[x].kind == Erasure(10)
    requires y in s.txns && y != x && y.tenant == x.tenant && s.txns[y].kind.Application?
    requires (stmt.Insert? || stmt.InsertAudit? || stmt.UpsertSettings?) && Issued(y.tenant, stmt)
    requires stmt.InsertAudit? ==>
      IsLatest(AuditShown(ViewOf(CommitTxn(s, x), y), y.tenant), stmt.event.tenant, stmt.pick)
    requires NewKey(stmt) !in Held(CommitTxn(s, x).txns, y)
    ensures StepDo(h, CommitTxn(s, x), y, stmt) == (DropTxn(CommitTxn(s, x), y), Failed)
  {
    WaitingEffectFails(h, s, x, y, stmt);
  }

  /** ... and so is the waiting worker's attempt. */
  lemma WaitingAttemptFails(h: Hasher, s: State, x: Session, y: Session, id: Uuid)
    requires Safe(s) && x in s.txns && s.txns[x].kind == Erasure(10)
    requires y in s.txns && y != x && y.tenant == x.tenant && AtStage(s, y, Checked)
    requires Key(ExecutionLogs, y.tenant, id) !in Held(CommitTxn(s, x).txns, y)
    ensures StepLogExecution(h, CommitTxn(s, x), y, id)
         == (FailAttempt(CommitTxn(s, x), y, s.txns[y].kind.job), Failed)
  {
    var stmt := LogStatement(y, id, s.jobs[s.txns[y].kind.job], s.txns[y].start);
    InsertAfterErasure(s, x, y, Key(ExecutionLogs, y.tenant, id), stmt.row);
  }

  /** The other way round: a row committed behind the erasure's back makes its last delete
      wait, or fail and leave everything as it was before the erasure began. */
  lemma LeftoverStopsErasure(s: State, x: Session, k: Key)
    requires Safe(s) && x in s.txns && s.txns[x].kind == Erasure(9)
    requires k in ViewOf(s, x) && k.tenant == x.tenant && k.table != Tenants
    ensures StepEraseNext(s, x) == (s, Blocked) || StepEraseNext(s, x) == (DropTxn(s, x), Failed)
  {
    TenantOutlivesRows(s, x, k);
    LastDeleteStops(s, x);
  }

  /** Until its last delete an erasure sees the tenant's own row as long as it sees any. */
  lemma TenantOutlivesRows(s: State, x: Session, k: Key)
    requires Safe(s) && x in s.txns && s.txns[x].kind == Erasure(9)
    requires k in ViewOf(s, x) && k.tenant == x.tenant
    ensures TenantKey(x.tenant) in ViewOf(s, x)
  {
    assert TxnOk(s.store, s.txns, x);
    assert k in s.store && TenantKey(x.tenant) !in s.txns[x].writes;
  }

  lemma LastDeleteStops(s: State, x: Session)
    requires x in s.txns && s.txns[x].kind == Erasure(9) && TenantKey(x.tenant) in ViewOf(s, x)
    requires RowsRemain(ViewOf(s, x), x.tenant)
    ensures StepEraseNext(s, x) == (s, Blocked) || StepEraseNext(s, x) == (DropTxn(s, x), Failed)
  {
  }
}
