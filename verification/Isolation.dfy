/**
 Isolation of tenants over whole runs: what one tenant's requests and jobs return, and what
 they leave behind, is what they would return and leave if no other tenant existed.
 */
module Isolation {
  import opened Schema
  import opened AuditChain
  import opened AuditTrail
  import opened Database
  import opened Cluster
  import opened ClusterInvariant
  import opened ErasureSafety
  import opened JobLifecycle

  // ---------------------------------------------------------------- one tenant's part

  function Part(store: Store, tenant: Uuid): Store {
    map k | k in store && k.tenant == tenant :: store[k]
  }

  function PartOfTxns(txns: Txns, tenant: Uuid): Txns {
    map x: Session | x in txns && x.tenant == tenant :: txns[x]
  }

  function PartOfJobs(jobs: map<JobId, Job>, tenant: Uuid): map<JobId, Job> {
    map j: JobId | j in jobs && j.tenant == tenant :: jobs[j]
  }

  function PartOfCounts(pruned: map<Uuid, nat>, tenant: Uuid): map<Uuid, nat> {
    map t | t in pruned && t == tenant :: pruned[t]
  }

  function PartOfCommitted(committed: seq<JobId>, tenant: Uuid): seq<JobId> {
    if committed == [] then []
    else
      var n := |committed| - 1;
      PartOfCommitted(committed[..n], tenant) + (if committed[n].tenant == tenant then [committed[n]] else [])
  }

  /** The state with everything of all other tenants taken out. */
  function Project(s: State, tenant: Uuid): State {
    State(Part(s.store, tenant), PartOfTxns(s.txns, tenant), PartOfJobs(s.jobs, tenant),
          PartOfCounts(s.pruned, tenant), PartOfCommitted(s.committed, tenant))
  }

  /** Whose request or job a label belongs to; pruning is nobody's. */
  function TenantOf(l: Label): Option<Uuid> {
    match l
    case Enqueue(j, _, _) => Some(j.tenant)
    case Prune(_) => None
    case _ => Some(l.x.tenant)
  }

  // ---------------------------------------------------------------- what a transaction sees

  /** The changes of a transaction, and so the keys it holds, are its tenant's. */
  lemma OwnWrites(s: State, y: Session, k: Key)
    requires Safe(s) && y in s.txns && k in s.txns[y].writes
    ensures k.tenant == y.tenant
  {
  }

  lemma HeldPart(s: State, x: Session)
    requires Safe(s)
    ensures Held(PartOfTxns(s.txns, x.tenant), x) == OfTenant(Held(s.txns, x), x.tenant)
  {
    var (held, mine) := (Held(s.txns, x), Held(PartOfTxns(s.txns, x.tenant), x));
    forall k ensures k in mine <==> k in held && k.tenant == x.tenant {
      if k in held {
        var y :| y in s.txns && y != x && k in s.txns[y].writes;
        OwnWrites(s, y, k);
        assert k.tenant == x.tenant ==> y in PartOfTxns(s.txns, x.tenant);
      }
    }
  }

  lemma PartOfOverlay(store: Store, w: Writes, tenant: Uuid)
    requires forall k | k in w :: k.tenant == tenant
    ensures Overlay(Part(store, tenant), w) == Part(Overlay(store, w), tenant)
  {
  }

  lemma PartOfOthers(store: Store, w: Writes, tenant: Uuid)
    requires forall k | k in w :: k.tenant != tenant
    ensures Part(Overlay(store, w), tenant) == Part(store, tenant)
  {
  }

  lemma ViewPart(s: State, x: Session)
    requires Safe(s) && x in s.txns
    ensures ViewOf(Project(s, x.tenant), x) == Part(ViewOf(s, x), x.tenant)
  {
    forall k | k in s.txns[x].writes ensures k.tenant == x.tenant { OwnWrites(s, x, k); }
    PartOfOverlay(s.store, s.txns[x].writes, x.tenant);
  }

  // ---------------------------------------------------------------- statements

  /** An INSERT of the tenant's, or one that the policy refuses, needs the tenant's part only. */
  lemma InsertPart(view: Store, held: set<Key>, setting: Uuid, k: Key, row: Row)
    requires k.tenant == setting || !Allows(setting, k)
    ensures InsertRow(Part(view, setting), OfTenant(held, setting), setting, k, row)
      == InsertRow(view, held, setting, k, row)
  {
  }

  lemma ChangePart(held: set<Key>, ks: set<Key>, change: Option<Row>, tenant: Uuid)
    requires forall k | k in ks :: k.tenant == tenant
    ensures ChangeRows(OfTenant(held, tenant), ks, change) == ChangeRows(held, ks, change)
  {
  }

  /** The rows a statement reads are the tenant's: by policy, or by the handlers' filter. */
  lemma TargetsPart(view: Store, setting: Uuid, table: Table, id: Option<Uuid>)
    requires WellTyped(view)
    requires Protected(table) || ((table == Tenants || table == TenantSettings) && id == Some(setting))
    ensures Targets(Part(view, setting), setting, table, id) == Targets(view, setting, table, id)
    ensures forall k | k in Targets(view, setting, table, id) :: k.tenant == setting
  {
  }

  lemma AuditShownPart(view: Store, setting: Uuid)
    requires WellTyped(view)
    ensures AuditShown(Part(view, setting), setting) == AuditShown(view, setting)
  {
  }

  lemma AuditPart(h: Hasher, view: Store, held: set<Key>, setting: Uuid, start: int, e: Event, pick: Option<Key>)
    requires WellTyped(view)
    ensures Exec(h, Part(view, setting), OfTenant(held, setting), setting, start, InsertAudit(e, pick))
      == Exec(h, view, held, setting, start, InsertAudit(e, pick))
  {
    AuditShownPart(view, setting);
    if IsLatest(AuditShown(view, setting), e.tenant, pick) {
      if pick.Some? { assert Fits(pick.value, view[pick.value]); }
      InsertPart(view, held, setting, EventKey(e), AuditRowFor(h, view, e.(at := start), pick));
    }
  }

  /** What the services' statements do depends on the tenant's part only. */
  lemma ExecPart(h: Hasher, view: Store, held: set<Key>, setting: Uuid, start: int, stmt: Statement)
    requires WellTyped(view)
    requires Issued(setting, stmt) || WorkerIssued(setting, stmt)
    ensures Exec(h, Part(view, setting), OfTenant(held, setting), setting, start, stmt)
      == Exec(h, view, held, setting, start, stmt)
  {
    match stmt
    case Select(table, filter) =>
      TargetsPart(view, setting, table, filter);
      var ks := Targets(view, setting, table, filter);
      assert (map k | k in ks :: Part(view, setting)[k]) == (map k | k in ks :: view[k]);
    case Insert(table, tenant, id, row) => InsertPart(view, held, setting, Key(table, tenant, id), row);
    case InsertAudit(e, pick) => AuditPart(h, view, held, setting, start, e, pick);
    case UpsertSettings(tenant, row, overwrite) =>
      var k := Key(TenantSettings, tenant, tenant);
      InsertPart(view, held, setting, k, row);
      ChangePart(held, {k}, Some(row), setting);
    case Update(table, id, row) =>
      TargetsPart(view, setting, table, Some(id));
      ChangePart(held, Targets(view, setting, table, Some(id)), Some(row), setting);
    case Delete(table, id) =>
      TargetsPart(view, setting, table, Some(id));
      ChangePart(held, Targets(view, setting, table, Some(id)), None, setting);
  }

  /** The two tables without a policy need the filter: an unfiltered read returns exactly the
      tenant's rows only if no other tenant has any. */
  lemma FilterNeeded(h: Hasher, view: Store, held: set<Key>, setting: Uuid, start: int, table: Table)
    requires !Protected(table)
    ensures Exec(h, Part(view, setting), held, setting, start, Select(table, None))
         == Exec(h, view, held, setting, start, Select(table, None))
      <==> forall k | k in view && k.table == table :: k.tenant == setting
  {
    var (all, mine) := (Targets(view, setting, table, None), Targets(Part(view, setting), setting, table, None));
    forall k | k in view && k.table == table ensures k in all && (k in mine <==> k.tenant == setting) {}
    var (rows, part) := (map k | k in all :: view[k], map k | k in mine :: Part(view, setting)[k]);
    assert rows == part ==> all == rows.Keys == part.Keys == mine;
    assert (forall k | k in view && k.table == table :: k.tenant == setting) ==> all == mine;
    assert all == mine ==> rows == part;
  }

  lemma EffectPart(h: Hasher, s: State, x: Session, stmt: Statement)
    requires Safe(s) && x in s.txns && !s.txns[x].kind.Erasure?
    requires Issued(x.tenant, stmt) || WorkerIssued(x.tenant, stmt)
    ensures EffectOf(h, Project(s, x.tenant), x, stmt) == EffectOf(h, s, x, stmt)
  {
    OrdinaryView(s.store, s.txns, x);
    ViewPart(s, x);
    HeldPart(s, x);
    ExecPart(h, ViewOf(s, x), Held(s.txns, x), x.tenant, s.txns[x].start, stmt);
  }

  // ---------------------------------------------------------------- the tenant's own steps

  /** A step does in the tenant's part what it does in the whole. */
  ghost predicate Same(whole: (State, Outcome), part: (State, Outcome), tenant: Uuid) {
    Project(whole.0, tenant) == part.0 && whole.1 == part.1
  }

  lemma GrowPart(s: State, x: Session, c: Writes, kind: Kind)
    requires x in s.txns
    ensures Project(Grow(s, x, c, kind), x.tenant) == Grow(Project(s, x.tenant), x, c, kind)
  {
  }

  lemma DropPart(s: State, x: Session)
    ensures Project(DropTxn(s, x), x.tenant) == DropTxn(Project(s, x.tenant), x)
  {
  }

  lemma CommitPart(s: State, x: Session)
    requires Safe(s) && x in s.txns
    ensures Project(CommitTxn(s, x), x.tenant) == CommitTxn(Project(s, x.tenant), x)
  {
    ViewPart(s, x);
    DropPart(s, x);
  }

  lemma FailPart(s: State, x: Session, j: JobId)
    requires j.tenant == x.tenant
    ensures Project(FailAttempt(s, x, j), x.tenant) == FailAttempt(Project(s, x.tenant), x, j)
  {
    DropPart(s, x);
    var job := if j in s.jobs then s.jobs[j].(phase := if s.jobs[j].attempts < MAX_ATTEMPTS then Waiting else Dead)
               else Job(0, 0, 0, Waiting, 0, 0);
    JobPart(s.jobs, j, job);
  }

  lemma JobPart(jobs: map<JobId, Job>, j: JobId, job: Job)
    ensures PartOfJobs(jobs[j := job], j.tenant) == PartOfJobs(jobs, j.tenant)[j := job]
  {
  }

  lemma SettlePart(s: State, x: Session, e: Effect)
    requires x in s.txns
    ensures Same(Settle(s, x, e), Settle(Project(s, x.tenant), x, e), x.tenant)
  {
    GrowPart(s, x, e.changes, Application);
    DropPart(s, x);
  }

  lemma WorkerInsertPart(s: State, x: Session, j: JobId, e: Effect, stage: Stage)
    requires x in s.txns && j.tenant == x.tenant
    ensures Same(WorkerInsert(s, x, j, e, stage), WorkerInsert(Project(s, x.tenant), x, j, e, stage), x.tenant)
  {
    GrowPart(s, x, e.changes, Worker(j, stage));
    FailPart(s, x, j);
  }

  lemma StagePart(s: State, x: Session, stage: Stage)
    requires WorkersOk(s)
    ensures AtStage(Project(s, x.tenant), x, stage) <==> AtStage(s, x, stage)
    ensures x in s.txns && s.txns[x].kind.Worker? ==> s.txns[x].kind.job.tenant == x.tenant
  {
  }

  lemma CheckPart(s: State, x: Session)
    requires Safe(s) && WorkersOk(s)
    ensures Same(StepCheckWorkflow(s, x), StepCheckWorkflow(Project(s, x.tenant), x), x.tenant)
  {
    StagePart(s, x, Started);
    if AtStage(s, x, Started) {
      var j := s.txns[x].kind.job;
      ViewPart(s, x);
      OrdinaryView(s.store, s.txns, x);
      TargetsPart(ViewOf(s, x), x.tenant, Workflows, Some(s.jobs[j].workflow));
      FailPart(s, x, j);
      GrowPart(s, x, map[], Worker(j, Checked));
    }
  }

  lemma LogExecutionPart(h: Hasher, s: State, x: Session, id: Uuid)
    requires Safe(s) && WorkersOk(s)
    ensures Same(StepLogExecution(h, s, x, id), StepLogExecution(h, Project(s, x.tenant), x, id), x.tenant)
  {
    StagePart(s, x, Checked);
    if AtStage(s, x, Checked) {
      var j := s.txns[x].kind.job;
      var stmt := LogStatement(x, id, s.jobs[j], s.txns[x].start);
      EffectPart(h, s, x, stmt);
      WorkerInsertPart(s, x, j, EffectOf(h, s, x, stmt), Logged);
    }
  }

  lemma LogAuditPart(h: Hasher, s: State, x: Session, id: Uuid, pick: Option<Key>)
    requires Safe(s) && WorkersOk(s)
    ensures Same(StepLogAudit(h, s, x, id, pick), StepLogAudit(h, Project(s, x.tenant), x, id, pick), x.tenant)
  {
    StagePart(s, x, Logged);
    if AtStage(s, x, Logged) {
      var j := s.txns[x].kind.job;
      var stmt := AuditStatement(x, id, s.jobs[j], s.txns[x].start, pick);
      EffectPart(h, s, x, stmt);
      WorkerInsertPart(s, x, j, EffectOf(h, s, x, stmt), Audited);
    }
  }

  lemma FinishPart(s: State, x: Session, acked: bool)
    requires Safe(s) && WorkersOk(s)
    ensures Same(StepFinish(s, x, acked), StepFinish(Project(s, x.tenant), x, acked), x.tenant)
  {
    StagePart(s, x, Audited);
    if AtStage(s, x, Audited) {
      var j := s.txns[x].kind.job;
      CommitPart(s, x);
      var s' := StepFinish(s, x, acked).0;
      JobPart(s.jobs, j, s'.jobs[j]);
      CommittedSnoc(s.committed, j, x.tenant);
    }
  }

  lemma CommittedSnoc(committed: seq<JobId>, j: JobId, tenant: Uuid)
    ensures PartOfCommitted(committed + [j], tenant) ==
      PartOfCommitted(committed, tenant) + (if j.tenant == tenant then [j] else [])
  {
  }

  lemma PendingPart(s: State, x: Session)
    requires Safe(s)
    ensures InsertPending(Project(s, x.tenant), x, x.tenant) <==> InsertPending(s, x, x.tenant)
  {
    var part := Project(s, x.tenant);
    if InsertPending(s, x, x.tenant) {
      var y, k :| y in s.txns && y != x && k in s.txns[y].writes
        && k.tenant == x.tenant && s.txns[y].writes[k].Some? && k !in s.store;
      OwnWrites(s, y, k);
      assert y in part.txns && part.txns[y] == s.txns[y] && k !in part.store;
    }
    if InsertPending(part, x, x.tenant) {
      var y, k :| y in part.txns && y != x && k in part.txns[y].writes
        && k.tenant == x.tenant && part.txns[y].writes[k].Some? && k !in part.store;
      assert y in s.txns && part.txns[y] == s.txns[y] && k !in s.store;
    }
  }

  /** The rows that the next delete of an erasure finds, and those it leaves. */
  lemma EraseTargetsPart(s: State, x: Session, n: nat)
    requires Safe(s) && x in s.txns && n < 10
    ensures
      var (view, part) := (ViewOf(s, x), ViewOf(Project(s, x.tenant), x));
      && EraseTargets(part, x.tenant, n) == EraseTargets(view, x.tenant, n)
      && (RowsRemain(part, x.tenant) <==> RowsRemain(view, x.tenant))
  {
  }

  lemma DisjointPart(ks: set<Key>, held: set<Key>, tenant: Uuid)
    requires forall k | k in ks :: k.tenant == tenant
    ensures ks !! OfTenant(held, tenant) <==> ks !! held
  {
  }

  lemma EraseRowsPart(s: State, x: Session, ks: set<Key>, n: nat, waits: bool, fails: bool)
    requires x in s.txns
    ensures Same(EraseRows(s, x, ks, n, waits, fails),
                 EraseRows(Project(s, x.tenant), x, ks, n, waits, fails), x.tenant)
  {
  }

  lemma EraseWaitsPart(s: State, x: Session, ks: set<Key>, n: nat)
    requires Safe(s) && forall k | k in ks :: k.tenant == x.tenant
    ensures EraseWaits(Project(s, x.tenant), x, ks, n) <==> EraseWaits(s, x, ks, n)
  {
    HeldPart(s, x);
    PendingPart(s, x);
    DisjointPart(ks, Held(s.txns, x), x.tenant);
  }

  lemma ErasePart(s: State, x: Session)
    requires Safe(s)
    ensures Same(StepEraseNext(s, x), StepEraseNext(Project(s, x.tenant), x), x.tenant)
  {
    if x in s.txns && s.txns[x].kind.Erasure? && s.txns[x].kind.done < 10 {
      var n := s.txns[x].kind.done;
      var ks := EraseTargets(ViewOf(s, x), x.tenant, n);
      EraseTargetsPart(s, x, n);
      EraseWaitsPart(s, x, ks, n);
      EraseRowsPart(s, x, ks, n, EraseWaits(s, x, ks, n), EraseFails(s, x, ks, n));
    }
  }

  lemma BeginPart(s: State, x: Session, txn: Txn)
    ensures PartOfTxns(s.txns[x := txn], x.tenant) == PartOfTxns(s.txns, x.tenant)[x := txn]
  {
  }

  lemma StartJobPart(s: State, x: Session, j: JobId, now: int)
    ensures Same(StepStartJob(s, x, j, now), StepStartJob(Project(s, x.tenant), x, j, now), x.tenant)
  {
    if j in s.jobs && j.tenant == x.tenant {
      BeginPart(s, x, Txn(now, Worker(j, Started), map[]));
      JobPart(s.jobs, j, s.jobs[j].(attempts := s.jobs[j].attempts + 1, phase := Active));
    }
  }

  lemma AbandonPart(s: State, x: Session)
    requires WorkersOk(s)
    ensures Same(StepAbandon(s, x), StepAbandon(Project(s, x.tenant), x), x.tenant)
  {
  }

  lemma DoPart(h: Hasher, s: State, x: Session, stmt: Statement)
    requires Safe(s) && Issued(x.tenant, stmt)
    ensures Same(StepDo(h, s, x, stmt), StepDo(h, Project(s, x.tenant), x, stmt), x.tenant)
  {
    if x in s.txns && s.txns[x].kind.Application? {
      EffectPart(h, s, x, stmt);
      SettlePart(s, x, EffectOf(h, s, x, stmt));
    }
  }

  lemma TxnPart(h: Hasher, s: State, l: Label)
    requires Safe(s)
    requires l.Begin? || l.BeginErasure? || l.Commit? || l.EndErasure? || l.Rollback?
    ensures Same(Step(h, s, l), Step(h, Project(s, l.x.tenant), l), l.x.tenant)
  {
    var x := l.x;
    if l.Begin? { BeginPart(s, x, Txn(l.now, Application, map[])); }
    if l.BeginErasure? { BeginPart(s, x, Txn(l.now, Erasure(0), map[])); }
    DropPart(s, x);
    if x in s.txns { CommitPart(s, x); }
  }

  /** A tenant's own step returns and does in its part what it returns and does in the whole. */
  lemma OwnStep(h: Hasher, s: State, l: Label, tenant: Uuid)
    requires Safe(s) && WorkersOk(s) && Legal(l) && TenantOf(l) == Some(tenant)
    ensures Same(Step(h, s, l), Step(h, Project(s, tenant), l), tenant)
  {
    match l
    case Do(x, stmt) => DoPart(h, s, x, stmt);
    case Enqueue(j, workflow, requestedBy) => JobPart(s.jobs, j, Job(workflow, requestedBy, 0, Waiting, 0, 0));
    case StartJob(x, j, now) => StartJobPart(s, x, j, now);
    case CheckWorkflow(x) => CheckPart(s, x);
    case LogExecution(x, id) => LogExecutionPart(h, s, x, id);
    case LogAudit(x, id, pick) => LogAuditPart(h, s, x, id, pick);
    case Finish(x, acked) => FinishPart(s, x, acked);
    case Abandon(x) => AbandonPart(s, x);
    case EraseNext(x) => ErasePart(s, x);
    case _ => TxnPart(h, s, l);
  }

  // ---------------------------------------------------------------- the others' steps

  /** What a step of another tenant's may change. */
  ghost predicate Elsewhere(s: State, s': State, x: Session) {
    && (s'.store == s.store || (x in s.txns && s'.store == ViewOf(s, x)))
    && (forall y | y != x :: (y in s'.txns <==> y in s.txns) && (y in s'.txns ==> s'.txns[y] == s.txns[y]))
    && (forall j: JobId | j.tenant != x.tenant ::
          (j in s'.jobs <==> j in s.jobs) && (j in s'.jobs ==> s'.jobs[j] == s.jobs[j]))
    && s'.pruned == s.pruned
    && (s'.committed == s.committed || exists j: JobId | j.tenant == x.tenant :: s'.committed == s.committed + [j])
  }

  lemma ElsewhereStore(s: State, s': State, x: Session, tenant: Uuid)
    requires Safe(s) && Elsewhere(s, s', x) && x.tenant != tenant
    ensures Part(s'.store, tenant) == Part(s.store, tenant)
    ensures PartOfCommitted(s'.committed, tenant) == PartOfCommitted(s.committed, tenant)
  {
    if s'.store != s.store {
      forall k | k in s.txns[x].writes ensures k.tenant != tenant { OwnWrites(s, x, k); }
      PartOfOthers(s.store, s.txns[x].writes, tenant);
    }
    if s'.committed != s.committed {
      var j: JobId :| j.tenant == x.tenant && s'.committed == s.committed + [j];
      CommittedSnoc(s.committed, j, tenant);
    }
  }

  lemma ElsewhereInvisible(s: State, s': State, x: Session, tenant: Uuid)
    requires Safe(s) && Elsewhere(s, s', x) && x.tenant != tenant
    ensures Project(s', tenant) == Project(s, tenant)
  {
    ElsewhereStore(s, s', x, tenant);
    assert PartOfTxns(s'.txns, tenant) == PartOfTxns(s.txns, tenant);
    assert PartOfJobs(s'.jobs, tenant) == PartOfJobs(s.jobs, tenant);
  }

  lemma WorkerInsertElsewhere(s: State, x: Session, j: JobId, e: Effect, stage: Stage)
    requires x in s.txns && j.tenant == x.tenant
    ensures Elsewhere(s, WorkerInsert(s, x, j, e, stage).0, x)
  {
  }

  lemma LogElsewhere(h: Hasher, s: State, x: Session, id: Uuid, pick: Option<Key>)
    requires WorkersOk(s)
    ensures Elsewhere(s, StepLogExecution(h, s, x, id).0, x)
    ensures Elsewhere(s, StepLogAudit(h, s, x, id, pick).0, x)
  {
    StagePart(s, x, Started);
    if x in s.txns && s.txns[x].kind.Worker? && s.txns[x].kind.job in s.jobs {
      var j := s.txns[x].kind.job;
      var start := s.txns[x].start;
      WorkerInsertElsewhere(s, x, j, EffectOf(h, s, x, LogStatement(x, id, s.jobs[j], start)), Logged);
      WorkerInsertElsewhere(s, x, j, EffectOf(h, s, x, AuditStatement(x, id, s.jobs[j], start, pick)), Audited);
    }
  }

  lemma AttemptElsewhere(s: State, x: Session, j: JobId, now: int)
    requires WorkersOk(s)
    ensures Elsewhere(s, StepStartJob(s, x, j, now).0, x)
    ensures Elsewhere(s, StepCheckWorkflow(s, x).0, x)
    ensures Elsewhere(s, StepAbandon(s, x).0, x)
  {
    StagePart(s, x, Started);
  }

  lemma FinishElsewhere(s: State, x: Session, acked: bool)
    requires WorkersOk(s)
    ensures Elsewhere(s, StepFinish(s, x, acked).0, x)
  {
  }

  lemma TxnElsewhere(h: Hasher, s: State, l: Label)
    requires l.Begin? || l.BeginErasure? || l.Commit? || l.EndErasure? || l.Rollback?
    ensures Elsewhere(s, Step(h, s, l).0, l.x)
  {
  }

  lemma SessionElsewhere(h: Hasher, s: State, l: Label)
    requires WorkersOk(s) && !l.Enqueue? && !l.Prune?
    ensures Elsewhere(s, Step(h, s, l).0, l.x)
  {
    match l
    case Do(x, stmt) => DoFrame(h, s, x, stmt);
    case EraseNext(x) => EraseNextFrame(s, x);
    case Finish(x, acked) => FinishElsewhere(s, x, acked);
    case Begin(_, _) => TxnElsewhere(h, s, l);
    case BeginErasure(_, _) => TxnElsewhere(h, s, l);
    case Commit(_) => TxnElsewhere(h, s, l);
    case EndErasure(_) => TxnElsewhere(h, s, l);
    case Rollback(_) => TxnElsewhere(h, s, l);
    case StartJob(x, j, now) => AttemptElsewhere(s, x, j, now);
    case CheckWorkflow(x) => AttemptElsewhere(s, x, JobId(0, 0), 0);
    case Abandon(x) => AttemptElsewhere(s, x, JobId(0, 0), 0);
    case LogExecution(x, id) => LogElsewhere(h, s, x, id, None);
    case LogAudit(x, id, pick) => LogElsewhere(h, s, x, id, pick);
  }

  /** No step of a tenant's changes, or shows in, any other tenant's part. */
  lemma OthersStep(h: Hasher, s: State, l: Label, tenant: Uuid)
    requires Safe(s) && WorkersOk(s) && TenantOf(l).Some? && TenantOf(l) != Some(tenant)
    ensures Project(Step(h, s, l).0, tenant) == Project(s, tenant)
  {
    if l.Enqueue? {
      assert PartOfJobs(Step(h, s, l).0.jobs, tenant) == PartOfJobs(s.jobs, tenant);
    } else {
      SessionElsewhere(h, s, l);
      ElsewhereInvisible(s, Step(h, s, l).0, l.x, tenant);
    }
  }

  // ---------------------------------------------------------------- pruning

  lemma PruneCounts(s: State, now: int, tenant: Uuid)
    ensures OfTenant(Expired(Part(s.store, tenant), now), tenant) == OfTenant(Expired(s.store, now), tenant)
    ensures Expired(Part(s.store, tenant), now) == OfTenant(Expired(s.store, now), tenant)
    ensures forall k | k in Expired(Part(s.store, tenant), now) :: k.tenant == tenant
  {
  }

  /** A prune that goes through prunes the tenant's part as it would alone. */
  lemma PrunePart(s: State, now: int, tenant: Uuid)
    requires StepPrune(s, now).1.Changed?
    ensures Project(StepPrune(s, now).0, tenant) == StepPrune(Project(s, tenant), now).0
  {
    var (gone, mine) := (Expired(s.store, now), Expired(Part(s.store, tenant), now));
    PruneCounts(s, now, tenant);
    assert mine !! HeldByAny(PartOfTxns(s.txns, tenant)) by {
      forall k | k in HeldByAny(PartOfTxns(s.txns, tenant)) ensures k in HeldByAny(s.txns) {}
    }
    var (s', p') := (StepPrune(s, now).0, StepPrune(Project(s, tenant), now).0);
    assert Part(s'.store, tenant) == p'.store;
    PrunedPart(s.pruned, gone, mine, tenant);
  }

  lemma PrunedPart(pruned: map<Uuid, nat>, gone: set<Key>, mine: set<Key>, tenant: Uuid)
    requires mine == OfTenant(gone, tenant) && OfTenant(mine, tenant) == OfTenant(gone, tenant)
    ensures
      var all := set k | k in gone :: k.tenant;
      var one := set k | k in mine :: k.tenant;
      var part := PartOfCounts(pruned, tenant);
      PartOfCounts(map t | t in all + pruned.Keys :: CountOf(pruned, t) + |OfTenant(gone, t)|, tenant)
        == map t | t in one + part.Keys :: CountOf(part, t) + |OfTenant(mine, t)|
  {
  }

  // ---------------------------------------------------------------- runs

  /** A step that a tenant sees: its own, or a prune that goes through. */
  predicate Visible(h: Hasher, s: State, l: Label, tenant: Uuid) {
    TenantOf(l) == Some(tenant) || (l.Prune? && Step(h, s, l).1.Changed?)
  }

  /** The labels of a run that the tenant sees. */
  function VisibleLabels(h: Hasher, s: State, ls: seq<Label>, tenant: Uuid): seq<Label> {
    if ls == [] then []
    else
      var n := |ls| - 1;
      VisibleLabels(h, s, ls[..n], tenant) + (if Visible(h, Run(h, s, ls[..n]), ls[n], tenant) then [ls[n]] else [])
  }

  /** A step the tenant sees does in its part what it does in the whole; any other does
      nothing there. */
  ghost predicate Projects(h: Hasher, s: State, l: Label, tenant: Uuid) {
    && Project(Step(h, s, l).0, tenant) ==
      (if Visible(h, s, l, tenant) then Step(h, Project(s, tenant), l).0 else Project(s, tenant))
    && (TenantOf(l) == Some(tenant) ==> Step(h, Project(s, tenant), l).1 == Step(h, s, l).1)
  }

  lemma OwnProjects(h: Hasher, s: State, l: Label, tenant: Uuid)
    requires Safe(s) && WorkersOk(s) && Legal(l) && TenantOf(l) == Some(tenant)
    ensures Projects(h, s, l, tenant)
  {
    OwnStep(h, s, l, tenant);
  }

  lemma OthersProject(h: Hasher, s: State, l: Label, tenant: Uuid)
    requires Safe(s) && WorkersOk(s) && TenantOf(l).Some? && TenantOf(l) != Some(tenant)
    ensures Projects(h, s, l, tenant)
  {
    OthersStep(h, s, l, tenant);
  }

  lemma PruneProjects(h: Hasher, s: State, l: Label, tenant: Uuid)
    requires l.Prune?
    ensures Projects(h, s, l, tenant)
  {
    if StepPrune(s, l.now).1.Changed? { PrunePart(s, l.now, tenant); }
  }

  lemma StepProjects(h: Hasher, s: State, l: Label, tenant: Uuid)
    requires Safe(s) && WorkersOk(s) && Legal(l)
    ensures Projects(h, s, l, tenant)
  {
    if TenantOf(l) == Some(tenant) {
      OwnProjects(h, s, l, tenant);
    } else if l.Prune? {
      PruneProjects(h, s, l, tenant);
    } else {
      OthersProject(h, s, l, tenant);
    }
  }

  /** What the tenant's own steps returned, in order. */
  function OutcomesOf(h: Hasher, s: State, ls: seq<Label>, tenant: Uuid): seq<Outcome> {
    if ls == [] then []
    else
      var n := |ls| - 1;
      OutcomesOf(h, s, ls[..n], tenant)
      + (if TenantOf(ls[n]) == Some(tenant) then [Step(h, Run(h, s, ls[..n]), ls[n]).1] else [])
  }

  lemma OutcomesSnoc(h: Hasher, s: State, ls: seq<Label>, l: Label, tenant: Uuid)
    ensures Run(h, s, ls + [l]) == Step(h, Run(h, s, ls), l).0
    ensures OutcomesOf(h, s, ls + [l], tenant) == OutcomesOf(h, s, ls, tenant)
      + (if TenantOf(l) == Some(tenant) then [Step(h, Run(h, s, ls), l).1] else [])
  {
  }

  /** Any run, seen from one tenant, is the run of its own part under its own labels. */
  lemma {:induction false} RunProjects(h: Hasher, s: State, ls: seq<Label>, tenant: Uuid)
    requires Safe(s) && JobsOk(s) && WorkersOk(s) && LegalRun(ls)
    ensures Project(Run(h, s, ls), tenant) == Run(h, Project(s, tenant), VisibleLabels(h, s, ls, tenant))
    ensures OutcomesOf(h, s, ls, tenant) == OutcomesOf(h, Project(s, tenant), VisibleLabels(h, s, ls, tenant), tenant)
  {
    if ls == [] {
    } else {
      var n := |ls| - 1;
      var (before, l) := (Run(h, s, ls[..n]), ls[n]);
      RunProjects(h, s, ls[..n], tenant);
      RunKeepsSafe(h, s, ls[..n]);
      AttemptsBounded(h, s, ls[..n]);
      var seen := VisibleLabels(h, s, ls[..n], tenant);
      StepProjects(h, before, l, tenant);
      OutcomesSnoc(h, Project(s, tenant), seen, l, tenant);
      assert seen + [] == seen && OutcomesOf(h, s, ls[..n], tenant) + [] == OutcomesOf(h, s, ls[..n], tenant);
    }
  }

  /** Two runs from states that agree on a tenant's part, with the same labels of the tenant
      and the same prunes, and with anything of other tenants in between: the tenant gets the
      same results and is left with the same rows, jobs and counts. */
  lemma Noninterference(h: Hasher, s: State, ls: seq<Label>, s': State, ls': seq<Label>, tenant: Uuid)
    requires Safe(s) && JobsOk(s) && WorkersOk(s) && LegalRun(ls)
    requires Safe(s') && JobsOk(s') && WorkersOk(s') && LegalRun(ls')
    requires Project(s, tenant) == Project(s', tenant)
    requires VisibleLabels(h, s, ls, tenant) == VisibleLabels(h, s', ls', tenant)
    ensures OutcomesOf(h, s, ls, tenant) == OutcomesOf(h, s', ls', tenant)
    ensures Project(Run(h, s, ls), tenant) == Project(Run(h, s', ls'), tenant)
  {
    RunProjects(h, s, ls, tenant);
    RunProjects(h, s', ls', tenant);
  }
}
