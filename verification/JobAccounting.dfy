/**
 The books over whole runs: for every tenant that exists, the execution rows kept plus the
 ones pruned, the worker's audit entries, and the committed attempts are equally many.
 */
module JobAccounting {
  import opened Schema
  import opened AuditChain
  import opened Database
  import opened Cluster
  import opened ClusterInvariant
  import opened ErasureSafety
  import opened JobLifecycle
  import opened WorkflowIntegrity

  function ExecutionRows(store: Store, tenant: Uuid): set<Key> {
    set k | k in store && k.tenant == tenant && k.table == ExecutionLogs
  }

  function ExecutedEntries(store: Store, tenant: Uuid): set<Key> {
    set k | k in store && k.tenant == tenant && IsExecuted(store[k])
  }

  /** How many of the committed attempts were this tenant's. */
  function AttemptsOf(committed: seq<JobId>, tenant: Uuid): nat {
    if committed == [] then 0
    else
      var n := |committed| - 1;
      AttemptsOf(committed[..n], tenant) + (if committed[n].tenant == tenant then 1 else 0)
  }

  ghost predicate BalancedFor(s: State, tenant: Uuid) {
    && |ExecutionRows(s.store, tenant)| + CountOf(s.pruned, tenant) == AttemptsOf(s.committed, tenant)
    && |ExecutedEntries(s.store, tenant)| == AttemptsOf(s.committed, tenant)
  }

  ghost predicate Balanced(s: State) {
    forall tenant | TenantKey(tenant) in s.store :: BalancedFor(s, tenant)
  }

  /** Steps that leave a tenant's counted rows alone. */
  lemma SameBooks(s: State, s': State, tenant: Uuid)
    requires BalancedFor(s, tenant)
    requires ExecutionRows(s'.store, tenant) == ExecutionRows(s.store, tenant)
    requires ExecutedEntries(s'.store, tenant) == ExecutedEntries(s.store, tenant)
    requires s'.pruned == s.pruned && s'.committed == s.committed
    ensures BalancedFor(s', tenant)
  {
  }

  lemma CommitBooks(s: State, x: Session)
    requires Safe(s) && RowsOk(s) && Balanced(s) && x in s.txns && s.txns[x].kind.Application?
    ensures Balanced(CommitTxn(s, x))
  {
    var s' := CommitTxn(s, x);
    var w := s.txns[x].writes;
    assert TxnOk(s.store, s.txns, x) && TxnRowsOk(s.store, s.jobs, x, s.txns[x]);
    forall k ensures k in s'.store && k.table == ExecutionLogs <==> k in s.store && k.table == ExecutionLogs {}
    forall k ensures (k in s'.store && IsExecuted(s'.store[k])) <==> (k in s.store && IsExecuted(s.store[k])) {
      if k in s.store && IsExecuted(s.store[k]) { assert Fits(k, s.store[k]); }
    }
    forall tenant | TenantKey(tenant) in s'.store ensures BalancedFor(s', tenant) {
      assert TenantKey(tenant) !in w;
      assert ExecutionRows(s'.store, tenant) == ExecutionRows(s.store, tenant);
      assert ExecutedEntries(s'.store, tenant) == ExecutedEntries(s.store, tenant);
      SameBooks(s, s', tenant);
    }
  }

  lemma AttemptsSnoc(committed: seq<JobId>, j: JobId, tenant: Uuid)
    ensures AttemptsOf(committed + [j], tenant) == AttemptsOf(committed, tenant) + (if j.tenant == tenant then 1 else 0)
  {
  }

  /** A worker's commit adds one row and one entry to its tenant's books ... */
  lemma FinishCounts(store: Store, x: Session, txn: Txn, job: Job, k: Key, a: Key, tenant: Uuid)
    requires IsAudited(store, x, txn, job, k, a)
    ensures var store' := Overlay(store, txn.writes);
      && ExecutionRows(store', tenant) == ExecutionRows(store, tenant) + (if tenant == x.tenant then {k} else {})
      && ExecutedEntries(store', tenant) == ExecutedEntries(store, tenant) + (if tenant == x.tenant then {a} else {})
  {
  }

  /** ... and one attempt. */
  lemma FinishBooksOf(s: State, s': State, x: Session, j: JobId, k: Key, a: Key, tenant: Uuid)
    requires x in s.txns && j in s.jobs && j.tenant == x.tenant && BalancedFor(s, tenant)
    requires IsAudited(s.store, x, s.txns[x], s.jobs[j], k, a)
    requires s'.store == ViewOf(s, x) && s'.pruned == s.pruned && s'.committed == s.committed + [j]
    ensures BalancedFor(s', tenant)
  {
    FinishCounts(s.store, x, s.txns[x], s.jobs[j], k, a, tenant);
    AttemptsSnoc(s.committed, j, tenant);
    assert k !in ExecutionRows(s.store, tenant) && a !in ExecutedEntries(s.store, tenant);
  }

  lemma FinishBooks(s: State, x: Session, acked: bool)
    requires Safe(s) && RowsOk(s) && WorkersOk(s) && Balanced(s)
    ensures Balanced(StepFinish(s, x, acked).0)
  {
    if AtStage(s, x, Audited) {
      var s' := StepFinish(s, x, acked).0;
      var j := s.txns[x].kind.job;
      assert TxnRowsOk(s.store, s.jobs, x, s.txns[x]);
      var k, a :| IsAudited(s.store, x, s.txns[x], s.jobs[j], k, a);
      forall tenant | TenantKey(tenant) in s'.store ensures BalancedFor(s', tenant) {
        assert TenantKey(tenant) !in s.txns[x].writes;
        assert TenantKey(tenant) in s.store;
        FinishBooksOf(s, s', x, j, k, a, tenant);
      }
    }
  }

  lemma EndErasureBooks(s: State, x: Session)
    requires Safe(s) && Balanced(s) && x in s.txns && s.txns[x].kind == Erasure(10)
    ensures Balanced(CommitTxn(s, x))
  {
    var s' := CommitTxn(s, x);
    EndErasureRemoves(s.store, s.txns, x);
    forall tenant | TenantKey(tenant) in s'.store ensures BalancedFor(s', tenant) {
      assert ExecutionRows(s'.store, tenant) == ExecutionRows(s.store, tenant);
      assert ExecutedEntries(s'.store, tenant) == ExecutedEntries(s.store, tenant);
      SameBooks(s, s', tenant);
    }
  }

  lemma PruneBooksOf(s: State, s': State, gone: set<Key>, tenant: Uuid)
    requires BalancedFor(s, tenant) && s'.store == s.store - gone && s'.committed == s.committed
    requires forall k | k in gone :: k in s.store && k.table == ExecutionLogs && !IsExecuted(s.store[k])
    requires CountOf(s'.pruned, tenant) == CountOf(s.pruned, tenant) + |OfTenant(gone, tenant)|
    ensures BalancedFor(s', tenant)
  {
    var part := OfTenant(gone, tenant);
    assert ExecutionRows(s'.store, tenant) == ExecutionRows(s.store, tenant) - part;
    assert part <= ExecutionRows(s.store, tenant);
    assert ExecutedEntries(s'.store, tenant) == ExecutedEntries(s.store, tenant);
  }

  /** Pruning moves rows from one side of the sum to the other. */
  lemma PruneBooks(s: State, now: int)
    requires Safe(s) && Balanced(s)
    ensures Balanced(StepPrune(s, now).0)
  {
    var s' := StepPrune(s, now).0;
    var gone := Expired(s.store, now);
    if StepPrune(s, now).1.Changed? {
      forall k | k in gone ensures k.table == ExecutionLogs && !IsExecuted(s.store[k]) {
        assert Fits(k, s.store[k]);
      }
      forall tenant | TenantKey(tenant) in s'.store ensures BalancedFor(s', tenant) {
        assert BalancedFor(s, tenant);
        PrunedCount(s, now, tenant);
        PruneBooksOf(s, s', gone, tenant);
      }
    }
  }

  lemma PrunedCount(s: State, now: int, tenant: Uuid)
    requires StepPrune(s, now).1.Changed?
    ensures CountOf(StepPrune(s, now).0.pruned, tenant)
      == CountOf(s.pruned, tenant) + |OfTenant(Expired(s.store, now), tenant)|
  {
  }

  lemma StepKeepsBooks(h: Hasher, s: State, l: Label)
    requires Safe(s) && RowsOk(s) && WorkersOk(s) && Balanced(s)
    ensures Balanced(Step(h, s, l).0)
  {
    match l
    case Commit(x) => if x in s.txns && s.txns[x].kind.Application? { CommitBooks(s, x); }
    case Finish(x, acked) => FinishBooks(s, x, acked);
    case EndErasure(x) => if x in s.txns && s.txns[x].kind == Erasure(10) { EndErasureBooks(s, x); }
    case Prune(now) => PruneBooks(s, now);
    case _ => QuietSteps(h, s, l);
  }

  lemma InitialBooks(s: State)
    requires Initial(s)
    ensures Balanced(s)
  {
  }

  /** After every run from a database without executions, every existing tenant's books
      balance. */
  lemma {:induction false} BooksBalance(h: Hasher, s: State, ls: seq<Label>)
    requires Initial(s) && LegalRun(ls)
    ensures Balanced(Run(h, s, ls))
  {
    InitialOk(s);
    if ls == [] {
      InitialBooks(s);
    } else {
      var n := |ls| - 1;
      BooksBalance(h, s, ls[..n]);
      RunKeepsRows(h, s, ls[..n]);
      AttemptsBounded(h, s, ls[..n]);
      StepKeepsBooks(h, Run(h, s, ls[..n]), ls[n]);
    }
  }

  // ---------------------------------------------------------------- attempts and commits

  function CommitsOf(committed: seq<JobId>, j: JobId): nat {
    multiset(committed)[j]
  }

  /** Each job's commit counter counts its entries in the history. */
  ghost predicate CommitsRecorded(s: State) {
    && (forall j | j in s.jobs :: s.jobs[j].commits == CommitsOf(s.committed, j))
    && (forall i | 0 <= i < |s.committed| :: s.committed[i] in s.jobs)
  }

  lemma CommitsSnoc(committed: seq<JobId>, j: JobId, i: JobId)
    ensures CommitsOf(committed + [j], i) == CommitsOf(committed, i) + (if i == j then 1 else 0)
  {
  }

  lemma StepRecordsCommits(h: Hasher, s: State, l: Label)
    requires CommitsRecorded(s)
    ensures CommitsRecorded(Step(h, s, l).0)
  {
    if l.Finish? {
      if AtStage(s, l.x, Audited) {
        forall i { CommitsSnoc(s.committed, s.txns[l.x].kind.job, i); }
      }
    } else if l.Enqueue? {
      assert l.j !in s.jobs ==> l.j !in s.committed;
    } else {
      JobCommitsUntouched(h, s, l);
    }
  }

  lemma JobCommitsUntouched(h: Hasher, s: State, l: Label)
    requires !l.Finish? && !l.Enqueue?
    ensures var s' := Step(h, s, l).0;
      && s'.committed == s.committed && s'.jobs.Keys == s.jobs.Keys
      && forall j | j in s.jobs :: s'.jobs[j].commits == s.jobs[j].commits
  {
    match l
    case Do(x, stmt) => DoFrame(h, s, x, stmt);
    case LogExecution(x, id) => LogFrame(h, s, x, id, None);
    case LogAudit(x, id, pick) => LogFrame(h, s, x, id, pick);
    case EraseNext(x) => EraseNextFrame(s, x);
    case _ =>
  }

  /** In every run: a job that is done without a lost acknowledgement has committed exactly
      once, and one that is not done and lost none has never committed. */
  lemma {:induction false} CommitsPerJob(h: Hasher, s: State, ls: seq<Label>, j: JobId)
    requires Initial(s)
    ensures CommitsRecorded(Run(h, s, ls))
    ensures j in Run(h, s, ls).jobs && Run(h, s, ls).jobs[j].lostAcks == 0 ==>
      CommitsOf(Run(h, s, ls).committed, j) == if Run(h, s, ls).jobs[j].phase.Completed? then 1 else 0
  {
    InitialOk(s);
    AttemptsBounded(h, s, ls);
    if ls == [] {
    } else {
      var n := |ls| - 1;
      CommitsPerJob(h, s, ls[..n], j);
      StepRecordsCommits(h, Run(h, s, ls[..n]), ls[n]);
    }
  }
}
