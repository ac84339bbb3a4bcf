/**
 The audit log under concurrency: whatever inserts, commits, rollbacks and erasures are
 interleaved, every committed entry's hash verifies, and every previous hash names a
 committed entry of the same tenant that is one generation older. Generations only grow
 along the links, so each tenant's entries form a forest.
 */
module AuditForest {
  import opened Schema
  import opened AuditChain
  import opened AuditTrail
  import opened Database
  import opened Cluster
  import opened ClusterInvariant
  import opened ErasureSafety
  import opened WorkflowIntegrity

  /** `parent` is an entry that `k` may be linked to. */
  ghost predicate IsParent(view: Store, k: Key, parent: Key) {
    && k in view && view[k].AuditEntry?
    && parent in view && view[parent].AuditEntry?
    && parent.tenant == k.tenant
    && view[parent].audit.currentHash == view[k].audit.previousHash
    && view[parent].generation + 1 == view[k].generation
  }

  /** An entry's own hash verifies; it is a root, or it has a parent. */
  ghost predicate EntryOk(h: Hasher, view: Store, k: Key)
    requires k in view && view[k].AuditEntry?
  {
    var e := view[k];
    && HashVerifies(h, e.audit)
    && (e.audit.previousHash.None? <==> e.generation == 0)
    && (e.generation > 0 ==> exists parent :: IsParent(view, k, parent))
  }

  ghost predicate Forest(h: Hasher, view: Store) {
    forall k | k in view && view[k].AuditEntry? :: EntryOk(h, view, k)
  }

  /** The committed log is a forest, and so is what each transaction but an erasure sees. */
  ghost predicate ForestOk(h: Hasher, s: State) {
    && Forest(h, s.store)
    && forall x | x in s.txns && !s.txns[x].kind.Erasure? :: Forest(h, ViewOf(s, x))
  }

  // ---------------------------------------------------------------- growing and joining

  ghost predicate SameEntry(u: Store, v: Store, k: Key) {
    k in u && u[k].AuditEntry? && k in v && v[k] == u[k]
  }

  /** Every entry of `v` is one of `u`'s or of `w`'s, and `v` has all of theirs. */
  ghost predicate Joins(u: Store, w: Store, v: Store) {
    && (forall k | k in v && v[k].AuditEntry? :: SameEntry(u, v, k) || SameEntry(w, v, k))
    && (forall k | k in u && u[k].AuditEntry? :: SameEntry(u, v, k))
    && (forall k | k in w && w[k].AuditEntry? :: SameEntry(w, v, k))
  }

  lemma EntryKept(h: Hasher, u: Store, v: Store, k: Key)
    requires Forest(h, u) && SameEntry(u, v, k)
    requires forall r | r in u && u[r].AuditEntry? && r.tenant == k.tenant :: SameEntry(u, v, r)
    ensures EntryOk(h, v, k)
  {
    assert EntryOk(h, u, k);
    if u[k].generation > 0 {
      var parent :| IsParent(u, k, parent);
      assert SameEntry(u, v, parent);
      assert IsParent(v, k, parent);
    }
  }

  lemma JoinForests(h: Hasher, u: Store, w: Store, v: Store)
    requires Forest(h, u) && Forest(h, w) && Joins(u, w, v)
    ensures Forest(h, v)
  {
    forall k | k in v && v[k].AuditEntry? ensures EntryOk(h, v, k) {
      if SameEntry(u, v, k) { EntryKept(h, u, v, k); } else { EntryKept(h, w, v, k); }
    }
  }

  /** The trigger's new row has the picked row as its parent. */
  lemma InsertGrowsForest(h: Hasher, view: Store, e: Event, pick: Option<Key>)
    requires Forest(h, view) && WellTyped(view) && EventKey(e) !in view
    requires IsLatest(AuditOf(view), e.tenant, pick)
    ensures Forest(h, view[EventKey(e) := AuditRowFor(h, view, e, pick)])
  {
    var k := EventKey(e);
    var v := view[k := AuditRowFor(h, view, e, pick)];
    if pick.Some? {
      assert EntryOk(h, view, pick.value);
      assert IsParent(v, k, pick.value);
    }
    forall r | r in v && v[r].AuditEntry? ensures EntryOk(h, v, r) {
      if r != k {
        assert SameEntry(view, v, r);
        EntryKept(h, view, v, r);
      }
    }
  }

  // ---------------------------------------------------------------- statements

  /** Changes that touch no audit entry leave the forest as it is. */
  lemma UntouchedForest(h: Hasher, view: Store, c: Writes)
    requires Forest(h, view) && WellTyped(view)
    requires forall k | k in c :: k.table != AuditLog && (c[k].Some? ==> !c[k].value.AuditEntry?)
    ensures Forest(h, Overlay(view, c))
  {
    var v := Overlay(view, c);
    forall k | k in view && view[k].AuditEntry? ensures SameEntry(view, v, k) {
      assert Fits(k, view[k]);
    }
    JoinForests(h, view, view, v);
  }

  lemma StatementForest(h: Hasher, view: Store, held: set<Key>, setting: Uuid, start: int, stmt: Statement)
    requires Forest(h, view) && WellTyped(view)
    requires Issued(setting, stmt) || WorkerIssued(setting, stmt)
    ensures Forest(h, Overlay(view, Exec(h, view, held, setting, start, stmt).changes))
  {
    var c := Exec(h, view, held, setting, start, stmt).changes;
    if stmt.InsertAudit? {
      var e := stmt.event.(at := start);
      if c != map[] {
        AuditInserted(h, view, held, setting, start, stmt.event, stmt.pick);
        InsertGrowsForest(h, view, e, stmt.pick);
      } else {
        UntouchedForest(h, view, c);
      }
    } else {
      forall k | k in c ensures k.table != AuditLog && (c[k].Some? ==> !c[k].value.AuditEntry?) {
        if Issued(setting, stmt) { IssuedChanges(h, view, held, setting, start, stmt, k); }
      }
      UntouchedForest(h, view, c);
    }
  }

  /** A step that leaves the store and all transactions but one alone. */
  lemma OneTxnForest(h: Hasher, s: State, s': State, x: Session)
    requires ForestOk(h, s) && s'.store == s.store
    requires forall y | y in s'.txns && y != x :: y in s.txns && s'.txns[y] == s.txns[y]
    requires x in s'.txns && !s'.txns[x].kind.Erasure? ==> Forest(h, ViewOf(s', x))
    ensures ForestOk(h, s')
  {
  }

  lemma GrowForest(h: Hasher, s: State, x: Session, stmt: Statement, kind: Kind)
    requires Safe(s) && ForestOk(h, s) && x in s.txns && !s.txns[x].kind.Erasure? && !kind.Erasure?
    requires Issued(x.tenant, stmt) || WorkerIssued(x.tenant, stmt)
    ensures ForestOk(h, Grow(s, x, EffectOf(h, s, x, stmt).changes, kind))
  {
    var view := ViewOf(s, x);
    var c := EffectOf(h, s, x, stmt).changes;
    assert Forest(h, view);
    OrdinaryView(s.store, s.txns, x);
    StatementForest(h, view, Held(s.txns, x), x.tenant, s.txns[x].start, stmt);
    OverlayTwice(s.store, s.txns[x].writes, c);
    OneTxnForest(h, s, Grow(s, x, c, kind), x);
  }

  lemma DropForest(h: Hasher, s: State, s': State, x: Session)
    requires ForestOk(h, s) && s'.store == s.store && s'.txns == s.txns - {x}
    ensures ForestOk(h, s')
  {
  }

  // ---------------------------------------------------------------- commits

  /** Audit entries are only ever new: nothing updates or deletes a committed one. */
  ghost predicate AuditsAreNew(store: Store, w: Writes) {
    forall k | k in w && k.table == AuditLog :: k !in store && w[k].Some?
  }

  lemma TransactionAddsAudits(s: State, x: Session)
    requires Safe(s) && RowsOk(s) && x in s.txns && !s.txns[x].kind.Erasure?
    ensures AuditsAreNew(s.store, s.txns[x].writes)
  {
    assert TxnOk(s.store, s.txns, x) && TxnRowsOk(s.store, s.jobs, x, s.txns[x]);
  }

  /** Two transactions' new entries on one store, together. */
  lemma NewAuditsJoin(store: Store, a: Writes, b: Writes)
    requires WellTyped(Overlay(store, a)) && WellTyped(Overlay(store, b))
    requires AuditsAreNew(store, a) && AuditsAreNew(store, b)
    requires a.Keys !! b.Keys
    ensures Joins(Overlay(store, b), Overlay(store, a), Overlay(Overlay(store, a), b))
  {
  }

  /** What another transaction sees after a commit: its own view and the committed rows. */
  lemma CommitJoins(h: Hasher, s: State, x: Session, y: Session)
    requires Safe(s) && RowsOk(s) && x in s.txns && y in s.txns && x != y
    requires !s.txns[x].kind.Erasure? && !s.txns[y].kind.Erasure?
    ensures Joins(ViewOf(s, y), ViewOf(s, x), Overlay(ViewOf(s, x), s.txns[y].writes))
  {
    OrdinaryView(s.store, s.txns, x);
    OrdinaryView(s.store, s.txns, y);
    TransactionAddsAudits(s, x);
    TransactionAddsAudits(s, y);
    NewAuditsJoin(s.store, s.txns[x].writes, s.txns[y].writes);
  }

  lemma CommitForest(h: Hasher, s: State, x: Session, s': State)
    requires Safe(s) && RowsOk(s) && ForestOk(h, s) && x in s.txns && !s.txns[x].kind.Erasure?
    requires s'.store == ViewOf(s, x) && s'.txns == s.txns - {x}
    ensures ForestOk(h, s')
  {
    assert Forest(h, ViewOf(s, x));
    forall y | y in s'.txns && !s'.txns[y].kind.Erasure? ensures Forest(h, ViewOf(s', y)) {
      assert Forest(h, ViewOf(s, y));
      CommitJoins(h, s, x, y);
      JoinForests(h, ViewOf(s, y), ViewOf(s, x), ViewOf(s', y));
    }
  }

  /** A tenant's entries go together; the other tenants' forests stay. */
  lemma WithoutTenant(h: Hasher, view: Store, v: Store, tenant: Uuid)
    requires Forest(h, view)
    requires forall k | k in v && v[k].AuditEntry? :: k.tenant != tenant && k in view && v[k] == view[k]
    requires forall k | k in view && view[k].AuditEntry? && k.tenant != tenant :: k in v && v[k] == view[k]
    ensures Forest(h, v)
  {
    forall k | k in v && v[k].AuditEntry? ensures EntryOk(h, v, k) {
      assert SameEntry(view, v, k);
      EntryKept(h, view, v, k);
    }
  }

  lemma ErasedViews(s: State, x: Session, y: Session, k: Key)
    requires Safe(s) && x in s.txns && s.txns[x].kind == Erasure(10)
    requires y in s.txns && y != x && !s.txns[y].kind.Erasure?
    ensures var (u, v) := (ViewOf(s, y), Overlay(ViewOf(s, x), s.txns[y].writes));
      && (k in v <==> k in u && k.tenant != x.tenant)
      && (k in v ==> v[k] == u[k])
  {
  }

  lemma EndErasureForest(h: Hasher, s: State, x: Session)
    requires Safe(s) && ForestOk(h, s) && x in s.txns && s.txns[x].kind == Erasure(10)
    ensures ForestOk(h, CommitTxn(s, x))
  {
    var s' := CommitTxn(s, x);
    EndErasureRemoves(s.store, s.txns, x);
    WithoutTenant(h, s.store, s'.store, x.tenant);
    forall y | y in s'.txns && !s'.txns[y].kind.Erasure? ensures Forest(h, ViewOf(s', y)) {
      assert Forest(h, ViewOf(s, y));
      forall k { ErasedViews(s, x, y, k); }
      WithoutTenant(h, ViewOf(s, y), ViewOf(s', y), x.tenant);
    }
  }

  lemma PrunedView(s: State, gone: set<Key>, y: Session)
    requires Safe(s) && y in s.txns && gone !! HeldByAny(s.txns)
    requires forall k | k in gone :: k in s.store && s.store[k].ExecutionRow?
    ensures Overlay(s.store - gone, s.txns[y].writes) == Overlay(s.store, s.txns[y].writes) - gone
    ensures forall k | k in gone && k in ViewOf(s, y) :: ViewOf(s, y)[k].ExecutionRow?
  {
    forall k | k in gone ensures k !in s.txns[y].writes {
      assert k in s.txns[y].writes ==> k in HeldByAny(s.txns);
    }
  }

  lemma MinusForest(h: Hasher, view: Store, gone: set<Key>)
    requires Forest(h, view) && forall k | k in gone && k in view :: view[k].ExecutionRow?
    ensures Forest(h, view - gone)
  {
    var v := view - gone;
    forall k | k in view && view[k].AuditEntry? ensures SameEntry(view, v, k) {}
    JoinForests(h, view, view, v);
  }

  lemma PruneForest(h: Hasher, s: State, now: int)
    requires Safe(s) && ForestOk(h, s)
    ensures ForestOk(h, StepPrune(s, now).0)
  {
    var gone := Expired(s.store, now);
    var s' := StepPrune(s, now).0;
    if StepPrune(s, now).1.Changed? {
      MinusForest(h, s.store, gone);
      forall y | y in s'.txns && !s'.txns[y].kind.Erasure? ensures Forest(h, ViewOf(s', y)) {
        assert Forest(h, ViewOf(s, y));
        PrunedView(s, gone, y);
        MinusForest(h, ViewOf(s, y), gone);
      }
    }
  }

  // ---------------------------------------------------------------- every step, every run

  lemma WorkerForest(h: Hasher, s: State, x: Session, j: JobId, e: Effect, stage: Stage)
    requires ForestOk(h, s) && x in s.txns && s.txns[x].kind.Worker?
    requires ForestOk(h, Grow(s, x, e.changes, Worker(j, stage)))
    ensures ForestOk(h, WorkerInsert(s, x, j, e, stage).0)
  {
  }

  lemma LogExecutionForest(h: Hasher, s: State, x: Session, id: Uuid)
    requires Safe(s) && ForestOk(h, s)
    ensures ForestOk(h, StepLogExecution(h, s, x, id).0)
  {
    if AtStage(s, x, Checked) {
      var j := s.txns[x].kind.job;
      var stmt := LogStatement(x, id, s.jobs[j], s.txns[x].start);
      GrowForest(h, s, x, stmt, Worker(j, Logged));
      WorkerForest(h, s, x, j, EffectOf(h, s, x, stmt), Logged);
    }
  }

  lemma LogAuditForest(h: Hasher, s: State, x: Session, id: Uuid, pick: Option<Key>)
    requires Safe(s) && ForestOk(h, s)
    ensures ForestOk(h, StepLogAudit(h, s, x, id, pick).0)
  {
    if AtStage(s, x, Logged) {
      var j := s.txns[x].kind.job;
      var stmt := AuditStatement(x, id, s.jobs[j], s.txns[x].start, pick);
      GrowForest(h, s, x, stmt, Worker(j, Audited));
      WorkerForest(h, s, x, j, EffectOf(h, s, x, stmt), Audited);
    }
  }

  lemma CheckForest(h: Hasher, s: State, x: Session)
    requires ForestOk(h, s)
    ensures ForestOk(h, StepCheckWorkflow(s, x).0)
  {
    if AtStage(s, x, Started) {
      var j := s.txns[x].kind.job;
      DropForest(h, s, FailAttempt(s, x, j), x);
      assert Forest(h, ViewOf(s, x));
      assert s.txns[x].writes + map[] == s.txns[x].writes;
      OneTxnForest(h, s, Grow(s, x, map[], Worker(j, Checked)), x);
    }
  }

  lemma DoForest(h: Hasher, s: State, x: Session, stmt: Statement)
    requires Safe(s) && ForestOk(h, s) && x in s.txns && s.txns[x].kind.Application? && Issued(x.tenant, stmt)
    ensures ForestOk(h, Settle(s, x, EffectOf(h, s, x, stmt)).0)
  {
    GrowForest(h, s, x, stmt, Application);
    SettleForest(h, s, x, EffectOf(h, s, x, stmt));
  }

  lemma SettleForest(h: Hasher, s: State, x: Session, e: Effect)
    requires ForestOk(h, s) && x in s.txns && ForestOk(h, Grow(s, x, e.changes, Application))
    ensures ForestOk(h, Settle(s, x, e).0)
  {
  }

  lemma SimpleForest(h: Hasher, s: State, l: Label)
    requires ForestOk(h, s)
    requires l.Begin? || l.Rollback? || l.StartJob? || l.BeginErasure?
    ensures ForestOk(h, Step(h, s, l).0)
  {
    OverlayNothing(s.store, map[]);
    OneTxnForest(h, s, Step(h, s, l).0, l.x);
  }

  lemma EraseNextForest(h: Hasher, s: State, x: Session)
    requires ForestOk(h, s)
    ensures ForestOk(h, StepEraseNext(s, x).0)
  {
    var s' := StepEraseNext(s, x).0;
    EraseNextFrame(s, x);
    if s' != s { OneTxnForest(h, s, s', x); }
  }

  lemma AttemptEndForest(h: Hasher, s: State, l: Label)
    requires Safe(s) && RowsOk(s) && ForestOk(h, s) && (l.Finish? || l.Abandon?)
    ensures ForestOk(h, Step(h, s, l).0)
  {
    match l
    case Finish(x, acked) => if AtStage(s, x, Audited) { CommitForest(h, s, x, StepFinish(s, x, acked).0); }
    case Abandon(x) =>
      if x in s.txns && s.txns[x].kind.Worker? { DropForest(h, s, FailAttempt(s, x, s.txns[x].kind.job), x); }
  }

  lemma WorkerStepForest(h: Hasher, s: State, l: Label)
    requires Safe(s) && RowsOk(s) && ForestOk(h, s)
    requires l.CheckWorkflow? || l.LogExecution? || l.LogAudit? || l.Finish? || l.Abandon?
    ensures ForestOk(h, Step(h, s, l).0)
  {
    match l
    case CheckWorkflow(x) => CheckForest(h, s, x);
    case LogExecution(x, id) => LogExecutionForest(h, s, x, id);
    case LogAudit(x, id, pick) => LogAuditForest(h, s, x, id, pick);
    case _ => AttemptEndForest(h, s, l);
  }

  lemma StepKeepsForest(h: Hasher, s: State, l: Label)
    requires Safe(s) && RowsOk(s) && ForestOk(h, s) && Legal(l)
    ensures ForestOk(h, Step(h, s, l).0)
  {
    match l
    case Do(x, stmt) => if x in s.txns && s.txns[x].kind.Application? { DoForest(h, s, x, stmt); }
    case Commit(x) => if x in s.txns && s.txns[x].kind.Application? { CommitForest(h, s, x, CommitTxn(s, x)); }
    case Enqueue(_, _, _) =>
    case EndErasure(x) => if x in s.txns && s.txns[x].kind == Erasure(10) { EndErasureForest(h, s, x); }
    case Prune(now) => PruneForest(h, s, now);
    case EraseNext(x) => EraseNextForest(h, s, x);
    case _ =>
      if l.Begin? || l.Rollback? || l.StartJob? || l.BeginErasure? { SimpleForest(h, s, l); }
      else { WorkerStepForest(h, s, l); }
  }

  /** In every reachable state, from a log that is empty, each tenant's committed audit
      entries form a forest: each verifies, and is a root or hangs on an older entry. */
  lemma {:induction false} LogIsForest(h: Hasher, s: State, ls: seq<Label>)
    requires Initial(s) && LegalRun(ls)
    ensures ForestOk(h, Run(h, s, ls))
  {
    InitialOk(s);
    if ls == [] {
      forall k | k in s.store ensures !s.store[k].AuditEntry? {
        assert Fits(k, s.store[k]);
      }
    } else {
      var n := |ls| - 1;
      LogIsForest(h, s, ls[..n]);
      RunKeepsRows(h, s, ls[..n]);
      StepKeepsForest(h, Run(h, s, ls[..n]), ls[n]);
    }
  }

  /** Following the links from any committed entry leads to a root of its tenant, in as many
      steps as its generation. */
  ghost predicate PathToRoot(store: Store, path: seq<Key>) {
    && path != []
    && (forall i | 0 <= i < |path| :: path[i] in store && store[path[i]].AuditEntry?)
    && (forall i | 0 <= i < |path| - 1 :: IsParent(store, path[i], path[i + 1]))
    && store[path[|path| - 1]].audit.previousHash.None?
  }

  lemma LongerPath(store: Store, k: Key, rest: seq<Key>)
    requires PathToRoot(store, rest) && IsParent(store, k, rest[0]) && k in store && store[k].AuditEntry?
    ensures PathToRoot(store, [k] + rest)
  {
    var path := [k] + rest;
    assert path[1..] == rest;
    forall i | 0 <= i < |path| - 1 ensures IsParent(store, path[i], path[i + 1]) {
      assert i > 0 ==> path[i] == rest[i - 1] && path[i + 1] == rest[i];
    }
  }

  lemma {:induction false} EveryEntryHasRoot(h: Hasher, store: Store, k: Key) returns (path: seq<Key>)
    requires Forest(h, store) && k in store && store[k].AuditEntry?
    ensures PathToRoot(store, path) && path[0] == k
    ensures |path| == store[k].generation + 1
    decreases store[k].generation
  {
    assert EntryOk(h, store, k);
    if store[k].generation == 0 {
      path := [k];
    } else {
      var parent :| IsParent(store, k, parent);
      var rest := EveryEntryHasRoot(h, store, parent);
      LongerPath(store, k, rest);
      path := [k] + rest;
    }
  }
}
