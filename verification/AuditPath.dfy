/**
 The audit log when transactions follow one another and each tenant's times increase: the
 forest of every tenant is a single path, without forks and with one root.
 */
module AuditPath {
  import opened Schema
  import opened AuditChain
  import opened AuditOrder
  import opened AuditTrail
  import opened Database
  import opened Cluster
  import opened ClusterInvariant
  import opened ErasureSafety
  import opened WorkflowIntegrity
  import opened AuditForest

  predicate IsEntry(view: Store, k: Key) {
    k in view && view[k].AuditEntry?
  }

  /** No two entries of the tenant are equally far from a root, and the later one is the one
      further away. */
  ghost predicate OnePath(view: Store, tenant: Uuid) {
    forall a, b | IsEntry(view, a) && IsEntry(view, b) && a.tenant == b.tenant == tenant && a != b ::
      && view[a].generation != view[b].generation
      && (view[a].generation < view[b].generation <==> view[a].audit.event.at < view[b].audit.event.at)
  }

  ghost predicate Paths(view: Store) {
    forall tenant :: OnePath(view, tenant)
  }

  /** In a forest that is one path no two entries hang on the same one, and there is one root. */
  lemma PathHasNoForks(h: Hasher, view: Store, a: Key, b: Key)
    requires Forest(h, view) && Paths(view) && IsEntry(view, a) && IsEntry(view, b) && a.tenant == b.tenant
    requires
      || (view[a].audit.previousHash.None? && view[b].audit.previousHash.None?)
      || exists parent :: IsParent(view, a, parent) && IsParent(view, b, parent)
    ensures a == b
  {
    assert EntryOk(h, view, a) && EntryOk(h, view, b);
    assert OnePath(view, a.tenant);
  }

  /** One transaction at a time; what each sees, and what is committed, are paths. */
  ghost predicate Serial(s: State) {
    && (forall x, y | x in s.txns && y in s.txns :: x == y)
    && Paths(s.store)
    && forall x | x in s.txns :: Paths(ViewOf(s, x))
  }

  ghost predicate LaterThanAll(view: Store, tenant: Uuid, now: int) {
    forall k | IsEntry(view, k) && k.tenant == tenant :: view[k].audit.event.at < now
  }

  /** A transaction begins when no other is open, and an audit insert comes later than what its
      tenant has. */
  ghost predicate InTurn(s: State, l: Label) {
    match l
    case Begin(_, _) => s.txns == map[]
    case StartJob(_, _, _) => s.txns == map[]
    case BeginErasure(_, _) => s.txns == map[]
    case Do(x, stmt) => x in s.txns && stmt.InsertAudit? ==> LaterThanAll(ViewOf(s, x), x.tenant, s.txns[x].start)
    case LogAudit(x, _, _) => x in s.txns ==> LaterThanAll(ViewOf(s, x), x.tenant, s.txns[x].start)
    case _ => true
  }

  // ---------------------------------------------------------------- views

  /** Every entry of `v` is one of `u`. */
  ghost predicate FewerEntries(u: Store, v: Store) {
    forall k | IsEntry(v, k) :: k in u && u[k] == v[k]
  }

  lemma FewerPaths(u: Store, v: Store)
    requires Paths(u) && FewerEntries(u, v)
    ensures Paths(v)
  {
    forall tenant ensures OnePath(v, tenant) {
      assert OnePath(u, tenant);
    }
  }

  /** The trigger's row is one generation past the latest entry. */
  lemma InsertKeepsPaths(h: Hasher, view: Store, e: Event, pick: Option<Key>)
    requires Paths(view) && WellTyped(view) && EventKey(e) !in view
    requires IsLatest(AuditOf(view), e.tenant, pick) && LaterThanAll(view, e.tenant, e.at)
    ensures Paths(view[EventKey(e) := AuditRowFor(h, view, e, pick)])
  {
    var k := EventKey(e);
    var v := view[k := AuditRowFor(h, view, e, pick)];
    forall tenant ensures OnePath(v, tenant) {
      assert OnePath(view, tenant);
      if tenant == e.tenant { NewestGeneration(view, e.tenant, pick); }
    }
  }

  lemma NewestGeneration(view: Store, tenant: Uuid, pick: Option<Key>)
    requires OnePath(view, tenant) && IsLatest(AuditOf(view), tenant, pick)
    ensures forall b | IsEntry(view, b) && b.tenant == tenant ::
      pick.Some? && view[b].generation <= view[pick.value].generation
  {
  }

  lemma StatementKeepsPaths(h: Hasher, view: Store, held: set<Key>, setting: Uuid, start: int, stmt: Statement)
    requires Paths(view) && WellTyped(view)
    requires Issued(setting, stmt) || WorkerIssued(setting, stmt)
    requires stmt.InsertAudit? ==> LaterThanAll(view, setting, start)
    ensures Paths(Overlay(view, Exec(h, view, held, setting, start, stmt).changes))
  {
    var c := Exec(h, view, held, setting, start, stmt).changes;
    if stmt.InsertAudit? {
      var e := stmt.event.(at := start);
      if c != map[] {
        AuditInserted(h, view, held, setting, start, stmt.event, stmt.pick);
        InsertKeepsPaths(h, view, e, stmt.pick);
      } else {
        FewerPaths(view, Overlay(view, c));
      }
    } else {
      forall k | k in c ensures k.table != AuditLog && (c[k].Some? ==> !c[k].value.AuditEntry?) {
        if Issued(setting, stmt) { IssuedChanges(h, view, held, setting, start, stmt, k); }
      }
      FewerPaths(view, Overlay(view, c));
    }
  }

  // ---------------------------------------------------------------- steps

  /** The only transaction grows by a statement. */
  lemma GrowKeepsSerial(h: Hasher, s: State, x: Session, stmt: Statement, kind: Kind)
    requires Safe(s) && Serial(s) && x in s.txns && !s.txns[x].kind.Erasure?
    requires Issued(x.tenant, stmt) || WorkerIssued(x.tenant, stmt)
    requires stmt.InsertAudit? ==> LaterThanAll(ViewOf(s, x), x.tenant, s.txns[x].start)
    ensures Serial(Grow(s, x, EffectOf(h, s, x, stmt).changes, kind))
  {
    var view := ViewOf(s, x);
    var c := EffectOf(h, s, x, stmt).changes;
    assert Paths(view);
    OrdinaryView(s.store, s.txns, x);
    StatementKeepsPaths(h, view, Held(s.txns, x), x.tenant, s.txns[x].start, stmt);
    OverlayTwice(s.store, s.txns[x].writes, c);
  }

  lemma DropKeepsSerial(s: State, s': State, x: Session)
    requires Serial(s) && s'.store == s.store && s'.txns == s.txns - {x}
    ensures Serial(s')
  {
  }

  lemma CommitKeepsSerial(s: State, s': State, x: Session)
    requires Serial(s) && x in s.txns && s'.store == ViewOf(s, x) && s'.txns == s.txns - {x}
    ensures Serial(s')
  {
  }

  lemma BeginKeepsSerial(s: State, s': State, x: Session, txn: Txn)
    requires Serial(s) && s.txns == map[] && s'.store == s.store && s'.txns == map[x := txn] && txn.writes == map[]
    ensures Serial(s')
  {
    OverlayNothing(s.store, map[]);
  }

  lemma EraseKeepsSerial(s: State, x: Session)
    requires Serial(s)
    ensures Serial(StepEraseNext(s, x).0)
  {
    if x in s.txns && s.txns[x].kind.Erasure? && s.txns[x].kind.done < 10 {
      var n := s.txns[x].kind.done;
      var ks := EraseTargets(ViewOf(s, x), x.tenant, n);
      DropKeepsSerial(s, DropTxn(s, x), x);
      EraseRowsSerial(s, x, ks, n);
    }
  }

  lemma EraseRowsSerial(s: State, x: Session, ks: set<Key>, n: nat)
    requires Serial(s) && x in s.txns
    ensures Serial(Grow(s, x, map k | k in ks :: None, Erasure(n + 1)))
  {
    var c: Writes := map k | k in ks :: None;
    assert Paths(ViewOf(s, x));
    OverlayTwice(s.store, s.txns[x].writes, c);
    FewerPaths(ViewOf(s, x), Overlay(ViewOf(s, x), c));
  }

  lemma PruneKeepsSerial(s: State, now: int)
    requires Safe(s) && Serial(s)
    ensures Serial(StepPrune(s, now).0)
  {
    var s' := StepPrune(s, now).0;
    if StepPrune(s, now).1.Changed? {
      FewerPaths(s.store, s'.store);
      forall y | y in s'.txns ensures Paths(ViewOf(s', y)) {
        assert Paths(ViewOf(s, y));
        FewerPaths(ViewOf(s, y), ViewOf(s', y));
      }
    }
  }

  lemma WorkerKeepsSerial(h: Hasher, s: State, x: Session, j: JobId, stmt: Statement, stage: Stage)
    requires Safe(s) && Serial(s) && x in s.txns && s.txns[x].kind.Worker?
    requires WorkerIssued(x.tenant, stmt)
    requires stmt.InsertAudit? ==> LaterThanAll(ViewOf(s, x), x.tenant, s.txns[x].start)
    ensures Serial(WorkerInsert(s, x, j, EffectOf(h, s, x, stmt), stage).0)
  {
    GrowKeepsSerial(h, s, x, stmt, Worker(j, stage));
    WorkerInsertSerial(s, x, j, EffectOf(h, s, x, stmt), stage);
  }

  lemma WorkerInsertSerial(s: State, x: Session, j: JobId, e: Effect, stage: Stage)
    requires Serial(s) && x in s.txns && Serial(Grow(s, x, e.changes, Worker(j, stage)))
    ensures Serial(WorkerInsert(s, x, j, e, stage).0)
  {
  }

  lemma CheckKeepsSerial(s: State, x: Session)
    requires Serial(s)
    ensures Serial(StepCheckWorkflow(s, x).0)
  {
    if AtStage(s, x, Started) {
      var j := s.txns[x].kind.job;
      DropKeepsSerial(s, FailAttempt(s, x, j), x);
      assert Paths(ViewOf(s, x));
      assert s.txns[x].writes + map[] == s.txns[x].writes;
    }
  }

  lemma DoKeepsSerial(h: Hasher, s: State, x: Session, stmt: Statement)
    requires Safe(s) && Serial(s) && Issued(x.tenant, stmt) && InTurn(s, Do(x, stmt))
    ensures Serial(StepDo(h, s, x, stmt).0)
  {
    if x in s.txns && s.txns[x].kind.Application? {
      GrowKeepsSerial(h, s, x, stmt, Application);
      SettleSerial(s, x, EffectOf(h, s, x, stmt));
    }
  }

  lemma SettleSerial(s: State, x: Session, e: Effect)
    requires Serial(s) && x in s.txns && Serial(Grow(s, x, e.changes, Application))
    ensures Serial(Settle(s, x, e).0)
  {
  }

  lemma LogKeepsSerial(h: Hasher, s: State, x: Session, id: Uuid)
    requires Safe(s) && Serial(s)
    ensures Serial(StepLogExecution(h, s, x, id).0)
  {
    if AtStage(s, x, Checked) {
      var j := s.txns[x].kind.job;
      WorkerKeepsSerial(h, s, x, j, LogStatement(x, id, s.jobs[j], s.txns[x].start), Logged);
    }
  }

  lemma AuditKeepsSerial(h: Hasher, s: State, x: Session, id: Uuid, pick: Option<Key>)
    requires Safe(s) && Serial(s) && InTurn(s, LogAudit(x, id, pick))
    ensures Serial(StepLogAudit(h, s, x, id, pick).0)
  {
    if AtStage(s, x, Logged) {
      var j := s.txns[x].kind.job;
      WorkerKeepsSerial(h, s, x, j, AuditStatement(x, id, s.jobs[j], s.txns[x].start, pick), Audited);
    }
  }

  lemma OpenKeepsSerial(h: Hasher, s: State, l: Label)
    requires Serial(s) && InTurn(s, l) && (l.Begin? || l.StartJob? || l.BeginErasure?)
    ensures Serial(Step(h, s, l).0)
  {
    var s' := Step(h, s, l).0;
    if s' != s { BeginKeepsSerial(s, s', l.x, s'.txns[l.x]); }
  }

  lemma StepKeepsSerial(h: Hasher, s: State, l: Label)
    requires Safe(s) && Serial(s) && Legal(l) && InTurn(s, l)
    ensures Serial(Step(h, s, l).0)
  {
    match l
    case Do(x, stmt) => DoKeepsSerial(h, s, x, stmt);
    case Commit(x) => if x in s.txns && s.txns[x].kind.Application? { CommitKeepsSerial(s, CommitTxn(s, x), x); }
    case Rollback(x) => DropKeepsSerial(s, DropTxn(s, x), x);
    case Enqueue(_, _, _) =>
    case CheckWorkflow(x) => CheckKeepsSerial(s, x);
    case LogExecution(x, id) => LogKeepsSerial(h, s, x, id);
    case LogAudit(x, id, pick) => AuditKeepsSerial(h, s, x, id, pick);
    case Finish(x, acked) => if AtStage(s, x, Audited) { CommitKeepsSerial(s, StepFinish(s, x, acked).0, x); }
    case Abandon(x) =>
      if x in s.txns && s.txns[x].kind.Worker? { DropKeepsSerial(s, FailAttempt(s, x, s.txns[x].kind.job), x); }
    case EraseNext(x) => EraseKeepsSerial(s, x);
    case EndErasure(x) => if x in s.txns && s.txns[x].kind == Erasure(10) { CommitKeepsSerial(s, CommitTxn(s, x), x); }
    case Prune(now) => PruneKeepsSerial(s, now);
    case _ => OpenKeepsSerial(h, s, l);
  }

  ghost predicate SerialRun(h: Hasher, s: State, ls: seq<Label>) {
    forall i | 0 <= i < |ls| :: InTurn(Run(h, s, ls[..i]), ls[i])
  }

  /** With serial transactions and increasing times each tenant's log is one path. */
  lemma {:induction false} SerialLogIsPath(h: Hasher, s: State, ls: seq<Label>)
    requires Initial(s) && LegalRun(ls) && SerialRun(h, s, ls)
    ensures Serial(Run(h, s, ls)) && Forest(h, Run(h, s, ls).store)
  {
    InitialOk(s);
    LogIsForest(h, s, ls);
    if ls == [] {
      forall k | k in s.store ensures !IsEntry(s.store, k) {
        assert Fits(k, s.store[k]);
      }
      forall tenant ensures OnePath(s.store, tenant) {}
    } else {
      var n := |ls| - 1;
      forall i | 0 <= i < n ensures InTurn(Run(h, s, ls[..n][..i]), ls[..n][i]) {
        assert ls[..n][..i] == ls[..i];
        assert InTurn(Run(h, s, ls[..i]), ls[i]);
      }
      SerialLogIsPath(h, s, ls[..n]);
      RunKeepsSafe(h, s, ls[..n]);
      assert InTurn(Run(h, s, ls[..n]), ls[n]);
      StepKeepsSerial(h, Run(h, s, ls[..n]), ls[n]);
    }
  }

  // ---------------------------------------------------------------- what an auditor finds

  /** The tenant's entries in the order of their times. */
  ghost function EntriesByTime(view: Store, tenant: Uuid): (l: seq<Key>)
    requires WellTyped(view)
    ensures forall i | 0 <= i < |l| :: IsEntry(view, l[i]) && l[i].tenant == tenant
    ensures forall k | IsEntry(view, k) && k.tenant == tenant :: k in l
  {
    EntriesAreKeyed(view);
    var ks := TenantKeys(AuditOf(view), tenant);
    var l := Ordered(AuditOf(view), ks);
    assert forall i | 0 <= i < |l| :: l[i] in ks;
    l
  }

  /** On a path the order of times is the order of generations. */
  lemma GenerationsIncrease(view: Store, tenant: Uuid, i: nat, j: nat)
    requires WellTyped(view) && OnePath(view, tenant) && i < j < |EntriesByTime(view, tenant)|
    ensures var l := EntriesByTime(view, tenant); view[l[i]].generation < view[l[j]].generation
  {
    EntriesAreKeyed(view);
    var t := AuditOf(view);
    var l := EntriesByTime(view, tenant);
    assert Lists(t, TenantKeys(t, tenant), l);
    assert EventBefore(t[l[i]].event, t[l[j]].event);
  }

  /** Entries of growing generations. */
  ghost predicate Growing(es: seq<Row>) {
    && (forall i | 0 <= i < |es| :: es[i].AuditEntry?)
    && (forall i, j | 0 <= i < j < |es| :: es[i].generation < es[j].generation)
  }

  ghost predicate IsChild(e: Row, parent: Row)
    requires e.AuditEntry? && parent.AuditEntry?
  {
    e.generation == parent.generation + 1 && e.audit.previousHash == parent.audit.currentHash
  }

  /** A root, or a child of another; and its own hash verifies. */
  ghost predicate RootedAt(h: Hasher, es: seq<Row>, i: nat)
    requires i < |es| && forall j | 0 <= j < |es| :: es[j].AuditEntry?
  {
    && HashVerifies(h, es[i].audit)
    && (es[i].generation == 0 ==> es[i].audit.previousHash.None?)
    && (es[i].generation > 0 ==> exists j :: 0 <= j < |es| && IsChild(es[i], es[j]))
  }

  ghost predicate Rooted(h: Hasher, es: seq<Row>)
    requires forall i | 0 <= i < |es| :: es[i].AuditEntry?
  {
    forall i: nat | i < |es| :: RootedAt(h, es, i)
  }

  /** Then the generations count from nought, and each is the child of the one before it. */
  lemma {:induction false} GenerationIsIndex(h: Hasher, es: seq<Row>, i: nat)
    requires Growing(es) && Rooted(h, es) && i < |es|
    ensures es[i].generation == i && (i > 0 ==> IsChild(es[i], es[i - 1]))
  {
    if i > 0 { GenerationIsIndex(h, es, i - 1); }
    assert RootedAt(h, es, i);
    if es[i].generation > 0 {
      var j :| 0 <= j < |es| && IsChild(es[i], es[j]);
      assert j < i;
      GenerationIsIndex(h, es, j);
    }
  }

  ghost function Entries(view: Store, tenant: Uuid): (es: seq<Row>)
    requires WellTyped(view)
    ensures |es| == |EntriesByTime(view, tenant)| && forall i | 0 <= i < |es| :: es[i].AuditEntry?
  {
    var l := EntriesByTime(view, tenant);
    seq(|l|, i requires 0 <= i < |l| => view[l[i]])
  }

  lemma EntriesGrow(view: Store, tenant: Uuid)
    requires WellTyped(view) && OnePath(view, tenant)
    ensures Growing(Entries(view, tenant))
  {
    forall i, j | 0 <= i < j < |Entries(view, tenant)|
      ensures Entries(view, tenant)[i].generation < Entries(view, tenant)[j].generation
    {
      GenerationsIncrease(view, tenant, i, j);
    }
  }

  lemma EntryIsRooted(h: Hasher, view: Store, tenant: Uuid, i: nat)
    requires WellTyped(view) && Forest(h, view) && i < |Entries(view, tenant)|
    ensures RootedAt(h, Entries(view, tenant), i)
  {
    var (l, es) := (EntriesByTime(view, tenant), Entries(view, tenant));
    assert EntryOk(h, view, l[i]);
    if es[i].generation > 0 {
      var parent :| IsParent(view, l[i], parent);
      assert IsEntry(view, parent);
      var j :| 0 <= j < |l| && l[j] == parent;
      assert IsChild(es[i], es[j]);
    }
  }

  lemma RowsOfEntries(view: Store, tenant: Uuid)
    requires WellTyped(view) && Keyed(AuditOf(view))
    ensures var (rows, es) := (TenantRows(AuditOf(view), tenant), Entries(view, tenant));
      |rows| == |es| && forall i | 0 <= i < |es| :: rows[i] == es[i].audit
  {
  }

  lemma ChildrenVerify(h: Hasher, es: seq<Row>, rows: seq<AuditRow>)
    requires Growing(es) && Rooted(h, es)
    requires |rows| == |es| && forall i | 0 <= i < |es| :: rows[i] == es[i].audit
    ensures Verified(h, rows)
  {
    forall i | 0 <= i < |rows| ensures rows[i].previousHash == Head(rows[..i]) && HashVerifies(h, rows[i]) {
      GenerationIsIndex(h, es, i);
      assert RootedAt(h, es, i);
    }
  }

  /** A forest that is one path per tenant is, to an auditor, one verified chain per tenant. */
  lemma PathsVerify(h: Hasher, view: Store, tenant: Uuid)
    requires WellTyped(view) && Forest(h, view) && OnePath(view, tenant)
    ensures Keyed(AuditOf(view)) && Verified(h, TenantRows(AuditOf(view), tenant))
  {
    EntriesAreKeyed(view);
    EntriesGrow(view, tenant);
    forall i: nat | i < |Entries(view, tenant)| { EntryIsRooted(h, view, tenant, i); }
    RowsOfEntries(view, tenant);
    ChildrenVerify(h, Entries(view, tenant), TenantRows(AuditOf(view), tenant));
  }

  /** So with serial transactions and increasing times the log that a run leaves verifies. */
  lemma SerialLogVerifies(h: Hasher, s: State, ls: seq<Label>, tenant: Uuid)
    requires Initial(s) && LegalRun(ls) && SerialRun(h, s, ls)
    ensures var t := AuditOf(Run(h, s, ls).store); Keyed(t) && Verified(h, TenantRows(t, tenant))
  {
    InitialOk(s);
    RunKeepsSafe(h, s, ls);
    SerialLogIsPath(h, s, ls);
    assert OnePath(Run(h, s, ls).store, tenant);
    PathsVerify(h, Run(h, s, ls).store, tenant);
  }
}
