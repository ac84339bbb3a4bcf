/**
 What commits do to a tenant's chain: exactly when one keeps it, exactly which runs leave a
 chain that verifies, and a run of two concurrent transactions that leaves a forked one.
 */
module AuditCommits {
  import opened Schema
  import opened AuditChain
  import opened AuditOrder
  import opened AuditTrail
  import opened AuditLaws
  import opened Database
  import opened Cluster
  import opened ClusterInvariant
  import opened ErasureSafety
  import opened WorkflowIntegrity
  import opened AuditForest

  // ---------------------------------------------------------------- one commit

  /** The audit entries among some changes. */
  function AuditsIn(w: Writes): AuditTable {
    map k | k in w && w[k].Some? && w[k].value.AuditEntry? :: w[k].value.audit
  }

  /** Those that a transaction has to commit. */
  function OwnAudits(s: State, x: Session): AuditTable
    requires x in s.txns
  {
    AuditsIn(s.txns[x].writes)
  }

  lemma OverlayAddsAudits(store: Store, w: Writes)
    requires WellTyped(store) && WellTyped(Overlay(store, w)) && AuditsAreNew(store, w)
    ensures AuditOf(Overlay(store, w)) == AuditOf(store) + AuditsIn(w)
    ensures AuditOf(store).Keys !! AuditsIn(w).Keys
  {
    forall k | k in AuditOf(store) ensures k !in w {
      assert Fits(k, store[k]);
    }
    forall k | k in AuditsIn(w) ensures k in Overlay(store, w) {}
  }

  /** A commit adds them to the log. */
  lemma CommitAddsOwn(s: State, x: Session)
    requires Safe(s) && RowsOk(s) && x in s.txns && !s.txns[x].kind.Erasure?
    ensures Keyed(AuditOf(s.store)) && Keyed(OwnAudits(s, x)) && Keyed(AuditOf(ViewOf(s, x)))
    ensures AuditOf(s.store).Keys !! OwnAudits(s, x).Keys
    ensures AuditOf(ViewOf(s, x)) == AuditOf(s.store) + OwnAudits(s, x)
  {
    OrdinaryView(s.store, s.txns, x);
    TransactionAddsAudits(s, x);
    OverlayAddsAudits(s.store, s.txns[x].writes);
    EntriesAreKeyed(s.store);
    EntriesAreKeyed(ViewOf(s, x));
    KeyedPart(AuditOf(s.store), OwnAudits(s, x));
  }

  lemma KeyedPart(t: AuditTable, u: AuditTable)
    requires Keyed(t + u)
    ensures Keyed(u)
  {
    forall k | k in u ensures (t + u)[k] == u[k] {}
  }

  lemma OwnTenant(s: State, x: Session, k: Key)
    requires Safe(s) && x in s.txns && !s.txns[x].kind.Erasure? && k in OwnAudits(s, x)
    ensures k.tenant == x.tenant
  {
    assert TxnOk(s.store, s.txns, x);
  }

  /** Its entries come after all that the tenant has in the log. */
  ghost predicate ComesLast(s: State, x: Session)
    requires x in s.txns
  {
    forall a, b | a in AuditOf(s.store) && b in OwnAudits(s, x) && a.tenant == x.tenant ::
      EventBefore(AuditOf(s.store)[a].event, OwnAudits(s, x)[b].event)
  }

  /** The tenant's committed rows, in the auditor's order. */
  ghost function Log(s: State, tenant: Uuid): seq<AuditRow>
    requires Safe(s)
  {
    EntriesAreKeyed(s.store);
    TenantRows(AuditOf(s.store), tenant)
  }

  /** The transaction's entries go on from the last row of the log as it now is. */
  ghost predicate GoesOn(h: Hasher, s: State, x: Session)
    requires Safe(s) && RowsOk(s) && x in s.txns && !s.txns[x].kind.Erasure?
  {
    CommitAddsOwn(s, x);
    LinkedFrom(h, Head(Log(s, x.tenant)), TenantRows(OwnAudits(s, x), x.tenant))
  }

  /** Exactly when the tenant's chain verifies after the commit of later entries: it did before,
      and they go on from its end. */
  lemma CommitVerifiedIff(h: Hasher, s: State, x: Session)
    requires Safe(s) && RowsOk(s) && x in s.txns && !s.txns[x].kind.Erasure? && ComesLast(s, x)
    ensures Keyed(AuditOf(ViewOf(s, x)))
    ensures Verified(h, TenantRows(AuditOf(ViewOf(s, x)), x.tenant)) <==>
      Verified(h, Log(s, x.tenant)) && GoesOn(h, s, x)
  {
    CommitAddsOwn(s, x);
    JoinedRows(AuditOf(s.store), OwnAudits(s, x), x.tenant);
    VerifiedJoin(h, Log(s, x.tenant), TenantRows(OwnAudits(s, x), x.tenant));
  }

  /** And of one entry of any time, into a chain that verifies: the row before its place is the
      one it is linked to, and if rows come after it, it has that row's hash itself. */
  lemma CommitOneVerifiedIff(h: Hasher, s: State, x: Session, row: AuditRow)
    requires Safe(s) && RowsOk(s) && ForestOk(h, s) && x in s.txns && !s.txns[x].kind.Erasure?
    requires OwnAudits(s, x) == map[EventKey(row.event) := row] && Verified(h, Log(s, x.tenant))
    ensures Keyed(AuditOf(s.store)) && Keyed(AuditOf(ViewOf(s, x))) && row.event.tenant == x.tenant
    ensures
      var (rows, p) := (Log(s, x.tenant), PlaceOf(AuditOf(s.store), row.event));
      Verified(h, TenantRows(AuditOf(ViewOf(s, x)), x.tenant)) <==>
        row.previousHash == Head(rows[..p]) && (p < |rows| ==> row.currentHash == row.previousHash)
  {
    CommitAddsOne(h, s, x, row);
    VerifiedWithRow(h, AuditOf(s.store), row);
  }

  lemma CommitAddsOne(h: Hasher, s: State, x: Session, row: AuditRow)
    requires Safe(s) && RowsOk(s) && ForestOk(h, s) && x in s.txns && !s.txns[x].kind.Erasure?
    requires OwnAudits(s, x) == map[EventKey(row.event) := row]
    ensures Keyed(AuditOf(s.store)) && EventKey(row.event) !in AuditOf(s.store)
    ensures row.event.tenant == x.tenant && HashVerifies(h, row)
    ensures AuditOf(ViewOf(s, x)) == AuditOf(s.store)[EventKey(row.event) := row]
  {
    var k := EventKey(row.event);
    CommitAddsOwn(s, x);
    AddOne(AuditOf(s.store), k, row);
    assert k in OwnAudits(s, x);
    OwnTenant(s, x, k);
    OwnEntryVerifies(h, s, x, k);
  }

  lemma AddOne(t: AuditTable, k: Key, row: AuditRow)
    ensures t + map[k := row] == t[k := row] && (t.Keys !! map[k := row].Keys ==> k !in t)
  {
    assert k in map[k := row].Keys;
  }

  lemma OwnEntryVerifies(h: Hasher, s: State, x: Session, k: Key)
    requires ForestOk(h, s) && x in s.txns && !s.txns[x].kind.Erasure? && k in OwnAudits(s, x)
    ensures HashVerifies(h, OwnAudits(s, x)[k])
  {
    assert Forest(h, ViewOf(s, x));
    assert EntryOk(h, ViewOf(s, x), k);
  }

  // ---------------------------------------------------------------- runs

  /** The step commits a transaction of the tenant, which is not an erasure. */
  predicate CommitsFor(s: State, l: Label, tenant: Uuid) {
    && (l.Commit? || l.Finish?) && l.x.tenant == tenant
    && if l.Commit? then l.x in s.txns && s.txns[l.x].kind.Application? else AtStage(s, l.x, Audited)
  }

  lemma CommitStep(h: Hasher, s: State, l: Label)
    requires (l.Commit? || l.Finish?) && CommitsFor(s, l, l.x.tenant)
    ensures l.x in s.txns && !s.txns[l.x].kind.Erasure? && Step(h, s, l).0.store == ViewOf(s, l.x)
  {
  }

  /** The tenant's entries are the same in both. */
  ghost predicate SameEntries(u: Store, v: Store, tenant: Uuid) {
    forall k: Key | k.tenant == tenant ::
      (k in AuditOf(u) <==> k in AuditOf(v)) && (k in AuditOf(u) ==> AuditOf(u)[k] == AuditOf(v)[k])
  }

  /** All other steps leave the tenant's log alone, but the end of its erasure. */
  lemma OtherStepsKeepLog(h: Hasher, s: State, l: Label, tenant: Uuid)
    requires Safe(s) && !CommitsFor(s, l, tenant) && (l.EndErasure? ==> l.x.tenant != tenant)
    ensures SameEntries(s.store, Step(h, s, l).0.store, tenant)
  {
    if l.Commit? || l.Finish? {
      CommitLabelKeepsLog(h, s, l, tenant);
    } else if l.EndErasure? {
      if l.x in s.txns && s.txns[l.x].kind == Erasure(10) { ForeignErasure(s, l.x, tenant); }
    } else if l.Prune? {
      PruneKeepsLog(s, l.now, tenant);
    } else {
      QuietSteps(h, s, l);
    }
  }

  lemma CommitLabelKeepsLog(h: Hasher, s: State, l: Label, tenant: Uuid)
    requires Safe(s) && !CommitsFor(s, l, tenant) && (l.Commit? || l.Finish?)
    ensures SameEntries(s.store, Step(h, s, l).0.store, tenant)
  {
    if CommitsFor(s, l, l.x.tenant) { ForeignCommit(h, s, l, tenant); }
  }

  lemma ForeignErasure(s: State, x: Session, tenant: Uuid)
    requires Safe(s) && x in s.txns && s.txns[x].kind == Erasure(10) && x.tenant != tenant
    ensures SameEntries(s.store, CommitTxn(s, x).store, tenant)
  {
    EndErasureRemoves(s.store, s.txns, x);
  }

  lemma PruneKeepsLog(s: State, now: int, tenant: Uuid)
    ensures SameEntries(s.store, StepPrune(s, now).0.store, tenant)
  {
  }

  lemma ForeignCommit(h: Hasher, s: State, l: Label, tenant: Uuid)
    requires Safe(s) && (l.Commit? || l.Finish?) && CommitsFor(s, l, l.x.tenant) && l.x.tenant != tenant
    ensures SameEntries(s.store, Step(h, s, l).0.store, tenant)
  {
    CommitStep(h, s, l);
    assert TxnOk(s.store, s.txns, l.x);
  }

  /** Whenever a transaction of the tenant commits, its entries are later than the log's. */
  ghost predicate CommitsInOrder(h: Hasher, s: State, ls: seq<Label>, tenant: Uuid) {
    if ls == [] then true
    else
      var n := |ls| - 1;
      var before := Run(h, s, ls[..n]);
      CommitsInOrder(h, s, ls[..n], tenant) && (CommitsFor(before, ls[n], tenant) ==> ComesLast(before, ls[n].x))
  }

  /** Whenever one commits, its entries go on from the end of the log as it then is. */
  ghost predicate EveryCommitGoesOn(h: Hasher, s: State, ls: seq<Label>, tenant: Uuid)
    requires Initial(s) && LegalRun(ls)
  {
    if ls == [] then true
    else
      var n := |ls| - 1;
      var before := Run(h, s, ls[..n]);
      Reaches(h, s, ls[..n]);
      EveryCommitGoesOn(h, s, ls[..n], tenant) && (CommitsFor(before, ls[n], tenant) ==> GoesOn(h, before, ls[n].x))
  }

  lemma Reaches(h: Hasher, s: State, ls: seq<Label>)
    requires Initial(s) && LegalRun(ls)
    ensures Safe(Run(h, s, ls)) && RowsOk(Run(h, s, ls))
  {
    InitialOk(s);
    RunKeepsRows(h, s, ls);
  }

  lemma StepVerifiedIff(h: Hasher, s: State, l: Label, tenant: Uuid)
    requires Safe(s) && RowsOk(s) && Safe(Step(h, s, l).0)
    requires l.EndErasure? ==> l.x.tenant != tenant
    requires CommitsFor(s, l, tenant) ==> ComesLast(s, l.x)
    ensures Verified(h, Log(Step(h, s, l).0, tenant)) <==>
      Verified(h, Log(s, tenant)) && (CommitsFor(s, l, tenant) ==> GoesOn(h, s, l.x))
  {
    if CommitsFor(s, l, tenant) {
      CommitStep(h, s, l);
      CommitVerifiedIff(h, s, l.x);
    } else {
      OtherStepsKeepLog(h, s, l, tenant);
      EntriesAreKeyed(s.store);
      EntriesAreKeyed(Step(h, s, l).0.store);
      SameTenantRows(AuditOf(s.store), AuditOf(Step(h, s, l).0.store), tenant);
    }
  }

  /** Exactly which runs leave a tenant's log that verifies, of those in which its transactions
      commit in the order of their entries and it is not erased: those in which every commit
      goes on from the end of the log. */
  lemma {:induction false} LogVerifiesIff(h: Hasher, s: State, ls: seq<Label>, tenant: Uuid)
    requires Initial(s) && LegalRun(ls) && CommitsInOrder(h, s, ls, tenant)
    requires forall i | 0 <= i < |ls| && ls[i].EndErasure? :: ls[i].x.tenant != tenant
    ensures Safe(Run(h, s, ls))
    ensures Verified(h, Log(Run(h, s, ls), tenant)) <==> EveryCommitGoesOn(h, s, ls, tenant)
  {
    Reaches(h, s, ls);
    if ls == [] {
      EntriesAreKeyed(s.store);
      assert Log(s, tenant) == [];
    } else {
      var n := |ls| - 1;
      LogVerifiesIff(h, s, ls[..n], tenant);
      Reaches(h, s, ls[..n]);
      StepVerifiedIff(h, Run(h, s, ls[..n]), ls[n], tenant);
    }
  }

  // ---------------------------------------------------------------- a run that forks a chain

  /** In a chain that verifies only the first row is without a previous hash. */
  lemma RootIsFirst(h: Hasher, rows: seq<AuditRow>, i: nat)
    requires Verified(h, rows) && i < |rows| && rows[i].previousHash.None?
    ensures i == 0
  {
    assert rows[i].previousHash == Head(rows[..i]);
    assert i > 0 ==> HashVerifies(h, rows[i - 1]);
  }

  lemma OneRootVerifies(h: Hasher, t: AuditTable, a: Key, b: Key)
    requires Keyed(t) && a in t && b in t && a != b && a.tenant == b.tenant
    requires t[a].previousHash.None? && t[b].previousHash.None?
    ensures !Verified(h, TenantRows(t, a.tenant))
  {
    var l := Ordered(t, TenantKeys(t, a.tenant));
    var rows := TenantRows(t, a.tenant);
    assert a in l && b in l;
    var i, j :| 0 <= i < |l| && 0 <= j < |l| && l[i] == a && l[j] == b;
    assert rows[i] == t[a] && rows[j] == t[b];
    if Verified(h, rows) {
      RootIsFirst(h, rows, i);
      RootIsFirst(h, rows, j);
    }
  }

  /** What an insert adds to a log in which the tenant's trigger sees nothing. */
  function RootOf(h: Hasher, e: Event, start: int): Writes {
    map[EventKey(e) := Some(AuditEntry(NewRow(h, None, e.(at := start)), 0))]
  }

  lemma RootInsert(h: Hasher, store: Store, held: set<Key>, start: int, e: Event)
    requires WellTyped(store) && TenantKey(e.tenant) in store && forall k | k in store :: k.table != AuditLog
    requires EventKey(e) !in held && TenantKey(e.tenant) !in held
    ensures Exec(h, store, held, e.tenant, start, InsertAudit(e, None)) == Effect(Changed(1), RootOf(h, e, start))
  {
    forall k | k in store ensures !store[k].AuditEntry? {
      assert Fits(k, store[k]);
    }
  }

  /** Both transactions open, with these changes. */
  function BothOpen(s: State, x: Session, y: Session, i: int, j: int, v: Writes, w: Writes): State {
    s.(txns := map[x := Txn(i, Application, v), y := Txn(j, Application, w)])
  }

  lemma HeldByOther(txns: Txns, x: Session, y: Session)
    requires txns.Keys == {x, y} && x != y
    ensures Held(txns, y) == txns[x].writes.Keys
  {
    assert x in txns;
  }

  lemma FirstInserts(h: Hasher, s: State, x: Session, y: Session, a: Event, i: int, j: int)
    requires Initial(s) && TenantKey(a.tenant) in s.store && x != y && x.tenant == a.tenant
    ensures Step(h, BothOpen(s, x, y, i, j, map[], map[]), Do(x, InsertAudit(a, None))).0
      == BothOpen(s, x, y, i, j, RootOf(h, a, i), map[])
  {
    var b := BothOpen(s, x, y, i, j, map[], map[]);
    OverlayNothing(s.store, RootOf(h, a, i));
    HeldByOther(b.txns, y, x);
    RootInsert(h, s.store, {}, i, a);
    assert EffectOf(h, b, x, InsertAudit(a, None)) == Effect(Changed(1), RootOf(h, a, i));
    GrowFirst(s, x, y, i, j, RootOf(h, a, i));
  }

  lemma GrowFirst(s: State, x: Session, y: Session, i: int, j: int, v: Writes)
    requires x != y
    ensures Grow(BothOpen(s, x, y, i, j, map[], map[]), x, v, Application) == BothOpen(s, x, y, i, j, v, map[])
  {
    OverlayNothing(s.store, v);
  }

  lemma SecondInserts(h: Hasher, s: State, x: Session, y: Session, a: Event, b: Event, i: int, j: int)
    requires Initial(s) && TenantKey(b.tenant) in s.store && x != y && y.tenant == b.tenant
    requires EventKey(a) != EventKey(b)
    ensures Step(h, BothOpen(s, x, y, i, j, RootOf(h, a, i), map[]), Do(y, InsertAudit(b, None))).0
      == BothOpen(s, x, y, i, j, RootOf(h, a, i), RootOf(h, b, j))
  {
    var both := BothOpen(s, x, y, i, j, RootOf(h, a, i), map[]);
    OverlayNothing(s.store, RootOf(h, b, j));
    HeldByOther(both.txns, x, y);
    RootInsert(h, s.store, {EventKey(a)}, j, b);
  }

  /** Two transactions that both insert an audit entry before either commits. */
  function Concurrent(x: Session, y: Session, a: Event, b: Event, i: int, j: int): seq<Label> {
    [Begin(x, i), Begin(y, j), Do(x, InsertAudit(a, None)), Do(y, InsertAudit(b, None)), Commit(x), Commit(y)]
  }

  /** After the first commit, and after both. */
  function OneLeft(s: State, y: Session, j: int, v: Writes, w: Writes): State {
    s.(store := Overlay(s.store, v), txns := map[y := Txn(j, Application, w)])
  }

  function NoneLeft(s: State, v: Writes, w: Writes): State {
    s.(store := Overlay(Overlay(s.store, v), w), txns := map[])
  }

  lemma BothBegin(h: Hasher, s: State, x: Session, y: Session, i: int, j: int)
    requires s.txns == map[] && x != y
    ensures Step(h, Step(h, s, Begin(x, i)).0, Begin(y, j)).0 == BothOpen(s, x, y, i, j, map[], map[])
  {
  }

  lemma FirstCommits(h: Hasher, s: State, x: Session, y: Session, i: int, j: int, v: Writes, w: Writes)
    requires x != y
    ensures Step(h, BothOpen(s, x, y, i, j, v, w), Commit(x)).0 == OneLeft(s, y, j, v, w)
  {
    var (t, u) := (Txn(i, Application, v), Txn(j, Application, w));
    assert map[x := t, y := u] - {x} == map[y := u];
  }

  lemma SecondCommits(h: Hasher, s: State, y: Session, j: int, v: Writes, w: Writes)
    ensures Step(h, OneLeft(s, y, j, v, w), Commit(y)).0 == NoneLeft(s, v, w)
  {
  }

  lemma RunToFirstCommit(h: Hasher, s: State, x: Session, y: Session, a: Event, b: Event, i: int, j: int)
    requires Initial(s) && TenantKey(x.tenant) in s.store
    requires x != y && x.tenant == y.tenant == a.tenant == b.tenant && a.id != b.id
    ensures Run(h, s, [Begin(x, i), Begin(y, j), Do(x, InsertAudit(a, None)), Do(y, InsertAudit(b, None)), Commit(x)])
      == OneLeft(s, y, j, RootOf(h, a, i), RootOf(h, b, j))
  {
    RunFive(h, s, Begin(x, i), Begin(y, j), Do(x, InsertAudit(a, None)), Do(y, InsertAudit(b, None)), Commit(x));
    BothBegin(h, s, x, y, i, j);
    FirstInserts(h, s, x, y, a, i, j);
    SecondInserts(h, s, x, y, a, b, i, j);
    FirstCommits(h, s, x, y, i, j, RootOf(h, a, i), RootOf(h, b, j));
  }

  lemma ConcurrentRun(h: Hasher, s: State, x: Session, y: Session, a: Event, b: Event, i: int, j: int)
    requires Initial(s) && TenantKey(x.tenant) in s.store
    requires x != y && x.tenant == y.tenant == a.tenant == b.tenant && a.id != b.id
    ensures Run(h, s, Concurrent(x, y, a, b, i, j)) == NoneLeft(s, RootOf(h, a, i), RootOf(h, b, j))
  {
    var five := [Begin(x, i), Begin(y, j), Do(x, InsertAudit(a, None)), Do(y, InsertAudit(b, None)), Commit(x)];
    RunToFirstCommit(h, s, x, y, a, b, i, j);
    SecondCommits(h, s, y, j, RootOf(h, a, i), RootOf(h, b, j));
    RunSnoc(h, s, five, Commit(y), OneLeft(s, y, j, RootOf(h, a, i), RootOf(h, b, j)),
            NoneLeft(s, RootOf(h, a, i), RootOf(h, b, j)));
    assert five + [Commit(y)] == Concurrent(x, y, a, b, i, j);
  }

  ghost predicate IsRoot(store: Store, k: Key) {
    k in store && store[k].AuditEntry? && store[k].audit.previousHash.None?
  }

  lemma BothAreRoots(h: Hasher, store: Store, a: Event, b: Event, i: int, j: int)
    requires EventKey(a) != EventKey(b)
    ensures var after := Overlay(Overlay(store, RootOf(h, a, i)), RootOf(h, b, j));
      IsRoot(after, EventKey(a)) && IsRoot(after, EventKey(b))
  {
  }

  /** From any fresh database: the chain that two concurrent transactions leave has two roots
      and does not verify, whatever the hashes are. */
  lemma ConcurrentInsertsFork(h: Hasher, s: State, x: Session, y: Session, a: Event, b: Event, i: int, j: int)
    requires Initial(s) && TenantKey(x.tenant) in s.store
    requires x != y && x.tenant == y.tenant == a.tenant == b.tenant && a.id != b.id
    requires Issued(x.tenant, InsertAudit(a, None)) && Issued(y.tenant, InsertAudit(b, None))
    ensures LegalRun(Concurrent(x, y, a, b, i, j))
    ensures var s' := Run(h, s, Concurrent(x, y, a, b, i, j));
      && Safe(s') && IsRoot(s'.store, EventKey(a)) && IsRoot(s'.store, EventKey(b))
      && !Verified(h, Log(s', x.tenant))
  {
    Reaches(h, s, Concurrent(x, y, a, b, i, j));
    ConcurrentRun(h, s, x, y, a, b, i, j);
    var s' := Run(h, s, Concurrent(x, y, a, b, i, j));
    BothAreRoots(h, s.store, a, b, i, j);
    EntriesAreKeyed(s'.store);
    OneRootVerifies(h, AuditOf(s'.store), EventKey(a), EventKey(b));
  }
}
