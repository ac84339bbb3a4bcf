/**
 What every step of the cluster keeps: every row's tenant exists, transactions hold disjoint
 keys of their own tenant, and an erasure that has passed its last delete is alone with its
 tenant. From these: a committed erasure is complete and permanent.
 */
module ClusterInvariant {
  import opened Schema
  import opened Database
  import opened Cluster

  /** The position of a table in the order of the deletes. */
  function Position(table: Table): (n: nat)
    ensures n < 10 && ERASURE_ORDER[n] == table
  {
    match table
    case OAuthConnections => 0
    case TenantSettings => 1
    case RotationAudit => 2
    case CredentialVault => 3
    case ExecutionLogs => 4
    case WebhookEndpoints => 5
    case AuditLog => 6
    case Workflows => 7
    case Users => 8
    case Tenants => 9
  }

  type Txns = map<Session, Txn>

  /** A transaction of the gateway, the vault or the worker changes rows of its tenant, while
      the tenant exists; it deletes credentials only. */
  ghost predicate OrdinaryWrites(store: Store, x: Session, w: Writes) {
    forall k | k in w ::
      && k.tenant == x.tenant
      && k.table != Tenants
      && (w[k].Some? ==> Fits(k, w[k].value) && TenantKey(x.tenant) in store)
      && (w[k].None? ==> k.table == CredentialVault)
  }

  /** An erasure deletes committed rows of its tenant, table by table. */
  ghost predicate ErasureWrites(store: Store, x: Session, w: Writes, n: nat) {
    && n <= 10
    && forall k | k in w :: k.tenant == x.tenant && w[k].None? && k in store && Position(k.table) < n
  }

  /** Nothing of the tenant is left for another transaction to commit, and every committed
      row of the tenant is deleted by this one. */
  ghost predicate Sealed(store: Store, txns: Txns, x: Session)
    requires x in txns
  {
    && (forall k | k in store && k.tenant == x.tenant :: k in txns[x].writes)
    && (forall y, k | y in txns && y != x && y.tenant == x.tenant && k in txns[y].writes ::
          txns[y].writes[k].None? && k !in store)
  }

  ghost predicate TxnOk(store: Store, txns: Txns, x: Session)
    requires x in txns
  {
    match txns[x].kind
    case Erasure(n) =>
      ErasureWrites(store, x, txns[x].writes, n) && (n == 10 ==> Sealed(store, txns, x))
    case _ => OrdinaryWrites(store, x, txns[x].writes)
  }

  ghost predicate Locks(txns: Txns) {
    forall x, y, k | x in txns && y in txns && k in txns[x].writes && k in txns[y].writes :: x == y
  }

  ghost predicate Inv(store: Store, txns: Txns) {
    && WellTyped(store)
    && ForeignKeys(store)
    && Locks(txns)
    && forall x | x in txns :: TxnOk(store, txns, x)
  }

  // ---------------------------------------------------------------- views

  lemma OrdinaryView(store: Store, txns: Txns, x: Session)
    requires Inv(store, txns) && x in txns && !txns[x].kind.Erasure?
    ensures WellTyped(Overlay(store, txns[x].writes))
    ensures TenantKey(x.tenant) in Overlay(store, txns[x].writes) <==> TenantKey(x.tenant) in store
  {
  }

  // ---------------------------------------------------------------- begin and drop

  lemma BeginKeeps(store: Store, txns: Txns, x: Session, txn: Txn)
    requires Inv(store, txns) && x !in txns && txn.writes == map[]
    requires txn.kind.Erasure? ==> txn.kind.done == 0
    ensures Inv(store, txns[x := txn])
  {
  }

  lemma DropKeeps(store: Store, txns: Txns, x: Session)
    requires Inv(store, txns)
    ensures Inv(store, txns - {x})
  {
  }

  // ---------------------------------------------------------------- statements

  /** What the statements of an ordinary transaction may change. */
  ghost predicate OrdinaryChanges(store: Store, txns: Txns, x: Session, c: Writes)
    requires x in txns
  {
    var view := Overlay(store, txns[x].writes);
    forall k | k in c ::
      && k.tenant == x.tenant && k.table != Tenants
      && k !in Held(txns, x)
      && (c[k].Some? ==> Fits(k, c[k].value))
      && (c[k].Some? && k !in view ==> TenantKey(x.tenant) in view && TenantKey(x.tenant) !in Held(txns, x))
      && (c[k].None? ==> k in view && k.table == CredentialVault)
  }

  lemma LocksGrow(txns: Txns, x: Session, txn: Txn)
    requires Locks(txns) && x in txns
    requires forall k | k in txn.writes :: k in txns[x].writes || k !in Held(txns, x)
    ensures Locks(txns[x := txn])
  {
  }

  /** A transaction's growth matters to another one only if the other has sealed the tenant. */
  lemma OthersOk(store: Store, txns: Txns, x: Session, txn: Txn, y: Session)
    requires Inv(store, txns) && x in txns && y in txns && x != y
    requires txns[y].kind == Erasure(10) && x.tenant == y.tenant ==> txn.writes == txns[x].writes
    ensures TxnOk(store, txns[x := txn], y)
  {
  }

  /** A sealing transaction holds every row of its tenant. */
  lemma SealedHolds(store: Store, txns: Txns, x: Session, z: Session, k: Key)
    requires Inv(store, txns) && x in txns && z in txns && x != z && txns[z].kind == Erasure(10)
    requires k in store && k.tenant == z.tenant
    ensures k in Held(txns, x)
  {
  }

  /** A sealed tenant's other transactions can change nothing. */
  lemma SealedChangesNothing(store: Store, txns: Txns, x: Session, z: Session, c: Writes)
    requires Inv(store, txns) && x in txns && z in txns && x != z && x.tenant == z.tenant
    requires !txns[x].kind.Erasure? && txns[z].kind == Erasure(10)
    requires OrdinaryChanges(store, txns, x, c)
    ensures c == map[]
  {
  }

  lemma GrowKeeps(store: Store, txns: Txns, x: Session, c: Writes, kind: Kind)
    requires Inv(store, txns) && x in txns && !txns[x].kind.Erasure? && !kind.Erasure?
    requires OrdinaryChanges(store, txns, x, c)
    ensures Inv(store, txns[x := Txn(txns[x].start, kind, txns[x].writes + c)])
  {
    var w := txns[x].writes + c;
    var txns' := txns[x := Txn(txns[x].start, kind, w)];
    OrdinaryView(store, txns, x);
    assert TxnOk(store, txns, x);
    forall k | k in c && c[k].Some? ensures TenantKey(x.tenant) in store {
      if k in Overlay(store, txns[x].writes) && k in store { assert TenantKey(k.tenant) in store; }
    }
    assert OrdinaryWrites(store, x, w);
    LocksGrow(txns, x, txns'[x]);
    forall y | y in txns && y != x ensures TxnOk(store, txns', y) {
      if y.tenant == x.tenant && txns[y].kind == Erasure(10) {
        SealedChangesNothing(store, txns, x, y, c);
        assert w == txns[x].writes;
      }
      OthersOk(store, txns, x, txns'[x], y);
    }
  }

  // ---------------------------------------------------------------- commit

  lemma CommitKeeps(store: Store, txns: Txns, x: Session)
    requires Inv(store, txns) && x in txns && !txns[x].kind.Erasure?
    ensures Inv(Overlay(store, txns[x].writes), txns - {x})
  {
    var w := txns[x].writes;
    var store' := Overlay(store, w);
    var txns' := txns - {x};
    OrdinaryView(store, txns, x);
    assert TxnOk(store, txns, x);
    forall t ensures TenantKey(t) in store' <==> TenantKey(t) in store {
      assert TenantKey(t) !in w;
    }
    forall k | k in store' ensures TenantKey(k.tenant) in store' {
      if k in w { assert TenantKey(x.tenant) in store; } else { assert TenantKey(k.tenant) in store; }
    }
    forall y | y in txns' ensures TxnOk(store', txns', y) {
      assert TxnOk(store, txns, y);
      forall k | k in txns[y].writes ensures k !in w {}
    }
  }

  // ---------------------------------------------------------------- erasure

  lemma DeletesOk(store: Store, txns: Txns, x: Session, ks: set<Key>, n: nat)
    requires Inv(store, txns) && x in txns && txns[x].kind == Erasure(n) && n < 10
    requires forall k | k in ks :: k in store && k.tenant == x.tenant && k.table == ERASURE_ORDER[n]
    ensures ErasureWrites(store, x, txns[x].writes + map k | k in ks :: None, n + 1)
  {
  }

  lemma EraseKeeps(store: Store, txns: Txns, x: Session, ks: set<Key>, n: nat)
    requires Inv(store, txns) && x in txns && txns[x].kind == Erasure(n) && n < 10
    requires forall k | k in ks :: k in store && k.tenant == x.tenant && k.table == ERASURE_ORDER[n]
    requires ks !! Held(txns, x)
    requires
      var w := txns[x].writes + map k | k in ks :: None;
      n == 9 ==> Sealed(store, txns[x := Txn(txns[x].start, Erasure(n + 1), w)], x)
    ensures
      var w := txns[x].writes + map k | k in ks :: None;
      Inv(store, txns[x := Txn(txns[x].start, Erasure(n + 1), w)])
  {
    var w := txns[x].writes + map k | k in ks :: None;
    var txns' := txns[x := Txn(txns[x].start, Erasure(n + 1), w)];
    DeletesOk(store, txns, x, ks, n);
    LocksGrow(txns, x, txns'[x]);
    forall y | y in txns && y != x ensures TxnOk(store, txns', y) {
      if txns[y].kind == Erasure(10) && y.tenant == x.tenant {
        if k :| k in ks {
          SealedHolds(store, txns, x, y, k);
        }
        assert w == txns[x].writes;
      }
      OthersOk(store, txns, x, txns'[x], y);
    }
  }

  /** When the last delete goes through every committed row of the tenant is deleted ... */
  lemma LastDeleteCovers(s: State, x: Session, ks: set<Key>, k: Key)
    requires Inv(s.store, s.txns) && x in s.txns && s.txns[x].kind == Erasure(9)
    requires ks == EraseTargets(ViewOf(s, x), x.tenant, 9)
    requires ks != {} ==> !RowsRemain(ViewOf(s, x), x.tenant)
    requires k in s.store && k.tenant == x.tenant
    ensures k in s.txns[x].writes || k in ks
    ensures TenantKey(x.tenant) in ks
  {
    assert TxnOk(s.store, s.txns, x);
    assert TenantKey(x.tenant) in s.store && TenantKey(x.tenant) !in s.txns[x].writes;
    assert TenantKey(x.tenant) in ks;
  }

  /** ... and no other transaction has a row of the tenant's to commit. */
  lemma LastDeleteIsAlone(s: State, x: Session, ks: set<Key>, y: Session, k: Key)
    requires Inv(s.store, s.txns) && x in s.txns && s.txns[x].kind == Erasure(9)
    requires ks == EraseTargets(ViewOf(s, x), x.tenant, 9) && ks !! Held(s.txns, x)
    requires ks != {} ==> !InsertPending(s, x, x.tenant)
    requires ks != {} ==> !RowsRemain(ViewOf(s, x), x.tenant)
    requires y in s.txns && y != x && y.tenant == x.tenant && k in s.txns[y].writes
    ensures s.txns[y].writes[k].None? && k !in s.store
  {
    assert TxnOk(s.store, s.txns, y);
    assert k in Held(s.txns, x);
    if k in s.store { LastDeleteCovers(s, x, ks, k); }
    if TenantKey(x.tenant) in s.store { LastDeleteCovers(s, x, ks, TenantKey(x.tenant)); }
  }

  /** The last delete leaves the tenant sealed. */
  lemma EraseTenantSeals(s: State, x: Session, ks: set<Key>)
    requires Inv(s.store, s.txns) && x in s.txns && s.txns[x].kind == Erasure(9)
    requires ks == EraseTargets(ViewOf(s, x), x.tenant, 9)
    requires ks !! Held(s.txns, x)
    requires ks != {} ==> !InsertPending(s, x, x.tenant)
    requires ks != {} ==> !RowsRemain(ViewOf(s, x), x.tenant)
    ensures
      var txns' := s.txns[x := Txn(s.txns[x].start, Erasure(10), s.txns[x].writes + map k | k in ks :: None)];
      Sealed(s.store, txns', x)
  {
    forall k | k in s.store && k.tenant == x.tenant ensures k in s.txns[x].writes || k in ks {
      LastDeleteCovers(s, x, ks, k);
    }
    forall y, k | y in s.txns && y != x && y.tenant == x.tenant && k in s.txns[y].writes
      ensures s.txns[y].writes[k].None? && k !in s.store
    {
      LastDeleteIsAlone(s, x, ks, y, k);
    }
  }

  /** Committing a sealed erasure removes every row of the tenant and no other row. */
  lemma EndErasureRemoves(store: Store, txns: Txns, x: Session)
    requires Inv(store, txns) && x in txns && txns[x].kind == Erasure(10)
    ensures Overlay(store, txns[x].writes) == map k | k in store && k.tenant != x.tenant :: store[k]
  {
  }

  lemma EndErasureKeeps(store: Store, txns: Txns, x: Session)
    requires Inv(store, txns) && x in txns && txns[x].kind == Erasure(10)
    ensures Inv(Overlay(store, txns[x].writes), txns - {x})
  {
    var store' := Overlay(store, txns[x].writes);
    EndErasureRemoves(store, txns, x);
    assert TxnOk(store, txns, x);
    var txns' := txns - {x};
    forall y | y in txns' ensures TxnOk(store', txns', y) {
      assert TxnOk(store, txns, y);
    }
  }

  // ---------------------------------------------------------------- pruning

  lemma PruneKeeps(store: Store, txns: Txns, gone: set<Key>)
    requires Inv(store, txns) && gone !! HeldByAny(txns)
    requires forall k | k in gone :: k in store && store[k].ExecutionRow?
    ensures Inv(store - gone, txns)
  {
  }
}
