/**
 The two functions that the database owner calls: the right to erasure, ten deletes in one
 order, and the pruning of expired execution logs.
 */
module Maintenance {
  import opened Schema
  import opened Database
  import opened Cluster
  import opened ClusterInvariant

  datatype TableCount = TableCount(table: Table, deleted: nat)

  /** The rows of a table that DELETE ... WHERE tenant_id = tenant finds; for `tenants` the
      column is id. */
  function RowsFor(store: Store, table: Table, tenant: Uuid): set<Key> {
    set k | k in store && k.table == table && (if table == Tenants then k.id else k.tenant) == tenant
  }

  /** A row of another table refers to the tenant. */
  predicate IsReferenced(store: Store, tenant: Uuid) {
    exists k | k in store :: k.tenant == tenant && k.table != Tenants
  }

  function Total(report: seq<TableCount>): nat {
    if report == [] then 0 else Total(report[..|report| - 1]) + report[|report| - 1].deleted
  }

  /** What the deletes of an order leave. */
  function AfterDeletes(store: Store, tenant: Uuid, order: seq<Table>): Store {
    if order == [] then store
    else
      var before := AfterDeletes(store, tenant, order[..|order| - 1]);
      before - RowsFor(before, order[|order| - 1], tenant)
  }

  // ---------------------------------------------------------------- the deletes

  /** What is left: the rows that are not the tenant's or not in a table of the order. */
  lemma {:induction false} DeletesRemove(store: Store, tenant: Uuid, order: seq<Table>)
    requires WellTyped(store)
    ensures AfterDeletes(store, tenant, order) ==
      map k | k in store && !(k.tenant == tenant && k.table in order) :: store[k]
  {
    if order == [] {
    } else {
      var n := |order| - 1;
      DeletesRemove(store, tenant, order[..n]);
      var before := AfterDeletes(store, tenant, order[..n]);
      assert order == order[..n] + [order[n]];
      forall k | k in before
        ensures k in RowsFor(before, order[n], tenant) <==> k.tenant == tenant && k.table == order[n]
      {
        assert Fits(k, store[k]);
      }
    }
  }

  /** A foreign key holds after some deletes exactly if the tenant was not deleted before a
      row that refers to it: the order needs `tenants` last, and nothing else. */
  lemma DeletesKeepForeignKeys(store: Store, tenant: Uuid, order: seq<Table>)
    requires WellTyped(store) && ForeignKeys(store)
    ensures ForeignKeys(AfterDeletes(store, tenant, order)) <==>
      (Tenants in order && TenantKey(tenant) in store ==>
        forall k | k in store && k.tenant == tenant :: k.table in order)
  {
    DeletesRemove(store, tenant, order);
    var after := AfterDeletes(store, tenant, order);
    if Tenants in order && TenantKey(tenant) in store {
      if k :| k in store && k.tenant == tenant && k.table !in order {
        assert k in after && TenantKey(k.tenant) !in after;
      } else {
        forall k | k in after ensures TenantKey(k.tenant) in after {
          assert TenantKey(k.tenant) in store;
        }
      }
    } else {
      forall k | k in after ensures TenantKey(k.tenant) in after {
        assert TenantKey(k.tenant) in store;
      }
    }
  }

  lemma EveryTableIsDeleted(table: Table)
    ensures table in ERASURE_ORDER
  {
  }

  /** A table is among the first `n` of the order exactly if its position is below `n`. */
  lemma AmongFirst(table: Table, n: nat)
    requires n <= 10
    ensures table in ERASURE_ORDER[..n] <==> Position(table) < n
  {
  }

  /** The store before the delete at position `n`. */
  function Unerased(store: Store, tenant: Uuid, n: nat): Store {
    map k | k in store && !(k.tenant == tenant && Position(k.table) < n) :: store[k]
  }

  lemma UnerasedIsAfterDeletes(store: Store, tenant: Uuid, n: nat)
    requires WellTyped(store) && n <= 10
    ensures AfterDeletes(store, tenant, ERASURE_ORDER[..n]) == Unerased(store, tenant, n)
  {
    DeletesRemove(store, tenant, ERASURE_ORDER[..n]);
    forall k | k in store ensures k.table in ERASURE_ORDER[..n] <==> Position(k.table) < n { AmongFirst(k.table, n); }
  }

  /** None of the ten deletes breaks a foreign key at any point of the erasure. */
  lemma ErasureKeepsForeignKeys(store: Store, tenant: Uuid, n: nat)
    requires WellTyped(store) && ForeignKeys(store) && n <= 10
    ensures ForeignKeys(Unerased(store, tenant, n))
    ensures Unerased(store, tenant, n) == AfterDeletes(store, tenant, ERASURE_ORDER[..n])
  {
    UnerasedIsAfterDeletes(store, tenant, n);
    DeletesKeepForeignKeys(store, tenant, ERASURE_ORDER[..n]);
    AmongFirst(Tenants, n);
    forall k | k in store ensures k.table in ERASURE_ORDER { EveryTableIsDeleted(k.table); }
    assert ERASURE_ORDER[..10] == ERASURE_ORDER;
  }

  function CountOfTable(store: Store, tenant: Uuid, table: Table): TableCount {
    TableCount(table, |RowsFor(store, table, tenant)|)
  }

  lemma SameTable(a: Table, b: Table)
    requires Position(a) == Position(b)
    ensures a == b
  {
  }

  lemma RowsForTenant(store: Store, tenant: Uuid, table: Table, k: Key)
    requires WellTyped(store) && k in store
    ensures k in RowsFor(store, table, tenant) <==> k.tenant == tenant && k.table == table
  {
    assert Fits(k, store[k]);
  }

  /** One delete of the order: it finds the rows the tenant had in its table at the start ... */
  lemma NextRows(store: Store, tenant: Uuid, table: Table)
    requires WellTyped(store)
    ensures RowsFor(Unerased(store, tenant, Position(table)), table, tenant) == RowsFor(store, table, tenant)
  {
    forall k | k in store ensures k in RowsFor(store, table, tenant) ==> k.tenant == tenant && k.table == table {
      RowsForTenant(store, tenant, table, k);
    }
  }

  /** ... leaves what the next one is to find ... */
  lemma NextStore(store: Store, tenant: Uuid, table: Table)
    requires WellTyped(store)
    ensures Unerased(store, tenant, Position(table) + 1)
      == Unerased(store, tenant, Position(table)) - RowsFor(store, table, tenant)
  {
    forall k | k in store ensures k in RowsFor(store, table, tenant) <==> k.tenant == tenant && k.table == table {
      RowsForTenant(store, tenant, table, k);
    }
    forall k: Key | Position(k.table) == Position(table) ensures k.table == table { SameTable(k.table, table); }
  }

  /** ... and no row refers to the tenant when its own turn comes. */
  lemma NextDelete(store: Store, tenant: Uuid, table: Table)
    requires WellTyped(store)
    ensures var before := Unerased(store, tenant, Position(table));
      && RowsFor(before, table, tenant) == RowsFor(store, table, tenant)
      && Unerased(store, tenant, Position(table) + 1) == before - RowsFor(before, table, tenant)
      && (table == Tenants ==> !IsReferenced(before, tenant))
  {
    NextRows(store, tenant, table);
    NextStore(store, tenant, table);
  }

  /** When the ten are done nothing of the tenant is left, and nothing else is missing. */
  lemma ErasureDone(store: Store, tenant: Uuid)
    requires WellTyped(store)
    ensures Unerased(store, tenant, 0) == store
    ensures Unerased(store, tenant, 10) == map k | k in store && k.tenant != tenant :: store[k]
  {
  }

  /** Its report: each table's own count, in the order of the deletes. */
  function FullReport(store: Store, tenant: Uuid): seq<TableCount> {
    FirstCounts(store, tenant) + LastCounts(store, tenant)
  }

  function FirstCounts(store: Store, tenant: Uuid): seq<TableCount> {
    [CountOfTable(store, tenant, OAuthConnections), CountOfTable(store, tenant, TenantSettings),
     CountOfTable(store, tenant, RotationAudit), CountOfTable(store, tenant, CredentialVault),
     CountOfTable(store, tenant, ExecutionLogs), CountOfTable(store, tenant, WebhookEndpoints)]
  }

  function LastCounts(store: Store, tenant: Uuid): seq<TableCount> {
    [CountOfTable(store, tenant, AuditLog), CountOfTable(store, tenant, Workflows),
     CountOfTable(store, tenant, Users), CountOfTable(store, tenant, Tenants)]
  }

  function TablesOf(report: seq<TableCount>): seq<Table> {
    seq(|report|, i requires 0 <= i < |report| => report[i].table)
  }

  lemma CountIsRows(store: Store, tenant: Uuid, table: Table)
    requires WellTyped(store)
    ensures CountOfTable(store, tenant, table)
      == TableCount(table, |set k | k in store && k.table == table && k.tenant == tenant|)
  {
    forall k | k in store ensures k in RowsFor(store, table, tenant) <==> k.tenant == tenant && k.table == table {
      RowsForTenant(store, tenant, table, k);
    }
    assert RowsFor(store, table, tenant) == set k | k in store && k.table == table && k.tenant == tenant;
  }

  lemma LineIsCount(store: Store, tenant: Uuid, line: TableCount)
    requires line in FullReport(store, tenant)
    ensures line == CountOfTable(store, tenant, line.table)
  {
  }

  /** Each line counts the rows that the tenant had in its table. */
  lemma CountsAreRows(store: Store, tenant: Uuid)
    requires WellTyped(store)
    ensures forall line | line in FullReport(store, tenant) ::
      line.deleted == |set k | k in store && k.table == line.table && k.tenant == tenant|
  {
    forall line | line in FullReport(store, tenant)
      ensures line.deleted == |set k | k in store && k.table == line.table && k.tenant == tenant|
    {
      LineIsCount(store, tenant, line);
      CountIsRows(store, tenant, line.table);
    }
  }

  lemma TotalOfPrefix(report: seq<TableCount>, n: nat)
    requires 0 < n <= |report|
    ensures Total(report[..n]) == Total(report[..n - 1]) + report[n - 1].deleted
  {
    assert report[..n][..n - 1] == report[..n - 1];
  }

  lemma {:induction false} TotalIsLoss(store: Store, tenant: Uuid, report: seq<TableCount>, n: nat)
    requires WellTyped(store) && n <= |report| <= 10
    requires forall i | 0 <= i < |report| :: report[i] == CountOfTable(store, tenant, ERASURE_ORDER[i])
    ensures Total(report[..n]) == |store| - |Unerased(store, tenant, n)|
  {
    if n == 0 {
      assert Unerased(store, tenant, 0) == store;
    } else {
      TotalIsLoss(store, tenant, report, n - 1);
      TotalOfPrefix(report, n);
      DeleteLoses(store, tenant, n - 1);
    }
  }

  lemma DeleteLoses(store: Store, tenant: Uuid, n: nat)
    requires WellTyped(store) && n < 10
    ensures |Unerased(store, tenant, n + 1)|
      == |Unerased(store, tenant, n)| - CountOfTable(store, tenant, ERASURE_ORDER[n]).deleted
  {
    var (table, before) := (ERASURE_ORDER[n], Unerased(store, tenant, n));
    LineAt(store, tenant, n);
    NextDelete(store, tenant, table);
    LossOf(before, RowsFor(before, table, tenant));
  }

  lemma LineAt(store: Store, tenant: Uuid, n: nat)
    requires n < 10
    ensures FullReport(store, tenant)[n] == CountOfTable(store, tenant, ERASURE_ORDER[n])
    ensures Position(ERASURE_ORDER[n]) == n
  {
  }

  lemma LossOf(store: Store, gone: set<Key>)
    requires gone <= store.Keys
    ensures |store - gone| == |store| - |gone|
  {
    assert (store - gone).Keys == store.Keys - gone;
  }

  /** The report's counts add up to the rows that the store loses. */
  lemma ReportTotals(store: Store, tenant: Uuid)
    requires WellTyped(store)
    ensures Total(FullReport(store, tenant)) == |store| - |(map k | k in store && k.tenant != tenant :: store[k])|
  {
    var report := FullReport(store, tenant);
    forall i: nat | i < 10 ensures report[i] == CountOfTable(store, tenant, ERASURE_ORDER[i]) {
      LineAt(store, tenant, i);
    }
    TotalIsLoss(store, tenant, report, 10);
    assert report[..10] == report;
    ErasureDone(store, tenant);
  }

  // ---------------------------------------------------------------- pruning

  function Pruned(store: Store, now: int): Store {
    store - Expired(store, now)
  }

  function Latest(times: seq<int>): int
    requires times != []
  {
    var n := |times| - 1;
    if n == 0 then times[0]
    else
      var before := Latest(times[..n]);
      if before < times[n] then times[n] else before
  }

  function PrunedAt(store: Store, times: seq<int>): Store {
    if times == [] then store else Pruned(PrunedAt(store, times[..|times| - 1]), times[|times| - 1])
  }

  /** How many rows the prunes report, together. */
  function ReportedAt(store: Store, times: seq<int>): nat {
    if times == [] then 0
    else
      var n := |times| - 1;
      ReportedAt(store, times[..n]) + |Expired(PrunedAt(store, times[..n]), times[n])|
  }

  /** Any prunes of a store, at whatever times, come to the one prune at the latest of them,
      and report as many rows. */
  lemma {:induction false} PrunesCollapse(store: Store, times: seq<int>)
    requires times != []
    ensures PrunedAt(store, times) == Pruned(store, Latest(times))
    ensures ReportedAt(store, times) == |Expired(store, Latest(times))|
  {
    var n := |times| - 1;
    if n > 0 {
      PrunesCollapse(store, times[..n]);
      var (first, second) := (Expired(store, Latest(times[..n])), Expired(PrunedAt(store, times[..n]), times[n]));
      assert first !! second;
      assert Expired(store, Latest(times)) == first + second;
    } else {
      assert times[..0] == [];
      assert PrunedAt(store, times[..0]) == store;
    }
  }

  lemma PrunedLogs(store: Store, now: int, deleted: set<Key>)
    requires WellTyped(store)
    requires forall k :: k in deleted <==> k in store && k.table == ExecutionLogs && IsExpired(store[k], now)
    ensures store - deleted == Pruned(store, now) && |deleted| == |store| - |store - deleted|
    ensures forall k | k in store && k.table == ExecutionLogs :: store[k].ExecutionRow?
  {
  }

  // ---------------------------------------------------------------- the session

  /** A session of the owner, to whom the row policies do not apply. */
  class OwnerSession {
    var rows: Store

    constructor (store: Store)
      ensures rows == store
    {
      rows := store;
    }

    /** One DELETE. It fails if it would delete a tenant to whom a row refers. */
    method Delete(table: Table, tenant: Uuid) returns (ok: bool, entry: TableCount)
      modifies this
      ensures ok <==> !(table == Tenants && TenantKey(tenant) in old(rows) && IsReferenced(old(rows), tenant))
      ensures ok ==> rows == old(rows) - RowsFor(old(rows), table, tenant)
      ensures ok ==> entry == TableCount(table, |RowsFor(old(rows), table, tenant)|)
      ensures !ok ==> rows == old(rows)
    {
      var found := RowsFor(rows, table, tenant);
      entry := TableCount(table, |found|);
      ok := !(table == Tenants && TenantKey(tenant) in rows && IsReferenced(rows, tenant));
      if ok {
        rows := rows - found;
      }
    }

    /** RETURN QUERY WITH deleted AS (DELETE ... RETURNING 1) SELECT the table's name and the
        count. A failing delete would raise an error; at its place in the order none does, and
        the foreign keys hold before and after it. */
    method ReturnDeleted(table: Table, tenant: Uuid, ghost start: Store) returns (entry: TableCount)
      requires WellTyped(start) && rows == Unerased(start, tenant, Position(table))
      modifies this
      ensures rows == Unerased(start, tenant, Position(table) + 1)
      ensures entry == CountOfTable(start, tenant, table)
      ensures ForeignKeys(start) ==> ForeignKeys(rows)
    {
      NextDelete(start, tenant, table);
      if ForeignKeys(start) { ErasureKeepsForeignKeys(start, tenant, Position(table) + 1); }
      var ok;
      ok, entry := Delete(table, tenant);
      assert ok;
    }

    /** The first six deletes. */
    method DeleteData(tenant: Uuid, ghost start: Store) returns (report: seq<TableCount>)
      requires WellTyped(start) && rows == Unerased(start, tenant, 0)
      modifies this
      ensures rows == Unerased(start, tenant, 6)
      ensures report == FirstCounts(start, tenant)
    {
      var oauth := ReturnDeleted(OAuthConnections, tenant, start);
      var settings := ReturnDeleted(TenantSettings, tenant, start);
      var rotations := ReturnDeleted(RotationAudit, tenant, start);
      var credentials := ReturnDeleted(CredentialVault, tenant, start);
      var executions := ReturnDeleted(ExecutionLogs, tenant, start);
      var webhooks := ReturnDeleted(WebhookEndpoints, tenant, start);
      report := [oauth, settings, rotations, credentials, executions, webhooks];
    }

    /** The last four. */
    method DeleteAccount(tenant: Uuid, ghost start: Store) returns (report: seq<TableCount>)
      requires WellTyped(start) && rows == Unerased(start, tenant, 6)
      modifies this
      ensures rows == Unerased(start, tenant, 10)
      ensures report == LastCounts(start, tenant)
    {
      var audit := ReturnDeleted(AuditLog, tenant, start);
      var workflows := ReturnDeleted(Workflows, tenant, start);
      var users := ReturnDeleted(Users, tenant, start);
      var tenants := ReturnDeleted(Tenants, tenant, start);
      report := [audit, workflows, users, tenants];
    }

    /** right_to_erasure: from any store it succeeds, nothing of the tenant is left, nobody
        else's row is touched, and the report has every table's own count. */
    method RightToErasure(tenant: Uuid) returns (report: seq<TableCount>)
      requires WellTyped(rows)
      modifies this
      ensures rows == map k | k in old(rows) && k.tenant != tenant :: old(rows)[k]
      ensures report == FullReport(old(rows), tenant)
      ensures |report| == 10 && TablesOf(report) ==
        [OAuthConnections, TenantSettings, RotationAudit, CredentialVault, ExecutionLogs, WebhookEndpoints, AuditLog,
         Workflows, Users, Tenants]
      ensures forall line | line in report ::
        line.deleted == |set k | k in old(rows) && k.table == line.table && k.tenant == tenant|
    {
      ghost var start := rows;
      ErasureDone(start, tenant);
      var data := DeleteData(tenant, start);
      var account := DeleteAccount(tenant, start);
      report := data + account;
      CountsAreRows(start, tenant);
    }

    /** prune_expired_execution_logs: deletes the logs whose time is up, of all tenants, and
        nothing else. */
    method PruneExpiredExecutionLogs(now: int) returns (entry: TableCount)
      requires WellTyped(rows)
      modifies this
      ensures rows == Pruned(old(rows), now)
      ensures entry == TableCount(ExecutionLogs, |old(rows)| - |rows|)
      ensures forall k | k in old(rows) :: k in rows <==>
        k.table != ExecutionLogs || old(rows)[k].deleteAfter.None? || now <= old(rows)[k].deleteAfter.value
    {
      var deleted := set k | k in rows && k.table == ExecutionLogs
        && rows[k].ExecutionRow? && rows[k].deleteAfter.Some? && rows[k].deleteAfter.value < now;
      PrunedLogs(rows, now, deleted);
      entry := TableCount(ExecutionLogs, |deleted|);
      rows := rows - deleted;
    }
  }
}
