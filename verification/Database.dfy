/**
 The shared store and the statements the services run on it. A statement sees the committed
 rows with its own transaction's changes over them, filtered by the row policies; it may
 have to wait for keys that other transactions have changed; and foreign keys to `tenants`
 are checked when a row is inserted and when a tenant is deleted.
 */
module Database {
  import opened Schema
  import opened AuditChain
  import opened AuditOrder
  import opened AuditTrail

  /** A row's columns beside its key. An audit entry's generation is not a column: it counts
      the links from the entry back to one without a previous hash. */
  datatype Row =
    | ExecutionRow(workflow: Uuid, startedAt: int, deleteAfter: Option<int>)
    | AuditEntry(audit: AuditRow, generation: nat)
    | PlainRow(columns: string)

  type Store = map<Key, Row>

  /** A transaction's changes: a row inserted or updated, or None for a row deleted. */
  type Writes = map<Key, Option<Row>>

  /** What the transaction itself sees. */
  function Overlay(store: Store, w: Writes): Store {
    map k | k in store.Keys + w.Keys && (k in w ==> w[k].Some?) :: if k in w then w[k].value else store[k]
  }

  /** Changes on top of changes, and no changes. */
  lemma OverlayTwice(store: Store, w: Writes, c: Writes)
    ensures Overlay(store, w + c) == Overlay(Overlay(store, w), c)
  {
  }

  lemma OverlayNothing(store: Store, w: Writes)
    ensures Overlay(store, map[]) == store && map[] + w == w && w + map[] == w
  {
  }

  // ---------------------------------------------------------------- policies

  /** Tables with a row policy. `tenants` and `tenant_settings` have none; no migration shows
      one for the rotation audit, so none is assumed. */
  predicate Protected(table: Table) {
    table != Tenants && table != TenantSettings && table != RotationAudit
  }

  /** USING and WITH CHECK (tenant_id = current_setting('app.current_tenant_id')) */
  predicate Allows(setting: Uuid, k: Key) {
    Protected(k.table) ==> k.tenant == setting
  }

  // ---------------------------------------------------------------- statements

  datatype Statement =
    | Select(table: Table, filter: Option<Uuid>)
    | Insert(table: Table, tenant: Uuid, id: Uuid, row: Row)
    | InsertAudit(event: Event, pick: Option<Key>)
    | UpsertSettings(tenant: Uuid, row: Row, overwrite: bool)
    | Update(table: Table, id: Uuid, row: Row)
    | Delete(table: Table, id: Uuid)

  datatype Outcome =
    | Rows(rows: Store)
    | Changed(count: nat)
    | Blocked       // must wait for another transaction; nothing happened
    | Failed        // an error: the transaction is lost
    | Ignored       // no such step in this state

  datatype Effect = Effect(outcome: Outcome, changes: Writes)

  /** The rows of `table`, with this id if one is given, that the policies let through. */
  function Targets(view: Store, setting: Uuid, table: Table, id: Option<Uuid>): set<Key> {
    set k | k in view && k.table == table && Allows(setting, k) && (id.Some? ==> k.id == id.value)
  }

  /** The audit entries that the trigger's query can see: the policies filter it too. */
  function AuditShown(view: Store, setting: Uuid): AuditTable {
    map k | k in view && view[k].AuditEntry? && Allows(setting, k) :: view[k].audit
  }

  /** INSERT of one row: the policy's check, the primary key, the foreign key. It waits for a
      transaction that has changed the same key, or deleted the tenant. */
  function InsertRow(view: Store, held: set<Key>, setting: Uuid, k: Key, row: Row): Effect {
    if !Allows(setting, k) then Effect(Failed, map[])
    else if k in held || TenantKey(k.tenant) in held then Effect(Blocked, map[])
    else if k in view || TenantKey(k.tenant) !in view then Effect(Failed, map[])
    else Effect(Changed(1), map[k := Some(row)])
  }

  /** UPDATE or DELETE of the rows `ks`: each gets `change`. */
  function ChangeRows(held: set<Key>, ks: set<Key>, change: Option<Row>): Effect {
    if ks !! held then Effect(Changed(|ks|), map k | k in ks :: change)
    else Effect(Blocked, map[])
  }

  function AuditOf(view: Store): AuditTable {
    map k | k in view && view[k].AuditEntry? :: view[k].audit
  }

  /** The trigger's row: linked to the picked row, one generation further. */
  function AuditRowFor(h: Hasher, view: Store, e: Event, pick: Option<Key>): Row
    requires pick.Some? ==> pick.value in AuditOf(view)
  {
    AuditEntry(NewRow(h, PickedHash(AuditOf(view), pick), e),
               if pick.Some? then view[pick.value].generation + 1 else 0)
  }

  /** One statement of a transaction with this tenant setting and start time, over the rows
      `view`, while other transactions hold `held`. now() is the start time. */
  function Exec(h: Hasher, view: Store, held: set<Key>, setting: Uuid, start: int, stmt: Statement): Effect {
    match stmt
    case Select(table, filter) =>
      Effect(Rows(map k | k in Targets(view, setting, table, filter) :: view[k]), map[])
    case Insert(table, tenant, id, row) =>
      InsertRow(view, held, setting, Key(table, tenant, id), row)
    case InsertAudit(e, pick) =>
      if IsLatest(AuditShown(view, setting), e.tenant, pick)
      then InsertRow(view, held, setting, EventKey(e), AuditRowFor(h, view, e.(at := start), pick))
      else Effect(Ignored, map[])
    case UpsertSettings(tenant, row, overwrite) =>
      var k := Key(TenantSettings, tenant, tenant);
      if k !in view || k in held then InsertRow(view, held, setting, k, row)
      else if overwrite then ChangeRows(held, {k}, Some(row))
      else Effect(Changed(0), map[])
    case Update(table, id, row) =>
      ChangeRows(held, Targets(view, setting, table, Some(id)), Some(row))
    case Delete(table, id) =>
      ChangeRows(held, Targets(view, setting, table, Some(id)), None)
  }

  // ---------------------------------------------------------------- what statements do

  /** A row that a statement of this tenant may touch: its own, or one in a table without a
      policy. */
  predicate Reachable(setting: Uuid, k: Key) {
    k.tenant == setting || k.table == Tenants || k.table == TenantSettings || k.table == RotationAudit
  }

  /** SELECT returns the reachable rows of the table, with the given id if there is one, and
      changes nothing. */
  lemma SelectReturns(h: Hasher, view: Store, held: set<Key>, setting: Uuid, start: int, table: Table,
                      filter: Option<Uuid>)
    ensures var e := Exec(h, view, held, setting, start, Select(table, filter));
      && e.outcome.Rows? && e.changes == map[]
      && (forall k :: k in e.outcome.rows <==>
            k in view && k.table == table && Reachable(setting, k) && (filter == None || filter == Some(k.id)))
      && forall k | k in e.outcome.rows :: e.outcome.rows[k] == view[k]
  {
  }

  /** UPDATE ... WHERE id: it waits exactly if one of the reachable rows with this id is held,
      and else gives each of them, and no other row, the new columns, and counts them. */
  lemma UpdateChanges(h: Hasher, view: Store, held: set<Key>, setting: Uuid, start: int, table: Table, id: Uuid,
                      row: Row)
    ensures var e := Exec(h, view, held, setting, start, Update(table, id, row));
      if exists k :: k in view && k.table == table && k.id == id && Reachable(setting, k) && k in held
      then e == Effect(Blocked, map[])
      else
        && e.outcome == Changed(|e.changes|)
        && (forall k :: k in e.changes <==> k in view && k.table == table && k.id == id && Reachable(setting, k))
        && forall k | k in e.changes :: e.changes[k] == Some(row)
  {
    ChangesOf(view, held, setting, table, id, Some(row));
  }

  /** DELETE ... WHERE id likewise. */
  lemma DeleteChanges(h: Hasher, view: Store, held: set<Key>, setting: Uuid, start: int, table: Table, id: Uuid)
    ensures var e := Exec(h, view, held, setting, start, Delete(table, id));
      if exists k :: k in view && k.table == table && k.id == id && Reachable(setting, k) && k in held
      then e == Effect(Blocked, map[])
      else
        && e.outcome == Changed(|e.changes|)
        && (forall k :: k in e.changes <==> k in view && k.table == table && k.id == id && Reachable(setting, k))
        && forall k | k in e.changes :: e.changes[k] == None
  {
    ChangesOf(view, held, setting, table, id, None);
  }

  lemma ChangesOf(view: Store, held: set<Key>, setting: Uuid, table: Table, id: Uuid, change: Option<Row>)
    ensures var ks := Targets(view, setting, table, Some(id));
      var e := ChangeRows(held, ks, change);
      && (forall k :: k in ks <==> k in view && k.table == table && k.id == id && Reachable(setting, k))
      && (e.outcome.Changed? ==> e.changes.Keys == ks && |e.changes| == |ks|)
  {
    var ks := Targets(view, setting, table, Some(id));
    var c: Writes := map k | k in ks :: change;
    assert c.Keys == ks && |c| == |c.Keys|;
  }

  /** INSERT adds this one row, if its key is reachable and free and its tenant exists; it waits
      if another transaction has changed the key or the tenant. */
  lemma InsertAdds(h: Hasher, view: Store, held: set<Key>, setting: Uuid, start: int, table: Table, tenant: Uuid,
                   id: Uuid, row: Row)
    ensures
      var (k, root) := (Key(table, tenant, id), Key(Tenants, tenant, tenant));
      Exec(h, view, held, setting, start, Insert(table, tenant, id, row)) ==
        if !Reachable(setting, k) then Effect(Failed, map[])
        else if k in held || root in held then Effect(Blocked, map[])
        else if k !in view && root in view then Effect(Changed(1), map[k := Some(row)])
        else Effect(Failed, map[])
  {
  }

  /** INSERT ... ON CONFLICT on a tenant's own settings: DO UPDATE, or DO NOTHING, when they are
      there, and else an insert. */
  lemma UpsertWrites(h: Hasher, view: Store, held: set<Key>, setting: Uuid, start: int, row: Row, overwrite: bool)
    ensures
      var (k, root) := (Key(TenantSettings, setting, setting), Key(Tenants, setting, setting));
      Exec(h, view, held, setting, start, UpsertSettings(setting, row, overwrite)) ==
        if k in held || (k !in view && root in held) then Effect(Blocked, map[])
        else if k in view && !overwrite then Effect(Changed(0), map[])
        else if k in view || root in view then Effect(Changed(1), map[k := Some(row)])
        else Effect(Failed, map[])
  {
  }

  /** INSERT of an audit entry of the tenant's own, when the trigger picks one of the tenant's
      latest entries: the entry's time is the transaction's start. */
  lemma AuditInsertAdds(h: Hasher, view: Store, held: set<Key>, start: int, e: Event, pick: Option<Key>)
    requires WellTyped(view) && IsLatest(AuditOf(view), e.tenant, pick)
    ensures
      var (k, root) := (Key(AuditLog, e.tenant, e.id), Key(Tenants, e.tenant, e.tenant));
      Exec(h, view, held, e.tenant, start, InsertAudit(e, pick)) ==
        if k in held || root in held then Effect(Blocked, map[])
        else if k !in view && root in view
        then Effect(Changed(1), map[k := Some(AuditRowFor(h, view, e.(at := start), pick))])
        else Effect(Failed, map[])
  {
    forall k | k in AuditShown(view, e.tenant)
      ensures k in AuditOf(view) && AuditShown(view, e.tenant)[k] == AuditOf(view)[k]
    {
    }
    if pick.Some? { assert Fits(pick.value, view[pick.value]); }
  }

  /** The columns of the trigger's row: the event's with the transaction's start as its time,
      the picked row's hash, the hash that both give, and no archive mark. */
  lemma AuditColumns(h: Hasher, view: Store, e: Event, pick: Option<Key>)
    requires pick.Some? ==> pick.value in AuditOf(view)
    ensures var row := AuditRowFor(h, view, e, pick);
      && row.AuditEntry? && row.audit.event == e && row.audit.archivedAt.None?
      && row.audit.previousHash == (if pick.None? then None else view[pick.value].audit.currentHash)
      && row.audit.currentHash == Some(h(row.audit.previousHash, e))
  {
  }

  /** An audit insert that changes anything is the tenant's own, and its trigger picked a
      latest entry of all the tenant's entries. It adds the trigger's row under a free key. */
  lemma AuditInserted(h: Hasher, view: Store, held: set<Key>, setting: Uuid, start: int, e: Event, pick: Option<Key>)
    requires
      var effect := Exec(h, view, held, setting, start, InsertAudit(e, pick));
      effect.outcome.Changed? || effect.changes != map[]
    ensures e.tenant == setting
    ensures IsLatest(AuditOf(view), e.tenant, pick) && EventKey(e) !in view
    ensures Exec(h, view, held, setting, start, InsertAudit(e, pick)).changes ==
      map[EventKey(e) := Some(AuditRowFor(h, view, e.(at := start), pick))]
    ensures Overlay(view, Exec(h, view, held, setting, start, InsertAudit(e, pick)).changes) ==
      view[EventKey(e) := AuditRowFor(h, view, e.(at := start), pick)]
  {
  }

  /** The statements that the gateway's and the vault's handlers issue for a tenant. The two
      tables without a policy are always addressed by the tenant's own id, and the audit
      action of the worker is the worker's alone. */
  predicate Issued(setting: Uuid, stmt: Statement) {
    match stmt
    case Select(table, filter) => Protected(table) || (table != RotationAudit && filter == Some(setting))
    case Insert(table, tenant, id, row) =>
      && (table == Workflows || table == OAuthConnections || table == CredentialVault || table == RotationAudit)
      && (Protected(table) || tenant == setting)
      && row.PlainRow?
    case InsertAudit(e, pick) =>
      || (e.action == "workflow.created" && e.resourceType == "workflow")
      || (e.action == "oauth.connected" && e.resourceType == "oauth_connection")
      || (e.action == "oauth.token_refreshed" && e.resourceType == "oauth_connection")
    case UpsertSettings(tenant, row, overwrite) => tenant == setting && row.PlainRow?
    case Update(table, id, row) => (table == OAuthConnections || table == CredentialVault) && row.PlainRow?
    case Delete(table, id) => table == CredentialVault
  }

  /** The statements with which the worker changes something for a tenant. */
  predicate WorkerIssued(setting: Uuid, stmt: Statement) {
    match stmt
    case Insert(table, tenant, id, row) => table == ExecutionLogs && tenant == setting && row.ExecutionRow?
    case InsertAudit(e, pick) => e.tenant == setting
    case _ => false
  }

  /** The worker's audit entries. */
  predicate IsExecuted(row: Row) {
    row.AuditEntry? && row.audit.event.action == "workflow.executed"
  }

  // ---------------------------------------------------------------- the schema's rules

  /** Rows sit in their own table, under their own key. */
  predicate Fits(k: Key, row: Row) {
    && (k.table == Tenants || k.table == TenantSettings ==> k.id == k.tenant)
    && (row.ExecutionRow? <==> k.table == ExecutionLogs)
    && (row.AuditEntry? <==> k.table == AuditLog)
    && (row.AuditEntry? ==> EventKey(row.audit.event) == k)
  }

  ghost predicate WellTyped(store: Store) {
    forall k | k in store :: Fits(k, store[k])
  }

  lemma EntriesAreKeyed(view: Store)
    requires WellTyped(view)
    ensures Keyed(AuditOf(view))
  {
    forall k | k in AuditOf(view) ensures k.table == AuditLog && EventKey(AuditOf(view)[k].event) == k {
      assert Fits(k, view[k]);
    }
  }

  /** Every row's tenant exists. */
  ghost predicate ForeignKeys(store: Store) {
    forall k | k in store :: TenantKey(k.tenant) in store
  }

  /** A statement of the application changes only rows of the transaction's tenant, none that
      another transaction holds, and no row of `tenants`, `workflows` (but to insert), `users`
      or `webhook_endpoints`. */
  lemma IssuedChanges(h: Hasher, view: Store, held: set<Key>, setting: Uuid, start: int,
                      stmt: Statement, k: Key)
    requires WellTyped(view) && Issued(setting, stmt)
    requires k in Exec(h, view, held, setting, start, stmt).changes
    ensures
      var c := Exec(h, view, held, setting, start, stmt).changes;
      && k.tenant == setting && k !in held
      && (c[k].Some? ==> Fits(k, c[k].value))
      && (c[k].Some? && k !in view ==> TenantKey(setting) in view && TenantKey(setting) !in held)
      && (c[k].None? ==> k in view && k.table == CredentialVault)
      && k.table != Tenants && k.table != ExecutionLogs
      && (k.table == AuditLog || k.table == Workflows ==> k !in view)
      && (c[k].Some? ==> !IsExecuted(c[k].value))
      && (stmt.Insert? ==> k == Key(stmt.table, stmt.tenant, stmt.id) && c[k] == Some(stmt.row))
      && (stmt.InsertAudit? ==> k == EventKey(stmt.event) && c[k].Some?)
      && (stmt.UpsertSettings? ==> k == Key(TenantSettings, setting, setting) && c[k] == Some(stmt.row))
      && (stmt.Update? ==> k.table == stmt.table && k.id == stmt.id && k in view && c[k] == Some(stmt.row))
      && (stmt.Delete? ==> k.table == stmt.table && k.id == stmt.id && k in view && c[k] == None)
  {
  }
}
