/**
 The handlers of the gateway and the vault as the statements they issue, one after the other,
 each depending on the results so far. What `Cluster` calls legal is what these issue.
 */
module Handlers {
  import opened Schema
  import opened AuditChain
  import opened AuditTrail
  import opened Database
  import opened Gateway

  /** A handler with what its request, the database and the cipher provide: new ids, the
      columns to store, the audit trigger's choice. `renew` gives the new columns of a
      connection, or none if it has no refresh token; `usable` tells a connector whether a
      connection is its provider's and its access token decrypts. */
  datatype Handler =
    | ListWorkflows
    | CreateWorkflow(user: Uuid, id: Uuid, columns: string, auditId: Uuid, pick: Option<Key>)
    | ListExecutions
    | GetExecution(id: Uuid)
    | ReadTenant(defaults: string)
    | UpdateSettings(columns: string)
    | ConnectOAuth(user: Uuid, id: Uuid, columns: string, auditId: Uuid, pick: Option<Key>)
    | ListConnections
    | UseConnection(id: Uuid, usable: string -> bool)
    | RefreshOAuth(user: Uuid, id: Uuid, renew: string -> Option<string>, auditId: Uuid, pick: Option<Key>)
    | CreateCredential(id: Uuid, columns: string)
    | ListCredentials
    | ReadCredential(id: Uuid)
    | RotateCredential(id: Uuid, columns: string, auditId: Uuid, auditColumns: string)
    | DeleteCredential(id: Uuid)

  /** The columns an audit insert provides; the trigger sets the time. */
  function AuditEvent(tenant: Uuid, id: Uuid, user: Uuid, action: string, resourceType: string, resource: Uuid): Event {
    Event(tenant, id, Some(user), action, resourceType, Some(resource), None, None, 0)
  }

  function WorkflowEvent(tenant: Uuid, w: Handler): Event
    requires w.CreateWorkflow?
  {
    AuditEvent(tenant, w.auditId, w.user, "workflow.created", "workflow", w.id)
  }

  /** One query and no more. */
  function Only(seen: seq<Outcome>, stmt: Statement): Action {
    if seen == [] then Query(stmt) else Return
  }

  /** Two queries, whatever the first returns. */
  function Both(seen: seq<Outcome>, first: Statement, second: Statement): Action {
    if seen == [] then Query(first) else if |seen| == 1 then Query(second) else Return
  }

  /** What a handler does after the results `seen`. */
  function NextAction(tenant: Uuid, handler: Handler, seen: seq<Outcome>): Action {
    match handler
    case ListWorkflows => Only(seen, Select(Workflows, None))
    case CreateWorkflow(_, id, columns, _, pick) =>
      Both(seen, Insert(Workflows, tenant, id, PlainRow(columns)), InsertAudit(WorkflowEvent(tenant, handler), pick))
    case ListExecutions => Only(seen, Select(ExecutionLogs, None))
    case GetExecution(id) => Only(seen, Select(ExecutionLogs, Some(id)))
    case ReadTenant(defaults) =>
      if |seen| == 0 then Query(Select(Tenants, Some(tenant)))
      else if |seen| == 1 then Query(Select(Users, None))
      else if |seen| == 2 then Query(UpsertSettings(tenant, PlainRow(defaults), false))
      else if |seen| == 3 then Query(Select(TenantSettings, Some(tenant)))
      else if seen[3].Rows? && seen[3].rows != map[] then Return
      else Throw
    case UpdateSettings(columns) => Only(seen, UpsertSettings(tenant, PlainRow(columns), true))
    case ConnectOAuth(user, id, columns, auditId, pick) =>
      Both(seen, Insert(OAuthConnections, tenant, id, PlainRow(columns)),
           InsertAudit(AuditEvent(tenant, auditId, user, "oauth.connected", "oauth_connection", id), pick))
    case ListConnections => Only(seen, Select(OAuthConnections, None))
    case UseConnection(id, usable) =>
      var k := Key(OAuthConnections, tenant, id);
      if seen == [] then Query(Select(OAuthConnections, Some(id)))
      else if seen[0].Rows? && k in seen[0].rows && seen[0].rows[k].PlainRow? && usable(seen[0].rows[k].columns)
      then Return
      else Throw
    case RefreshOAuth(user, id, renew, auditId, pick) =>
      var k := Key(OAuthConnections, tenant, id);
      if |seen| == 0 then Query(Select(OAuthConnections, Some(id)))
      else if !seen[0].Rows? || k !in seen[0].rows || !seen[0].rows[k].PlainRow? then Throw
      else if renew(seen[0].rows[k].columns).None? then Throw
      else if |seen| == 1 then Query(Update(OAuthConnections, id, PlainRow(renew(seen[0].rows[k].columns).value)))
      else if |seen| == 2
      then Query(InsertAudit(AuditEvent(tenant, auditId, user, "oauth.token_refreshed", "oauth_connection", id), pick))
      else Return
    case CreateCredential(id, columns) => Only(seen, Insert(CredentialVault, tenant, id, PlainRow(columns)))
    case ListCredentials => Only(seen, Select(CredentialVault, None))
    case ReadCredential(id) => Only(seen, Select(CredentialVault, Some(id)))
    case RotateCredential(id, columns, auditId, auditColumns) =>
      if |seen| == 0 then Query(Update(CredentialVault, id, PlainRow(columns)))
      else if |seen| == 1 && seen[0] != Changed(0)
      then Query(Insert(RotationAudit, tenant, auditId, PlainRow(auditColumns)))
      else Return
    case DeleteCredential(id) => Only(seen, Delete(CredentialVault, id))
  }

  function Next(tenant: Uuid, handler: Handler): Callback {
    (seen: seq<Outcome>) => NextAction(tenant, handler, seen)
  }

  /** Every statement of every handler is one of those that the isolation and the safety of
      the whole system are proved for. */
  lemma HandlersAreLegal(tenant: Uuid, handler: Handler, seen: seq<Outcome>)
    requires NextAction(tenant, handler, seen).Query?
    ensures Issued(tenant, NextAction(tenant, handler, seen).stmt)
  {
  }

  // ---------------------------------------------------------------- handlers end

  lemma {:induction false} PlayLength(h: Hasher, store: Store, tenant: Uuid, start: int, next: Callback, n: nat)
    requires forall i: nat | i < n :: ActionAfter(h, store, tenant, start, next, i).Query?
    ensures |Play(h, store, tenant, start, next, n).0| == n
  {
    if n == 0 {
    } else {
      PlayLength(h, store, tenant, start, next, n - 1);
      assert ActionAfter(h, store, tenant, start, next, n - 1).Query?;
    }
  }

  lemma {:induction false} EndsWithin(h: Hasher, store: Store, tenant: Uuid, start: int, next: Callback,
                                      bound: nat, n: nat) returns (end: nat)
    requires forall seen: seq<Outcome> | |seen| >= bound :: !next(seen).Query?
    requires n <= bound && forall i: nat | i < n :: ActionAfter(h, store, tenant, start, next, i).Query?
    ensures end <= bound && EndsAfter(h, store, tenant, start, next, end)
    decreases bound - n
  {
    PlayLength(h, store, tenant, start, next, n);
    if ActionAfter(h, store, tenant, start, next, n).Query? {
      end := EndsWithin(h, store, tenant, start, next, bound, n + 1);
    } else {
      end := n;
    }
  }

  /** Every handler comes to its end, on any store, after four queries at the most. */
  lemma HandlersEnd(h: Hasher, store: Store, tenant: Uuid, start: int, handler: Handler) returns (n: nat)
    ensures n <= 4 && EndsAfter(h, store, tenant, start, Next(tenant, handler), n)
  {
    n := EndsWithin(h, store, tenant, start, Next(tenant, handler), 4, 0);
  }

  // ---------------------------------------------------------------- two statements

  /** One more query of a callback. */
  lemma PlayNext(h: Hasher, store: Store, tenant: Uuid, start: int, next: Callback, n: nat, seen: seq<Outcome>,
                 writes: Writes, stmt: Statement, e: Effect)
    requires Play(h, store, tenant, start, next, n) == (seen, writes) && next(seen) == Query(stmt)
    requires e == Exec(h, Overlay(store, writes), {}, tenant, start, stmt)
    ensures ActionAfter(h, store, tenant, start, next, n) == if e.outcome.Failed? then Throw else Query(stmt)
    ensures Play(h, store, tenant, start, next, n + 1) == (seen + [e.outcome], writes + e.changes)
  {
  }

  /** Where a callback ends is determined. */
  lemma EndIs(h: Hasher, store: Store, tenant: Uuid, start: int, next: Callback, n: nat, m: nat)
    requires EndsAfter(h, store, tenant, start, next, n) && m <= 4
    requires m > 0 ==> ActionAfter(h, store, tenant, start, next, 0).Query?
    requires m > 1 ==> ActionAfter(h, store, tenant, start, next, 1).Query?
    requires m > 2 ==> ActionAfter(h, store, tenant, start, next, 2).Query?
    requires m > 3 ==> ActionAfter(h, store, tenant, start, next, 3).Query?
    requires !ActionAfter(h, store, tenant, start, next, m).Query?
    ensures n == m
  {
    assert m < n ==> ActionAfter(h, store, tenant, start, next, m).Query?;
  }

  lemma EndsOnce(h: Hasher, store: Store, tenant: Uuid, start: int, next: Callback, n: nat, m: nat)
    requires EndsAfter(h, store, tenant, start, next, n) && EndsAfter(h, store, tenant, start, next, m)
    ensures n == m
  {
  }

  /** A handler of two statements has the effect of both, or, if one fails, of neither. */
  lemma BothOrNeither(h: Hasher, store: Store, tenant: Uuid, start: int, next: Callback,
                      first: Statement, second: Statement, n: nat)
    requires forall seen: seq<Outcome> :: next(seen) == Both(seen, first, second)
    requires EndsAfter(h, store, tenant, start, next, n)
    ensures
      var e := Exec(h, store, {}, tenant, start, first);
      var f := Exec(h, Overlay(store, e.changes), {}, tenant, start, second);
      if e.outcome.Failed? || f.outcome.Failed? then ActionAfter(h, store, tenant, start, next, n).Throw?
      else
        && ActionAfter(h, store, tenant, start, next, n).Return?
        && Served(h, store, tenant, start, next, n) == Overlay(Overlay(store, e.changes), f.changes)
  {
    var e := Exec(h, store, {}, tenant, start, first);
    var f := Exec(h, Overlay(store, e.changes), {}, tenant, start, second);
    OverlayNothing(store, e.changes);
    OverlayTwice(store, e.changes, f.changes);
    PlayNext(h, store, tenant, start, next, 0, [], map[], first, e);
    assert [] + [e.outcome] == [e.outcome];
    PlayNext(h, store, tenant, start, next, 1, [e.outcome], e.changes, second, f);
    assert n > 0 ==> ActionAfter(h, store, tenant, start, next, 0).Query?;
    assert n > 1 ==> ActionAfter(h, store, tenant, start, next, 1).Query?;
    assert ActionAfter(h, store, tenant, start, next, 2) == Return;
  }

  // ---------------------------------------------------------------- one statement

  /** A handler of one statement has its effect and its result, or throws if it fails. */
  lemma OneStatement(h: Hasher, store: Store, tenant: Uuid, start: int, next: Callback, stmt: Statement, n: nat)
    requires forall seen: seq<Outcome> :: next(seen) == Only(seen, stmt)
    requires EndsAfter(h, store, tenant, start, next, n)
    ensures
      var e := Exec(h, store, {}, tenant, start, stmt);
      if e.outcome.Failed? then ActionAfter(h, store, tenant, start, next, n).Throw?
      else
        && ActionAfter(h, store, tenant, start, next, n).Return?
        && Served(h, store, tenant, start, next, n) == Overlay(store, e.changes)
        && Play(h, store, tenant, start, next, n).0 == [e.outcome]
  {
    var e := Exec(h, store, {}, tenant, start, stmt);
    OverlayNothing(store, e.changes);
    PlayNext(h, store, tenant, start, next, 0, [], map[], stmt, e);
    assert [] + [e.outcome] == [e.outcome];
    assert n > 0 ==> ActionAfter(h, store, tenant, start, next, 0).Query?;
    assert !e.outcome.Failed? ==> ActionAfter(h, store, tenant, start, next, 1) == Return;
  }

  /** The handlers that only read a table, and the rows of the tenant that each is to show. */
  predicate Reads(handler: Handler) {
    || handler.ListWorkflows? || handler.ListExecutions? || handler.GetExecution?
    || handler.ListConnections? || handler.ListCredentials? || handler.ReadCredential?
  }

  predicate ToShow(handler: Handler, k: Key) {
    match handler
    case ListWorkflows => k.table == Workflows
    case ListExecutions => k.table == ExecutionLogs
    case GetExecution(id) => k.table == ExecutionLogs && k.id == id
    case ListConnections => k.table == OAuthConnections
    case ListCredentials => k.table == CredentialVault
    case ReadCredential(id) => k.table == CredentialVault && k.id == id
    case _ => false
  }

  /** They return exactly these rows, as they are stored, and change nothing. */
  lemma ReadsShowTheirRows(h: Hasher, store: Store, tenant: Uuid, start: int, handler: Handler, n: nat)
    requires Reads(handler) && EndsAfter(h, store, tenant, start, Next(tenant, handler), n)
    ensures
      var next := Next(tenant, handler);
      var results := Play(h, store, tenant, start, next, n).0;
      && ActionAfter(h, store, tenant, start, next, n).Return? && Served(h, store, tenant, start, next, n) == store
      && |results| == 1 && results[0].Rows?
      && (forall k :: k in results[0].rows <==> k in store && k.tenant == tenant && ToShow(handler, k))
      && forall k | k in results[0].rows :: results[0].rows[k] == store[k]
  {
    var stmt := NextAction(tenant, handler, []).stmt;
    OneStatement(h, store, tenant, start, Next(tenant, handler), stmt, n);
    OverlayNothing(store, map[]);
    SelectReturns(h, store, {}, tenant, start, stmt.table, stmt.filter);
  }

  /** POST / of the vault stores the credential, or throws. */
  lemma CredentialIsStored(h: Hasher, store: Store, tenant: Uuid, start: int, id: Uuid, columns: string, n: nat)
    requires EndsAfter(h, store, tenant, start, Next(tenant, CreateCredential(id, columns)), n)
    ensures
      var (k, next) := (Key(CredentialVault, tenant, id), Next(tenant, CreateCredential(id, columns)));
      if TenantKey(tenant) in store && k !in store then
        && ActionAfter(h, store, tenant, start, next, n).Return?
        && Served(h, store, tenant, start, next, n) == store[k := PlainRow(columns)]
      else
        ActionAfter(h, store, tenant, start, next, n).Throw?
  {
    var stmt := Insert(CredentialVault, tenant, id, PlainRow(columns));
    OneStatement(h, store, tenant, start, Next(tenant, CreateCredential(id, columns)), stmt, n);
    InsertAlone(h, store, tenant, start, stmt);
  }

  /** DELETE /:id leaves everything but the credential, whether or not it was there. */
  lemma CredentialIsDeleted(h: Hasher, store: Store, tenant: Uuid, start: int, id: Uuid, n: nat)
    requires EndsAfter(h, store, tenant, start, Next(tenant, DeleteCredential(id)), n)
    ensures var next := Next(tenant, DeleteCredential(id));
      && ActionAfter(h, store, tenant, start, next, n).Return?
      && Served(h, store, tenant, start, next, n) == store - {Key(CredentialVault, tenant, id)}
  {
    OneStatement(h, store, tenant, start, Next(tenant, DeleteCredential(id)), Delete(CredentialVault, id), n);
    DeleteOne(h, store, tenant, start, CredentialVault, id);
  }

  lemma DeleteOne(h: Hasher, store: Store, tenant: Uuid, start: int, table: Table, id: Uuid)
    requires Protected(table)
    ensures var e := Exec(h, store, {}, tenant, start, Delete(table, id));
      e.outcome.Changed? && Overlay(store, e.changes) == store - {Key(table, tenant, id)}
  {
    DeleteChanges(h, store, {}, tenant, start, table, id);
  }

  /** An INSERT of the tenant's own when nobody else has a transaction. */
  lemma InsertAlone(h: Hasher, store: Store, tenant: Uuid, start: int, stmt: Statement)
    requires stmt.Insert? && stmt.tenant == tenant
    ensures var k := Key(stmt.table, tenant, stmt.id);
      var e := Exec(h, store, {}, tenant, start, stmt);
      if TenantKey(tenant) in store && k !in store
      then !e.outcome.Failed? && Overlay(store, e.changes) == store[k := stmt.row]
      else e.outcome.Failed?
  {
  }

  // ---------------------------------------------------------------- a row and its audit entry

  /** An audit INSERT after a change that left the audit log alone. */
  lemma AuditAlone(h: Hasher, store: Store, view: Store, tenant: Uuid, start: int, e: Event, pick: Option<Key>)
    requires e.tenant == tenant && WellTyped(view) && TenantKey(tenant) in view
    requires forall k: Key | k.table == AuditLog :: (k in view <==> k in store) && (k in view ==> view[k] == store[k])
    requires WellTyped(store) && IsLatest(AuditOf(store), tenant, pick)
    ensures pick.Some? ==> pick.value in AuditOf(store)
    ensures var effect := Exec(h, view, {}, tenant, start, InsertAudit(e, pick));
      if EventKey(e) in view then effect.outcome.Failed?
      else
        && !effect.outcome.Failed?
        && Overlay(view, effect.changes) == view[EventKey(e) := AuditRowFor(h, store, e.(at := start), pick)]
  {
    assert AuditOf(view) == AuditOf(store) by {
      forall k ensures k in AuditOf(view) <==> k in AuditOf(store) {
        if k in view { assert Fits(k, view[k]); }
        if k in store { assert Fits(k, store[k]); }
      }
    }
    assert IsLatest(AuditShown(view, tenant), tenant, pick) by {
      forall k | k in AuditShown(view, tenant)
        ensures k in AuditOf(view) && AuditShown(view, tenant)[k] == AuditOf(view)[k]
      {
      }
    }
    if pick.Some? { assert Fits(pick.value, view[pick.value]); }
  }

  /** An insert and its audit entry, both or neither. */
  lemma RowWithItsAudit(h: Hasher, store: Store, tenant: Uuid, start: int, next: Callback, first: Statement,
                        e: Event, pick: Option<Key>, n: nat)
    requires first.Insert? && first.tenant == tenant && first.table != AuditLog && first.table != ExecutionLogs
    requires first.table != Tenants && first.table != TenantSettings && first.row.PlainRow?
    requires forall seen: seq<Outcome> :: next(seen) == Both(seen, first, InsertAudit(e, pick))
    requires e.tenant == tenant && WellTyped(store) && IsLatest(AuditOf(store), tenant, pick)
    requires EndsAfter(h, store, tenant, start, next, n)
    ensures
      var (k, a) := (Key(first.table, tenant, first.id), Key(AuditLog, tenant, e.id));
      if TenantKey(tenant) in store && k !in store && a !in store then
        && ActionAfter(h, store, tenant, start, next, n).Return?
        && Served(h, store, tenant, start, next, n)
             == store[k := first.row][a := AuditRowFor(h, store, e.(at := start), pick)]
      else
        ActionAfter(h, store, tenant, start, next, n).Throw?
  {
    var k := Key(first.table, tenant, first.id);
    InsertAlone(h, store, tenant, start, first);
    if TenantKey(tenant) in store && k !in store {
      AuditAlone(h, store, store[k := first.row], tenant, start, e, pick);
    }
    BothOrNeither(h, store, tenant, start, next, first, InsertAudit(e, pick), n);
  }

  /** POST /workflows leaves the workflow and the entry of who created it, or neither. */
  lemma WorkflowWithItsAudit(h: Hasher, store: Store, tenant: Uuid, start: int, w: Handler, n: nat)
    requires w.CreateWorkflow? && WellTyped(store) && IsLatest(AuditOf(store), tenant, w.pick)
    requires EndsAfter(h, store, tenant, start, Next(tenant, w), n)
    ensures
      var (k, a) := (Key(Workflows, tenant, w.id), Key(AuditLog, tenant, w.auditId));
      var next := Next(tenant, w);
      var e := Event(tenant, w.auditId, Some(w.user), "workflow.created", "workflow", Some(w.id), None, None, start);
      if TenantKey(tenant) in store && k !in store && a !in store then
        && ActionAfter(h, store, tenant, start, next, n).Return?
        && Served(h, store, tenant, start, next, n)
             == store[k := PlainRow(w.columns)][a := AuditRowFor(h, store, e, w.pick)]
      else
        ActionAfter(h, store, tenant, start, next, n).Throw?
  {
    var first := Insert(Workflows, tenant, w.id, PlainRow(w.columns));
    RowWithItsAudit(h, store, tenant, start, Next(tenant, w), first, WorkflowEvent(tenant, w), w.pick, n);
  }

  /** POST /:provider/connect likewise. */
  lemma ConnectionWithItsAudit(h: Hasher, store: Store, tenant: Uuid, start: int, r: Handler, n: nat)
    requires r.ConnectOAuth? && WellTyped(store) && IsLatest(AuditOf(store), tenant, r.pick)
    requires EndsAfter(h, store, tenant, start, Next(tenant, r), n)
    ensures
      var (k, a) := (Key(OAuthConnections, tenant, r.id), Key(AuditLog, tenant, r.auditId));
      var next := Next(tenant, r);
      var e := Event(tenant, r.auditId, Some(r.user), "oauth.connected", "oauth_connection", Some(r.id), None, None,
                     start);
      if TenantKey(tenant) in store && k !in store && a !in store then
        && ActionAfter(h, store, tenant, start, next, n).Return?
        && Served(h, store, tenant, start, next, n)
             == store[k := PlainRow(r.columns)][a := AuditRowFor(h, store, e, r.pick)]
      else
        ActionAfter(h, store, tenant, start, next, n).Throw?
  {
    var first := Insert(OAuthConnections, tenant, r.id, PlainRow(r.columns));
    var e := AuditEvent(tenant, r.auditId, r.user, "oauth.connected", "oauth_connection", r.id);
    RowWithItsAudit(h, store, tenant, start, Next(tenant, r), first, e, r.pick, n);
  }

  // ---------------------------------------------------------------- reading, then writing

  /** SELECT and UPDATE by id find the tenant's one row. */
  lemma SelectOne(h: Hasher, store: Store, tenant: Uuid, start: int, table: Table, id: Uuid)
    requires Protected(table)
    ensures var k := Key(table, tenant, id);
      Exec(h, store, {}, tenant, start, Select(table, Some(id)))
        == Effect(Rows(if k in store then map[k := store[k]] else map[]), map[])
  {
    SelectReturns(h, store, {}, tenant, start, table, Some(id));
  }

  lemma UpdateOne(h: Hasher, store: Store, tenant: Uuid, start: int, table: Table, id: Uuid, row: Row)
    requires Protected(table)
    ensures var k := Key(table, tenant, id);
      Exec(h, store, {}, tenant, start, Update(table, id, row))
        == if k in store then Effect(Changed(1), map[k := Some(row)]) else Effect(Changed(0), map[])
  {
    var k := Key(table, tenant, id);
    var e := Exec(h, store, {}, tenant, start, Update(table, id, row));
    UpdateChanges(h, store, {}, tenant, start, table, id, row);
    assert e.changes == if k in store then map[k := Some(row)] else map[];
  }

  /** The connectors go on exactly if the connection is the tenant's and usable, and change
      nothing. */
  lemma ConnectorReads(h: Hasher, store: Store, tenant: Uuid, start: int, r: Handler, n: nat)
    requires r.UseConnection? && WellTyped(store)
    requires EndsAfter(h, store, tenant, start, Next(tenant, r), n)
    ensures var (k, next) := (Key(OAuthConnections, tenant, r.id), Next(tenant, r));
      && (ActionAfter(h, store, tenant, start, next, n).Return? <==>
            k in store && store[k].PlainRow? && r.usable(store[k].columns))
      && Served(h, store, tenant, start, next, n) == store
  {
    var (k, next, stmt) := (Key(OAuthConnections, tenant, r.id), Next(tenant, r), Select(OAuthConnections, Some(r.id)));
    var e := Exec(h, store, {}, tenant, start, stmt);
    SelectOne(h, store, tenant, start, OAuthConnections, r.id);
    OverlayNothing(store, map[]);
    PlayNext(h, store, tenant, start, next, 0, [], map[], stmt, e);
    assert n > 0 ==> ActionAfter(h, store, tenant, start, next, 0).Query?;
    assert n > 1 ==> ActionAfter(h, store, tenant, start, next, 1).Query?;
    assert [] + [e.outcome] == [e.outcome];
    assert ActionAfter(h, store, tenant, start, next, 1) == NextAction(tenant, r, [e.outcome]);
  }

  /** POST /:connectionId/refresh replaces the columns of a connection that has a refresh token,
      and leaves the entry of who did it, or throws. */
  lemma RefreshWithItsAudit(h: Hasher, store: Store, tenant: Uuid, start: int, r: Handler, n: nat)
    requires r.RefreshOAuth? && WellTyped(store) && IsLatest(AuditOf(store), tenant, r.pick)
    requires EndsAfter(h, store, tenant, start, Next(tenant, r), n)
    ensures
      var (k, a) := (Key(OAuthConnections, tenant, r.id), Key(AuditLog, tenant, r.auditId));
      var next := Next(tenant, r);
      var e := Event(tenant, r.auditId, Some(r.user), "oauth.token_refreshed", "oauth_connection", Some(r.id), None,
                     None, start);
      if k in store && store[k].PlainRow? && r.renew(store[k].columns).Some?
         && TenantKey(tenant) in store && a !in store
      then
        && ActionAfter(h, store, tenant, start, next, n).Return?
        && Served(h, store, tenant, start, next, n)
             == store[k := PlainRow(r.renew(store[k].columns).value)][a := AuditRowFor(h, store, e, r.pick)]
      else
        ActionAfter(h, store, tenant, start, next, n).Throw?
  {
    var next := Next(tenant, r);
    var found := RefreshReads(h, store, tenant, start, r);
    if Renewal(store, tenant, r).Some? {
      RefreshWrites(h, store, tenant, start, r, found);
      EndIs(h, store, tenant, start, next, n,
            if TenantKey(tenant) in store && Key(AuditLog, tenant, r.auditId) !in store then 3 else 2);
    } else {
      EndIs(h, store, tenant, start, next, n, 1);
    }
  }

  lemma RefreshReads(h: Hasher, store: Store, tenant: Uuid, start: int, r: Handler) returns (found: Outcome)
    requires r.RefreshOAuth?
    ensures var (k, next) := (Key(OAuthConnections, tenant, r.id), Next(tenant, r));
      && found == Rows(if k in store then map[k := store[k]] else map[])
      && ActionAfter(h, store, tenant, start, next, 0).Query?
      && Play(h, store, tenant, start, next, 1) == ([found], map[])
      && (Renewal(store, tenant, r).None? ==> ActionAfter(h, store, tenant, start, next, 1).Throw?)
  {
    var select := Select(OAuthConnections, Some(r.id));
    var e := Exec(h, store, {}, tenant, start, select);
    SelectOne(h, store, tenant, start, OAuthConnections, r.id);
    OverlayNothing(store, map[]);
    PlayNext(h, store, tenant, start, Next(tenant, r), 0, [], map[], select, e);
    found := e.outcome;
    assert [] + [found] == [found];
  }

  /** The connection's columns as they are to be, and the entry's. */
  function Renewal(store: Store, tenant: Uuid, r: Handler): Option<Row>
    requires r.RefreshOAuth?
  {
    var k := Key(OAuthConnections, tenant, r.id);
    if k in store && store[k].PlainRow? && r.renew(store[k].columns).Some?
    then Some(PlainRow(r.renew(store[k].columns).value))
    else None
  }

  function RefreshEvent(tenant: Uuid, r: Handler): Event
    requires r.RefreshOAuth?
  {
    AuditEvent(tenant, r.auditId, r.user, "oauth.token_refreshed", "oauth_connection", r.id)
  }

  lemma RefreshUpdates(h: Hasher, store: Store, tenant: Uuid, start: int, r: Handler, found: Outcome)
    requires r.RefreshOAuth? && Renewal(store, tenant, r).Some?
    requires var k := Key(OAuthConnections, tenant, r.id); found == Rows(map[k := store[k]])
    requires Play(h, store, tenant, start, Next(tenant, r), 1) == ([found], map[])
    ensures var next := Next(tenant, r);
      && ActionAfter(h, store, tenant, start, next, 1).Query?
      && Play(h, store, tenant, start, next, 2)
           == ([found, Changed(1)], map[Key(OAuthConnections, tenant, r.id) := Some(Renewal(store, tenant, r).value)])
      && next([found, Changed(1)]) == Query(InsertAudit(RefreshEvent(tenant, r), r.pick))
  {
    var update := Update(OAuthConnections, r.id, Renewal(store, tenant, r).value);
    var updated := Exec(h, store, {}, tenant, start, update);
    UpdateOne(h, store, tenant, start, OAuthConnections, r.id, update.row);
    OverlayNothing(store, updated.changes);
    PlayNext(h, store, tenant, start, Next(tenant, r), 1, [found], map[], update, updated);
    assert [found] + [updated.outcome] == [found, updated.outcome];
  }

  /** The update and the audit insert of a refresh. */
  lemma RefreshWrites(h: Hasher, store: Store, tenant: Uuid, start: int, r: Handler, found: Outcome)
    requires r.RefreshOAuth? && WellTyped(store) && IsLatest(AuditOf(store), tenant, r.pick)
    requires Renewal(store, tenant, r).Some?
    requires var k := Key(OAuthConnections, tenant, r.id); found == Rows(map[k := store[k]])
    requires Play(h, store, tenant, start, Next(tenant, r), 1) == ([found], map[])
    ensures
      var (k, next, e) := (Key(OAuthConnections, tenant, r.id), Next(tenant, r), RefreshEvent(tenant, r));
      && ActionAfter(h, store, tenant, start, next, 1).Query?
      && if TenantKey(tenant) in store && EventKey(e) !in store then
           && ActionAfter(h, store, tenant, start, next, 2).Query?
           && ActionAfter(h, store, tenant, start, next, 3).Return?
           && Served(h, store, tenant, start, next, 3)
                == store[k := Renewal(store, tenant, r).value]
                        [EventKey(e) := AuditRowFor(h, store, e.(at := start), r.pick)]
         else ActionAfter(h, store, tenant, start, next, 2).Throw?
  {
    var (k, row) := (Key(OAuthConnections, tenant, r.id), Renewal(store, tenant, r).value);
    RefreshUpdates(h, store, tenant, start, r, found);
    assert Fits(k, store[k]);
    WriteThenAudit(h, store, tenant, start, Next(tenant, r), 2, [found, Changed(1)], k, row, RefreshEvent(tenant, r),
                   r.pick);
    var (seen, writes) := Play(h, store, tenant, start, Next(tenant, r), 3);
    if |seen| == 3 && [found, Changed(1)] <= seen { RefreshReturns(store, tenant, r, seen); }
  }

  lemma RefreshReturns(store: Store, tenant: Uuid, r: Handler, seen: seq<Outcome>)
    requires r.RefreshOAuth? && Renewal(store, tenant, r).Some? && |seen| == 3
    requires var k := Key(OAuthConnections, tenant, r.id); seen[0] == Rows(map[k := store[k]])
    ensures NextAction(tenant, r, seen) == Return
  {
  }

  /** One more query of a callback that is an audit insert. */
  lemma PlayAudit(h: Hasher, store: Store, tenant: Uuid, start: int, next: Callback, n: nat, seen: seq<Outcome>,
                  w: Writes, e: Event, pick: Option<Key>)
    requires Play(h, store, tenant, start, next, n) == (seen, w) && next(seen) == Query(InsertAudit(e, pick))
    ensures var effect := Exec(h, Overlay(store, w), {}, tenant, start, InsertAudit(e, pick));
      && (effect.outcome.Failed? ==> ActionAfter(h, store, tenant, start, next, n).Throw?)
      && (!effect.outcome.Failed? ==>
            && ActionAfter(h, store, tenant, start, next, n).Query?
            && Play(h, store, tenant, start, next, n + 1).0 == seen + [effect.outcome]
            && Served(h, store, tenant, start, next, n + 1) == Overlay(Overlay(store, w), effect.changes))
  {
    var effect := Exec(h, Overlay(store, w), {}, tenant, start, InsertAudit(e, pick));
    PlayNext(h, store, tenant, start, next, n, seen, w, InsertAudit(e, pick), effect);
    OverlayTwice(store, w, effect.changes);
  }

  /** An audit insert as the next query after a row's update. */
  lemma WriteThenAudit(h: Hasher, store: Store, tenant: Uuid, start: int, next: Callback, m: nat, seen: seq<Outcome>,
                       k: Key, row: Row, e: Event, pick: Option<Key>)
    requires Play(h, store, tenant, start, next, m) == (seen, map[k := Some(row)])
    requires next(seen) == Query(InsertAudit(e, pick)) && e.tenant == tenant
    requires WellTyped(store) && IsLatest(AuditOf(store), tenant, pick)
    requires k in store && k.table != AuditLog && k.table != Tenants && k.table != ExecutionLogs && row.PlainRow?
    ensures
      if TenantKey(tenant) in store && EventKey(e) !in store then
        && ActionAfter(h, store, tenant, start, next, m).Query?
        && |Play(h, store, tenant, start, next, m + 1).0| == |seen| + 1
        && seen <= Play(h, store, tenant, start, next, m + 1).0
        && Served(h, store, tenant, start, next, m + 1)
             == store[k := row][EventKey(e) := AuditRowFor(h, store, e.(at := start), pick)]
      else ActionAfter(h, store, tenant, start, next, m).Throw?
  {
    var w: Writes := map[k := Some(row)];
    assert Overlay(store, w) == store[k := row];
    AfterUpdate(h, store, store[k := row], k, tenant, start, e, pick);
    PlayAudit(h, store, tenant, start, next, m, seen, w, e, pick);
  }

  /** The audit insert after a row's update, whether or not the tenant exists. */
  lemma AfterUpdate(h: Hasher, store: Store, view: Store, k: Key, tenant: Uuid, start: int, e: Event, pick: Option<Key>)
    requires e.tenant == tenant && WellTyped(store) && IsLatest(AuditOf(store), tenant, pick)
    requires k in store && k.table != AuditLog && k.table != Tenants && k.table != ExecutionLogs
    requires view.Keys == store.Keys && view[k].PlainRow? && view == store[k := view[k]]
    ensures pick.Some? ==> pick.value in AuditOf(store)
    ensures var effect := Exec(h, view, {}, tenant, start, InsertAudit(e, pick));
      if TenantKey(tenant) in store && EventKey(e) !in store then
        && !effect.outcome.Failed?
        && Overlay(view, effect.changes) == view[EventKey(e) := AuditRowFor(h, store, e.(at := start), pick)]
      else effect.outcome.Failed?
  {
    assert Fits(k, store[k]);
    forall x | x in view ensures Fits(x, view[x]) {
      assert Fits(x, store[x]);
    }
    if TenantKey(tenant) in store { AuditAlone(h, store, view, tenant, start, e, pick); }
  }

  /** POST /:id/rotate gives the credential its new columns and leaves the audit row, or throws;
      if the credential is not there it changes nothing. */
  lemma RotationWithItsAudit(h: Hasher, store: Store, tenant: Uuid, start: int, r: Handler, n: nat)
    requires r.RotateCredential? && EndsAfter(h, store, tenant, start, Next(tenant, r), n)
    ensures
      var (k, a) := (Key(CredentialVault, tenant, r.id), Key(RotationAudit, tenant, r.auditId));
      var next := Next(tenant, r);
      if k !in store then
        ActionAfter(h, store, tenant, start, next, n).Return? && Served(h, store, tenant, start, next, n) == store
      else if TenantKey(tenant) in store && a !in store then
        && ActionAfter(h, store, tenant, start, next, n).Return?
        && Served(h, store, tenant, start, next, n) == store[k := PlainRow(r.columns)][a := PlainRow(r.auditColumns)]
      else
        ActionAfter(h, store, tenant, start, next, n).Throw?
  {
    var (k, next) := (Key(CredentialVault, tenant, r.id), Next(tenant, r));
    var update := Update(CredentialVault, r.id, PlainRow(r.columns));
    var updated := Exec(h, store, {}, tenant, start, update);
    UpdateOne(h, store, tenant, start, CredentialVault, r.id, update.row);
    OverlayNothing(store, updated.changes);
    PlayNext(h, store, tenant, start, next, 0, [], map[], update, updated);
    assert [] + [updated.outcome] == [updated.outcome];
    if k in store {
      var view := store[k := update.row];
      assert Overlay(store, updated.changes) == view;
      var insert := Insert(RotationAudit, tenant, r.auditId, PlainRow(r.auditColumns));
      var inserted := Exec(h, view, {}, tenant, start, insert);
      PlayNext(h, store, tenant, start, next, 1, [updated.outcome], updated.changes, insert, inserted);
      OverlayTwice(store, updated.changes, inserted.changes);
      InsertAlone(h, view, tenant, start, insert);
      EndIs(h, store, tenant, start, next, n, if inserted.outcome.Failed? then 1 else 2);
    } else {
      EndIs(h, store, tenant, start, next, n, 1);
    }
  }

  // ---------------------------------------------------------------- the tenant's settings

  function SettingsKey(tenant: Uuid): Key {
    Key(TenantSettings, tenant, tenant)
  }

  /** The settings after an insert-if-absent. */
  function WithSettings(store: Store, tenant: Uuid, columns: string): Store {
    if SettingsKey(tenant) in store then store else store[SettingsKey(tenant) := PlainRow(columns)]
  }

  lemma UpsertAlone(h: Hasher, store: Store, tenant: Uuid, start: int, columns: string, overwrite: bool)
    requires TenantKey(tenant) in store
    ensures var e := Exec(h, store, {}, tenant, start, UpsertSettings(tenant, PlainRow(columns), overwrite));
      && e.outcome.Changed?
      && Overlay(store, e.changes) == if overwrite then store[SettingsKey(tenant) := PlainRow(columns)]
                                      else WithSettings(store, tenant, columns)
  {
  }

  lemma SelectSettings(h: Hasher, store: Store, tenant: Uuid, start: int)
    requires WellTyped(store) && SettingsKey(tenant) in store
    ensures Exec(h, store, {}, tenant, start, Select(TenantSettings, Some(tenant)))
      == Effect(Rows(map[SettingsKey(tenant) := store[SettingsKey(tenant)]]), map[])
  {
    forall k | k in Targets(store, tenant, TenantSettings, Some(tenant)) ensures k == SettingsKey(tenant) {
      assert Fits(k, store[k]);
    }
    var found := Targets(store, tenant, TenantSettings, Some(tenant));
    assert SettingsKey(tenant) in found;
    assert (map k | k in found :: store[k]) == map[SettingsKey(tenant) := store[SettingsKey(tenant)]];
  }

  /** GET /tenant shows the tenant's settings; it stores the defaults if there are none, and
      otherwise changes nothing. */
  lemma ReadTenantShowsSettings(h: Hasher, store: Store, tenant: Uuid, start: int, defaults: string, n: nat)
    requires WellTyped(store) && TenantKey(tenant) in store
    requires EndsAfter(h, store, tenant, start, Next(tenant, ReadTenant(defaults)), n)
    ensures
      var next := Next(tenant, ReadTenant(defaults));
      var after := WithSettings(store, tenant, defaults);
      && n == 4 && ActionAfter(h, store, tenant, start, next, n).Return?
      && Served(h, store, tenant, start, next, n) == after
      && |Play(h, store, tenant, start, next, n).0| == 4
      && ShowsTenantAndUsers(store, tenant, Play(h, store, tenant, start, next, n).0)
      && Play(h, store, tenant, start, next, n).0[3] == Rows(map[SettingsKey(tenant) := after[SettingsKey(tenant)]])
  {
    var next := Next(tenant, ReadTenant(defaults));
    var after := WithSettings(store, tenant, defaults);
    var seen := PlayReadTenant(h, store, tenant, start, defaults);
    EndsOnce(h, store, tenant, start, next, n, 4);
  }

  /** The first two results are the tenant's row and its users. */
  ghost predicate ShowsTenantAndUsers(store: Store, tenant: Uuid, seen: seq<Outcome>)
    requires |seen| >= 2
  {
    && seen[0].Rows? && seen[1].Rows?
    && (forall k :: k in seen[0].rows <==> k in store && k == Key(Tenants, tenant, tenant))
    && (forall k :: k in seen[1].rows <==> k in store && k.table == Users && k.tenant == tenant)
    && (forall k | k in seen[0].rows :: seen[0].rows[k] == store[k])
    && (forall k | k in seen[1].rows :: seen[1].rows[k] == store[k])
  }

  /** The first two statements only read. */
  lemma PlayTenantAndUsers(h: Hasher, store: Store, tenant: Uuid, start: int, defaults: string)
    returns (seen: seq<Outcome>)
    requires WellTyped(store)
    ensures
      var next := Next(tenant, ReadTenant(defaults));
      && (forall i: nat | i < 2 :: ActionAfter(h, store, tenant, start, next, i).Query?)
      && |seen| == 2 && Play(h, store, tenant, start, next, 2) == (seen, map[])
      && ShowsTenantAndUsers(store, tenant, seen)
  {
    var next := Next(tenant, ReadTenant(defaults));
    OverlayNothing(store, map[]);
    var tenants := Exec(h, store, {}, tenant, start, Select(Tenants, Some(tenant)));
    PlayNext(h, store, tenant, start, next, 0, [], map[], Select(Tenants, Some(tenant)), tenants);
    var users := Exec(h, store, {}, tenant, start, Select(Users, None));
    seen := [] + [tenants.outcome];
    PlayNext(h, store, tenant, start, next, 1, seen, map[], Select(Users, None), users);
    seen := seen + [users.outcome];
    SelectReturns(h, store, {}, tenant, start, Tenants, Some(tenant));
    SelectReturns(h, store, {}, tenant, start, Users, None);
    forall k | k in store ensures k.table == Tenants ==> k.id == k.tenant {
      assert Fits(k, store[k]);
    }
  }

  /** The third stores the defaults if there is nothing to conflict with. */
  lemma PlayDefaults(h: Hasher, store: Store, tenant: Uuid, start: int, defaults: string)
    returns (seen: seq<Outcome>, writes: Writes)
    requires WellTyped(store) && TenantKey(tenant) in store
    ensures
      var next := Next(tenant, ReadTenant(defaults));
      && (forall i: nat | i < 3 :: ActionAfter(h, store, tenant, start, next, i).Query?)
      && |seen| == 3 && ShowsTenantAndUsers(store, tenant, seen)
      && Play(h, store, tenant, start, next, 3) == (seen, writes)
      && Overlay(store, writes) == WithSettings(store, tenant, defaults)
  {
    seen := PlayTenantAndUsers(h, store, tenant, start, defaults);
    var upsert := UpsertSettings(tenant, PlainRow(defaults), false);
    var filled := Exec(h, store, {}, tenant, start, upsert);
    OverlayNothing(store, filled.changes);
    UpsertAlone(h, store, tenant, start, defaults, false);
    PlayNext(h, store, tenant, start, Next(tenant, ReadTenant(defaults)), 2, seen, map[], upsert, filled);
    seen, writes := seen + [filled.outcome], filled.changes;
  }

  lemma PlayReadTenant(h: Hasher, store: Store, tenant: Uuid, start: int, defaults: string) returns (seen: seq<Outcome>)
    requires WellTyped(store) && TenantKey(tenant) in store
    ensures
      var next := Next(tenant, ReadTenant(defaults));
      var after := WithSettings(store, tenant, defaults);
      && EndsAfter(h, store, tenant, start, next, 4) && ActionAfter(h, store, tenant, start, next, 4).Return?
      && |seen| == 4 && seen[3] == Rows(map[SettingsKey(tenant) := after[SettingsKey(tenant)]])
      && ShowsTenantAndUsers(store, tenant, seen)
      && Play(h, store, tenant, start, next, 4).0 == seen
      && Served(h, store, tenant, start, next, 4) == after
  {
    var after := WithSettings(store, tenant, defaults);
    var seen', writes := PlayDefaults(h, store, tenant, start, defaults);
    var shown := Rows(map[SettingsKey(tenant) := after[SettingsKey(tenant)]]);
    SettingsFit(store, tenant, defaults);
    SelectSettings(h, after, tenant, start);
    PlayRead(h, store, tenant, start, Next(tenant, ReadTenant(defaults)), 3, seen', writes,
             Select(TenantSettings, Some(tenant)), shown);
    seen := seen' + [shown];
    StillShown(store, tenant, seen', seen);
    EndsNext(h, store, tenant, start, Next(tenant, ReadTenant(defaults)), 3);
  }

  lemma SettingsFit(store: Store, tenant: Uuid, columns: string)
    requires WellTyped(store)
    ensures WellTyped(WithSettings(store, tenant, columns))
    ensures SettingsKey(tenant) in WithSettings(store, tenant, columns)
  {
  }

  lemma StillShown(store: Store, tenant: Uuid, seen: seq<Outcome>, more: seq<Outcome>)
    requires |seen| >= 2 && ShowsTenantAndUsers(store, tenant, seen) && seen <= more
    ensures ShowsTenantAndUsers(store, tenant, more)
  {
  }

  lemma EndsNext(h: Hasher, store: Store, tenant: Uuid, start: int, next: Callback, n: nat)
    requires forall i: nat | i < n :: ActionAfter(h, store, tenant, start, next, i).Query?
    requires ActionAfter(h, store, tenant, start, next, n).Query?
    requires !ActionAfter(h, store, tenant, start, next, n + 1).Query?
    ensures EndsAfter(h, store, tenant, start, next, n + 1)
  {
  }

  /** One more query of a callback that changes nothing. */
  lemma PlayRead(h: Hasher, store: Store, tenant: Uuid, start: int, next: Callback, n: nat, seen: seq<Outcome>,
                 w: Writes, stmt: Statement, shown: Outcome)
    requires Play(h, store, tenant, start, next, n) == (seen, w) && next(seen) == Query(stmt)
    requires Exec(h, Overlay(store, w), {}, tenant, start, stmt) == Effect(shown, map[]) && !shown.Failed?
    ensures ActionAfter(h, store, tenant, start, next, n).Query?
    ensures Play(h, store, tenant, start, next, n + 1) == (seen + [shown], w)
  {
    PlayNext(h, store, tenant, start, next, n, seen, w, stmt, Effect(shown, map[]));
    assert w + map[] == w;
  }

  lemma UpdateStores(h: Hasher, store: Store, tenant: Uuid, start: int, columns: string, n: nat)
    requires TenantKey(tenant) in store
    requires EndsAfter(h, store, tenant, start, Next(tenant, UpdateSettings(columns)), n)
    ensures ActionAfter(h, store, tenant, start, Next(tenant, UpdateSettings(columns)), n).Return?
    ensures Served(h, store, tenant, start, Next(tenant, UpdateSettings(columns)), n)
      == store[SettingsKey(tenant) := PlainRow(columns)]
  {
    var stmt := UpsertSettings(tenant, PlainRow(columns), true);
    OneStatement(h, store, tenant, start, Next(tenant, UpdateSettings(columns)), stmt, n);
    UpsertAlone(h, store, tenant, start, columns, true);
  }

  /** PATCH /ttl-settings, then GET /tenant: the settings shown are the ones just set. */
  lemma SettingsRoundTrip(h: Hasher, store: Store, tenant: Uuid, start: int, later: int, columns: string,
                          defaults: string, n: nat, m: nat)
    requires WellTyped(store) && TenantKey(tenant) in store
    requires EndsAfter(h, store, tenant, start, Next(tenant, UpdateSettings(columns)), n)
    requires EndsAfter(h, Served(h, store, tenant, start, Next(tenant, UpdateSettings(columns)), n), tenant, later,
                       Next(tenant, ReadTenant(defaults)), m)
    ensures
      var updated := Served(h, store, tenant, start, Next(tenant, UpdateSettings(columns)), n);
      var read := Next(tenant, ReadTenant(defaults));
      && updated == store[SettingsKey(tenant) := PlainRow(columns)]
      && Served(h, updated, tenant, later, read, m) == updated
      && |Play(h, updated, tenant, later, read, m).0| == 4
      && Play(h, updated, tenant, later, read, m).0[3] == Rows(map[SettingsKey(tenant) := PlainRow(columns)])
  {
    UpdateStores(h, store, tenant, start, columns, n);
    var updated := store[SettingsKey(tenant) := PlainRow(columns)];
    assert WellTyped(updated);
    ReadTenantShowsSettings(h, updated, tenant, later, defaults, m);
  }
}
