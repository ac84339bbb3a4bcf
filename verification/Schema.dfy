/**
 The values every table of the database is built from: optional columns, UUIDs, and the
 ten tables a tenant owns rows in.
 */
module Schema {

  datatype Option<+T> = None | Some(value: T)

  /** A UUID is its 128-bit value; Postgres compares UUIDs by it. */
  type Uuid = n: nat | n < 0x1_0000_0000_0000_0000_0000_0000_0000_0000

  datatype Table =
    | OAuthConnections
    | TenantSettings
    | RotationAudit
    | CredentialVault
    | ExecutionLogs
    | WebhookEndpoints
    | AuditLog
    | Workflows
    | Users
    | Tenants

  /** Every table but `tenants` has the primary key (tenant_id, id) or (tenant_id). A row of
      `tenants` or `tenant_settings` carries its tenant's id in both places. */
  datatype Key = Key(table: Table, tenant: Uuid, id: Uuid)

  /** The transaction breaks at one of its first `n` queries; BEGIN and COMMIT are queries. */
  predicate Breaks(breaksAt: Option<nat>, n: nat) {
    breaksAt.Some? && breaksAt.value < n
  }

  function TenantKey(tenant: Uuid): Key {
    Key(Tenants, tenant, tenant)
  }

  /** What ORDER BY created_at DESC may return of rows with these times: every row once, the
      newest first, ties in any order. */
  predicate IsListing(created: map<Key, int>, order: seq<Key>) {
    && (forall k | k in order :: k in created)
    && (forall k | k in created :: k in order)
    && (forall i, j | 0 <= i < j < |order| ::
          && order[i] in created && order[j] in created
          && order[i] != order[j] && created[order[i]] >= created[order[j]])
  }

  /** The listing itself, with each row's columns. */
  function InOrder<T>(shown: map<Key, T>, order: seq<Key>): seq<(Key, T)>
    requires forall k | k in order :: k in shown
  {
    seq(|order|, i requires 0 <= i < |order| => (order[i], shown[order[i]]))
  }
}
