/**
 The credential vault: handlers that each run one transaction over encrypted rows, proved to
 be the operations of a plain map from (tenant, id) to secrets, and what that map keeps over
 any sequence of them.
 */
module Vault {
  import opened Schema
  import opened Cipher

  /** A row of `credential_vault`; `secret` is what is stored of it, or what it stands for. */
  datatype Credential<S> = Credential(service: string, secret: S, createdAt: int, rotatedAt: Option<int>)

  /** A row of `credential_rotation_audit`. */
  datatype Rotation = Rotation(credential: Key, rotatedBy: Option<Uuid>)

  /** A tenant's or a credential's id as a request gives it: missing or empty, a text that is
      not a UUID, or a UUID. */
  datatype Param = Absent | Malformed | Valid(value: Uuid)

  datatype Request =
    | Create(tenant: Param, service: string, secret: string, newId: Uuid)
    | List(tenant: Param, order: seq<Key>)
    | Read(tenant: Param, id: Param)
    | Test(tenant: Param, id: Param)
    | Rotate(tenant: Param, id: Param, secret: string, user: Option<Uuid>)
    | Delete(tenant: Param, id: Param)

  /** The first three are 400, 404 and 500; `Stored` is 201 and the rest are 200. `Ignored` is
      no response: the given order is not one in which the query returns its rows. */
  datatype Response =
    | BadRequest
    | NotFound
    | Failed
    | Stored(key: Key, row: Credential<()>)
    | Listed(lines: seq<(Key, Credential<()>)>)
    | Found(key: Key, credential: Credential<string>)
    | Testable(key: Key, service: string)
    | Rotated(key: Key, row: Credential<()>)
    | Deleted
    | Ignored

  type Rows<S> = map<Key, Credential<S>>

  /** The tenants there are, the credentials, and the rotation audit. */
  datatype State = State(tenants: set<Uuid>, rows: Rows<string>, rotations: seq<Rotation>)

  function CredentialKey(tenant: Uuid, id: Uuid): Key {
    Key(CredentialVault, tenant, id)
  }

  /** The columns that a response shows of a row it does not decrypt. */
  function Shown<S>(c: Credential<S>): Credential<()> {
    Credential(c.service, (), c.createdAt, c.rotatedAt)
  }

  function ShownOf<S>(rows: Rows<S>, tenant: Uuid): Rows<()> {
    map k | k in rows && k.tenant == tenant :: Shown(rows[k])
  }

  function CreatedOf(shown: Rows<()>): map<Key, int> {
    map k | k in shown :: shown[k].createdAt
  }

  // ---------------------------------------------------------------- the plain vault

  predicate IsIncomplete(r: Request) {
    r.tenant.Absent? || (r.Create? && (r.service == "" || r.secret == "")) || (r.Rotate? && r.secret == "")
  }

  predicate IsMalformed(r: Request) {
    r.tenant.Malformed? || (!r.Create? && !r.List? && !r.id.Valid?)
  }

  /** The vault as a plain map of secrets: what each request does to it, and its response. Of
      the encryption only `Readable` is left. Ids and times are inputs. */
  function Apply(c: Crypto, s: State, r: Request, now: int, breaksAt: Option<nat>): (State, Response) {
    if IsIncomplete(r) then (s, BadRequest)
    else if Breaks(breaksAt, 4) || IsMalformed(r) then (s, Failed)
    else
      var tenant := r.tenant.value;
      match r
      case Create(_, service, secret, newId) =>
        var k := CredentialKey(tenant, newId);
        var row := Credential(service, Readable(c, secret), now, None);
        if tenant !in s.tenants || k in s.rows then (s, Failed)
        else (s.(rows := s.rows[k := row]), Stored(k, Shown(row)))
      case List(_, order) =>
        var shown := ShownOf(s.rows, tenant);
        (s, if IsListing(CreatedOf(shown), order) then Listed(InOrder(shown, order)) else Ignored)
      case Read(_, id) =>
        var k := CredentialKey(tenant, id.value);
        (s, if k in s.rows then Found(k, s.rows[k]) else NotFound)
      case Test(_, id) =>
        var k := CredentialKey(tenant, id.value);
        (s, if k in s.rows then Testable(k, s.rows[k].service) else NotFound)
      case Rotate(_, id, secret, user) =>
        var k := CredentialKey(tenant, id.value);
        if k !in s.rows then (s, NotFound)
        else if Breaks(breaksAt, 5) then (s, Failed)
        else
          var row := s.rows[k].(secret := Readable(c, secret), rotatedAt := Some(now));
          (s.(rows := s.rows[k := row], rotations := s.rotations + [Rotation(k, user)]), Rotated(k, Shown(row)))
      case Delete(_, id) =>
        (s.(rows := s.rows - {CredentialKey(tenant, id.value)}), Deleted)
  }

  // ---------------------------------------------------------------- the encrypted vault

  /** Every stored secret can be read. */
  ghost predicate AllReadable(c: Crypto, rows: Rows<Ciphertext>) {
    forall k | k in rows :: DecryptCredential(c, rows[k].secret).Some?
  }

  ghost function Plain(c: Crypto, row: Credential<Ciphertext>): Credential<string>
    requires DecryptCredential(c, row.secret).Some?
  {
    Credential(row.service, DecryptCredential(c, row.secret).value, row.createdAt, row.rotatedAt)
  }

  ghost function PlainRows(c: Crypto, rows: Rows<Ciphertext>): Rows<string>
    requires AllReadable(c, rows)
  {
    map k | k in rows :: Plain(c, rows[k])
  }

  lemma PlainRowsUpdate(c: Crypto, rows: Rows<Ciphertext>, k: Key, row: Credential<Ciphertext>)
    requires AllReadable(c, rows) && DecryptCredential(c, row.secret).Some?
    ensures AllReadable(c, rows[k := row]) && PlainRows(c, rows[k := row]) == PlainRows(c, rows)[k := Plain(c, row)]
  {
  }

  lemma PlainRowsRemove(c: Crypto, rows: Rows<Ciphertext>, k: Key)
    requires AllReadable(c, rows)
    ensures AllReadable(c, rows - {k}) && PlainRows(c, rows - {k}) == PlainRows(c, rows) - {k}
  {
  }

  /** What is shown does not depend on what a secret stands for. */
  lemma ShownOfPlain(c: Crypto, rows: Rows<Ciphertext>, tenant: Uuid)
    requires AllReadable(c, rows)
    ensures ShownOf(PlainRows(c, rows), tenant) == ShownOf(rows, tenant)
  {
    forall k | k in rows ensures Shown(PlainRows(c, rows)[k]) == Shown(rows[k]) {}
  }

  class Vault {
    var tenants: set<Uuid>
    var rows: Rows<Ciphertext>
    var rotations: seq<Rotation>

    ghost predicate Valid(c: Crypto)
      reads this
    {
      Sound(c) && AllReadable(c, rows)
    }

    /** The plain vault that this one stands for. */
    ghost function Abstract(c: Crypto): State
      requires Valid(c)
      reads this
    {
      State(tenants, PlainRows(c, rows), rotations)
    }

    constructor (known: set<Uuid>)
      ensures tenants == known && rows == map[] && rotations == []
    {
      tenants, rows, rotations := known, map[], [];
    }

    /** POST / */
    method Create(c: Crypto, r: Request, iv: Bytes, now: int, breaksAt: Option<nat>) returns (response: Response)
      requires Valid(c) && r.Create? && iv != []
      modifies this
      ensures Valid(c) && (Abstract(c), response) == Apply(c, old(Abstract(c)), r, now, breaksAt)
    {
      if r.service == "" || r.secret == "" || r.tenant.Absent? {
        return BadRequest;
      }
      var stored := Encrypt(c, r.secret, iv);
      DecryptEncrypted(c, r.secret, iv);
      if Breaks(breaksAt, 3) || r.tenant.Malformed? {
        return Failed;
      }
      var k := CredentialKey(r.tenant.value, r.newId);
      if r.tenant.value !in tenants || k in rows {
        return Failed;
      }
      var row := Credential(r.service, stored, now, None);
      PlainRowsUpdate(c, rows, k, row);
      var work := rows[k := row];
      if Breaks(breaksAt, 4) {
        return Failed;
      }
      rows := work;
      return Stored(k, Shown(row));
    }

    /** GET /: all of the tenant's credentials, newest first, in the order that the query
        returned. */
    method List(c: Crypto, r: Request, now: int, breaksAt: Option<nat>) returns (response: Response)
      requires Valid(c) && r.List?
      requires r.tenant.Valid? ==> IsListing(CreatedOf(ShownOf(rows, r.tenant.value)), r.order)
      ensures (Abstract(c), response) == Apply(c, Abstract(c), r, now, breaksAt)
    {
      if r.tenant.Absent? {
        return BadRequest;
      }
      if Breaks(breaksAt, 4) || r.tenant.Malformed? {
        return Failed;
      }
      ShownOfPlain(c, rows, r.tenant.value);
      return Listed(InOrder(ShownOf(rows, r.tenant.value), r.order));
    }

    /** GET /:id */
    method Read(c: Crypto, r: Request, now: int, breaksAt: Option<nat>) returns (response: Response)
      requires Valid(c) && r.Read?
      ensures (Abstract(c), response) == Apply(c, Abstract(c), r, now, breaksAt)
    {
      if r.tenant.Absent? {
        return BadRequest;
      }
      if Breaks(breaksAt, 3) || r.tenant.Malformed? || !r.id.Valid? {
        return Failed;
      }
      var k := CredentialKey(r.tenant.value, r.id.value);
      if k !in rows {
        if Breaks(breaksAt, 4) {
          return Failed;
        }
        return NotFound;
      }
      var secret := DecryptCredential(c, rows[k].secret);
      if secret.None? || Breaks(breaksAt, 4) {
        return Failed;
      }
      return Found(k, Credential(rows[k].service, secret.value, rows[k].createdAt, rows[k].rotatedAt));
    }

    /** POST /:id/test */
    method Test(c: Crypto, r: Request, now: int, breaksAt: Option<nat>) returns (response: Response)
      requires Valid(c) && r.Test?
      ensures (Abstract(c), response) == Apply(c, Abstract(c), r, now, breaksAt)
    {
      if r.tenant.Absent? {
        return BadRequest;
      }
      if Breaks(breaksAt, 3) || r.tenant.Malformed? || !r.id.Valid? {
        return Failed;
      }
      var k := CredentialKey(r.tenant.value, r.id.value);
      if k !in rows {
        if Breaks(breaksAt, 4) {
          return Failed;
        }
        return NotFound;
      }
      if DecryptCredential(c, rows[k].secret).None? || Breaks(breaksAt, 4) {
        return Failed;
      }
      return Testable(k, rows[k].service);
    }

    /** POST /:id/rotate: the new secret and the audit row are committed together. */
    method Rotate(c: Crypto, r: Request, iv: Bytes, now: int, breaksAt: Option<nat>) returns (response: Response)
      requires Valid(c) && r.Rotate? && iv != []
      modifies this
      ensures Valid(c) && (Abstract(c), response) == Apply(c, old(Abstract(c)), r, now, breaksAt)
    {
      if r.tenant.Absent? || r.secret == "" {
        return BadRequest;
      }
      var stored := Encrypt(c, r.secret, iv);
      DecryptEncrypted(c, r.secret, iv);
      if Breaks(breaksAt, 3) || r.tenant.Malformed? || !r.id.Valid? {
        return Failed;
      }
      var k := CredentialKey(r.tenant.value, r.id.value);
      if k !in rows {
        if Breaks(breaksAt, 4) {
          return Failed;
        }
        return NotFound;
      }
      var row := rows[k].(secret := stored, rotatedAt := Some(now));
      PlainRowsUpdate(c, rows, k, row);
      var work := rows[k := row];
      if Breaks(breaksAt, 4) {
        return Failed;
      }
      var audit := rotations + [Rotation(k, r.user)];
      if Breaks(breaksAt, 5) {
        return Failed;
      }
      rows, rotations := work, audit;
      return Rotated(k, Shown(row));
    }

    /** DELETE /:id, which does not tell whether there was anything to delete. */
    method Delete(c: Crypto, r: Request, now: int, breaksAt: Option<nat>) returns (response: Response)
      requires Valid(c) && r.Delete?
      modifies this
      ensures Valid(c) && (Abstract(c), response) == Apply(c, old(Abstract(c)), r, now, breaksAt)
    {
      if r.tenant.Absent? {
        return BadRequest;
      }
      if Breaks(breaksAt, 3) || r.tenant.Malformed? || !r.id.Valid? {
        return Failed;
      }
      var k := CredentialKey(r.tenant.value, r.id.value);
      PlainRowsRemove(c, rows, k);
      var work := rows - {k};
      if Breaks(breaksAt, 4) {
        return Failed;
      }
      rows := work;
      return Deleted;
    }
  }

  // ---------------------------------------------------------------- sequences of requests

  datatype Call = Call(request: Request, now: int, breaksAt: Option<nat>)

  function Run(c: Crypto, tenants: set<Uuid>, calls: seq<Call>): State {
    if calls == [] then State(tenants, map[], [])
    else
      var call := calls[|calls| - 1];
      Apply(c, Run(c, tenants, calls[..|calls| - 1]), call.request, call.now, call.breaksAt).0
  }

  /** The response to the i-th call. */
  function ResponseTo(c: Crypto, tenants: set<Uuid>, calls: seq<Call>, i: nat): Response
    requires i < |calls|
  {
    Apply(c, Run(c, tenants, calls[..i]), calls[i].request, calls[i].now, calls[i].breaksAt).1
  }

  /** The credential that a call is about. */
  function KeyOf(r: Request): Option<Key> {
    if !r.tenant.Valid? then None
    else if r.Create? then Some(CredentialKey(r.tenant.value, r.newId))
    else if r.List? || !r.id.Valid? then None
    else Some(CredentialKey(r.tenant.value, r.id.value))
  }

  /** What the calls made of one credential, looking back for the last one that was told it
      had created, rotated or deleted it. */
  function LastWritten(c: Crypto, tenants: set<Uuid>, calls: seq<Call>, k: Key): Option<Credential<string>> {
    if calls == [] then None
    else
      var n := |calls| - 1;
      var r := calls[n].request;
      var before := LastWritten(c, tenants, calls[..n], k);
      var response := ResponseTo(c, tenants, calls, n);
      if KeyOf(r) != Some(k) then before
      else if response.Stored? && r.Create? then Some(Credential(r.service, Readable(c, r.secret), calls[n].now, None))
      else if response.Rotated? && r.Rotate? && before.Some?
      then Some(before.value.(secret := Readable(c, r.secret), rotatedAt := Some(calls[n].now)))
      else if response.Deleted? then None
      else before
  }

  /** After any calls the vault holds, of every credential, what was last successfully written:
      failed calls, reads, and calls for other credentials or tenants change nothing. */
  lemma {:induction false} VaultHoldsLastWritten(c: Crypto, tenants: set<Uuid>, calls: seq<Call>, k: Key)
    ensures var s := Run(c, tenants, calls);
      LastWritten(c, tenants, calls, k) == if k in s.rows then Some(s.rows[k]) else None
  {
    if calls == [] {
    } else {
      VaultHoldsLastWritten(c, tenants, calls[..|calls| - 1], k);
    }
  }

  /** So a read returns what was last written, or that there is nothing. */
  lemma ReadReturnsLastWritten(c: Crypto, tenants: set<Uuid>, calls: seq<Call>, tenant: Uuid, id: Uuid, now: int)
    ensures
      var k := CredentialKey(tenant, id);
      Apply(c, Run(c, tenants, calls), Read(Valid(tenant), Valid(id)), now, None).1 ==
        match LastWritten(c, tenants, calls, k)
        case Some(credential) => Found(k, credential)
        case None => NotFound
  {
    VaultHoldsLastWritten(c, tenants, calls, CredentialKey(tenant, id));
  }

  // ---------------------------------------------------------------- the answers

  /** Which requests are refused: for what they leave out, and for what fails in the database.
      A transaction has four queries, and a rotation that finds its credential has five. A
      request that is refused, or finds nothing, changes nothing. */
  lemma WhenRefused(c: Crypto, s: State, r: Request, now: int, breaksAt: Option<nat>)
    ensures
      var (s', response) := Apply(c, s, r, now, breaksAt);
      var incomplete :=
        r.tenant.Absent? || (r.Create? && (r.service == "" || r.secret == "")) || (r.Rotate? && r.secret == "");
      var unreadable := !r.tenant.Valid? || (!r.Create? && !r.List? && !r.id.Valid?);
      var conflicting := r.Create? && r.tenant.Valid?
        && (r.tenant.value !in s.tenants || Key(CredentialVault, r.tenant.value, r.newId) in s.rows);
      var found := r.Rotate? && r.tenant.Valid? && r.id.Valid?
        && Key(CredentialVault, r.tenant.value, r.id.value) in s.rows;
      var broken := breaksAt.Some? && (breaksAt.value <= 3 || (found && breaksAt.value == 4));
      && (response.BadRequest? <==> incomplete)
      && (response.Failed? <==> !incomplete && (broken || unreadable || conflicting))
      && (response.BadRequest? || response.Failed? || response.NotFound? ==> s' == s)
  {
  }

  lemma {:induction false} TenantsStay(c: Crypto, tenants: set<Uuid>, calls: seq<Call>)
    ensures Run(c, tenants, calls).tenants == tenants
  {
    if calls == [] {
    } else {
      TenantsStay(c, tenants, calls[..|calls| - 1]);
    }
  }

  /** After any calls, and if no query breaks: a create stores its credential exactly if the
      tenant is known and the id is free, ... */
  lemma CreateAnswers(c: Crypto, tenants: set<Uuid>, calls: seq<Call>, tenant: Uuid, service: string, secret: string,
                      id: Uuid, now: int)
    requires service != "" && secret != ""
    ensures
      var (s, k) := (Run(c, tenants, calls), Key(CredentialVault, tenant, id));
      Apply(c, s, Create(Valid(tenant), service, secret, id), now, None) ==
        if tenant in tenants && LastWritten(c, tenants, calls, k).None? then
          (State(tenants, s.rows[k := Credential(service, Readable(c, secret), now, None)], s.rotations),
           Stored(k, Credential(service, (), now, None)))
        else (s, Failed)
  {
    TenantsStay(c, tenants, calls);
    VaultHoldsLastWritten(c, tenants, calls, Key(CredentialVault, tenant, id));
  }

  /** ... a rotation replaces the secret and leaves its audit row exactly if the credential is
      there, however often it was rotated before, ... */
  lemma RotateAnswers(c: Crypto, tenants: set<Uuid>, calls: seq<Call>, tenant: Uuid, id: Uuid, secret: string,
                      user: Option<Uuid>, now: int)
    requires secret != ""
    ensures
      var (s, k) := (Run(c, tenants, calls), Key(CredentialVault, tenant, id));
      Apply(c, s, Rotate(Valid(tenant), Valid(id), secret, user), now, None) ==
        match LastWritten(c, tenants, calls, k)
        case None => (s, NotFound)
        case Some(was) =>
          (State(tenants,
                 s.rows[k := Credential(was.service, Readable(c, secret), was.createdAt, Some(now))],
                 s.rotations + [Rotation(k, user)]),
           Rotated(k, Credential(was.service, (), was.createdAt, Some(now))))
  {
    TenantsStay(c, tenants, calls);
    VaultHoldsLastWritten(c, tenants, calls, Key(CredentialVault, tenant, id));
  }

  /** ... a test finds it exactly if it is there, and changes nothing, ... */
  lemma TestAnswers(c: Crypto, tenants: set<Uuid>, calls: seq<Call>, tenant: Uuid, id: Uuid, now: int)
    ensures
      var (s, k) := (Run(c, tenants, calls), Key(CredentialVault, tenant, id));
      Apply(c, s, Test(Valid(tenant), Valid(id)), now, None) ==
        (s, match LastWritten(c, tenants, calls, k) case None => NotFound case Some(was) => Testable(k, was.service))
  {
    VaultHoldsLastWritten(c, tenants, calls, Key(CredentialVault, tenant, id));
  }

  /** ... a delete leaves everything but it, ... */
  lemma DeleteAnswers(c: Crypto, tenants: set<Uuid>, calls: seq<Call>, tenant: Uuid, id: Uuid, now: int)
    ensures
      var (s, k) := (Run(c, tenants, calls), Key(CredentialVault, tenant, id));
      var (s', response) := Apply(c, s, Delete(Valid(tenant), Valid(id)), now, None);
      && response == Deleted && s'.tenants == tenants && s'.rotations == s.rotations
      && forall x :: (x in s'.rows <==> x in s.rows && x != k) && (x in s'.rows ==> s'.rows[x] == s.rows[x])
  {
    TenantsStay(c, tenants, calls);
  }

  /** ... and a listing in some order is given exactly if the order has each of the tenant's
      credentials once and no other, the newest first. It shows all but their secrets. */
  lemma ListAnswers(c: Crypto, tenants: set<Uuid>, calls: seq<Call>, tenant: Uuid, order: seq<Key>, now: int)
    ensures
      var s := Run(c, tenants, calls);
      var (s', response) := Apply(c, s, List(Valid(tenant), order), now, None);
      && s' == s
      && (response.Listed? <==> NewestFirst(s.rows, tenant, order))
      && (response.Listed? ==>
            && |response.lines| == |order|
            && forall i | 0 <= i < |order| :: order[i] in s.rows && response.lines[i] == LineOf(s.rows, order[i]))
    ensures
      var rows := Run(c, tenants, calls).rows;
      forall k :: LastWritten(c, tenants, calls, k) == if k in rows then Some(rows[k]) else None
  {
    forall k { VaultHoldsLastWritten(c, tenants, calls, k); }
    var s := Run(c, tenants, calls);
    assert forall i | 0 <= i < |order| :: order[i] in order;
  }

  ghost predicate NewestFirst(rows: Rows<string>, tenant: Uuid, order: seq<Key>) {
    && (forall k :: k in order <==> k in rows && k.tenant == tenant)
    && forall i, j | 0 <= i < j < |order| ::
         && order[i] != order[j] && order[i] in rows && order[j] in rows
         && rows[order[j]].createdAt <= rows[order[i]].createdAt
  }

  /** The columns that the listing has of a credential. */
  function LineOf(rows: Rows<string>, k: Key): (Key, Credential<()>)
    requires k in rows
  {
    (k, Credential(rows[k].service, (), rows[k].createdAt, rows[k].rotatedAt))
  }

  // ---------------------------------------------------------------- the rotation audit

  function AuditsOf(rotations: seq<Rotation>, k: Key): nat {
    if rotations == [] then 0
    else
      var n := |rotations| - 1;
      AuditsOf(rotations[..n], k) + (if rotations[n].credential == k then 1 else 0)
  }

  /** How often the credential was successfully rotated. */
  function RotationsOf(c: Crypto, tenants: set<Uuid>, calls: seq<Call>, k: Key): nat {
    if calls == [] then 0
    else
      var n := |calls| - 1;
      var response := ResponseTo(c, tenants, calls, n);
      RotationsOf(c, tenants, calls[..n], k) + (if response.Rotated? && response.key == k then 1 else 0)
  }

  /** No two creations use the same id, as uuid_generate_v4 promises. */
  ghost predicate FreshIds(calls: seq<Call>) {
    forall i, j | 0 <= i < j < |calls| && calls[i].request.Create? && calls[j].request.Create? ::
      calls[i].request.newId != calls[j].request.newId
  }

  ghost predicate Unused(calls: seq<Call>, id: Uuid) {
    forall i | 0 <= i < |calls| && calls[i].request.Create? :: calls[i].request.newId != id
  }

  lemma AuditsSnoc(rotations: seq<Rotation>, r: Rotation, k: Key)
    ensures AuditsOf(rotations + [r], k) == AuditsOf(rotations, k) + (if r.credential == k then 1 else 0)
  {
  }

  /** What one request does to the audit rows and to `rotated_at` of a credential. */
  ghost predicate RotationStep(s: State, r: Request, s': State, response: Response, k: Key) {
    var rotated := response.Rotated? && response.key == k;
    && AuditsOf(s'.rotations, k) == AuditsOf(s.rotations, k) + (if rotated then 1 else 0)
    && (rotated ==> k in s.rows)
    && (k in s'.rows && k !in s.rows ==> r.Create? && r.newId == k.id && s'.rows[k].rotatedAt.None? && !rotated)
    && (k in s'.rows && k in s.rows ==> (s'.rows[k].rotatedAt.Some? <==> s.rows[k].rotatedAt.Some? || rotated))
  }

  lemma CreateStep(c: Crypto, s: State, r: Request, now: int, breaksAt: Option<nat>, k: Key)
    requires r.Create?
    ensures var (s', response) := Apply(c, s, r, now, breaksAt); RotationStep(s, r, s', response, k)
  {
  }

  lemma RotateStep(c: Crypto, s: State, r: Request, now: int, breaksAt: Option<nat>, k: Key)
    requires r.Rotate?
    ensures var (s', response) := Apply(c, s, r, now, breaksAt); RotationStep(s, r, s', response, k)
  {
    var (s', response) := Apply(c, s, r, now, breaksAt);
    if response.Rotated? { AuditsSnoc(s.rotations, Rotation(response.key, r.user), k); }
  }

  lemma OtherStep(c: Crypto, s: State, r: Request, now: int, breaksAt: Option<nat>, k: Key)
    requires !r.Create? && !r.Rotate?
    ensures var (s', response) := Apply(c, s, r, now, breaksAt); RotationStep(s, r, s', response, k)
  {
  }

  lemma LastStep(c: Crypto, tenants: set<Uuid>, calls: seq<Call>, k: Key)
    requires calls != []
    ensures
      var n := |calls| - 1;
      RotationStep(Run(c, tenants, calls[..n]), calls[n].request, Run(c, tenants, calls),
                   ResponseTo(c, tenants, calls, n), k)
  {
    var call := calls[|calls| - 1];
    var s := Run(c, tenants, calls[..|calls| - 1]);
    if call.request.Create? {
      CreateStep(c, s, call.request, call.now, call.breaksAt, k);
    } else if call.request.Rotate? {
      RotateStep(c, s, call.request, call.now, call.breaksAt, k);
    } else {
      OtherStep(c, s, call.request, call.now, call.breaksAt, k);
    }
  }

  /** There is one audit row for every successful rotation, and no other. */
  lemma {:induction false} EveryRotationAudited(c: Crypto, tenants: set<Uuid>, calls: seq<Call>, k: Key)
    ensures AuditsOf(Run(c, tenants, calls).rotations, k) == RotationsOf(c, tenants, calls, k)
  {
    if calls == [] {
    } else {
      EveryRotationAudited(c, tenants, calls[..|calls| - 1], k);
      LastStep(c, tenants, calls, k);
    }
  }

  /** A credential under an id that was never used is not there and was never rotated. */
  lemma {:induction false} UnusedIsAbsent(c: Crypto, tenants: set<Uuid>, calls: seq<Call>, k: Key)
    requires Unused(calls, k.id)
    ensures k !in Run(c, tenants, calls).rows && AuditsOf(Run(c, tenants, calls).rotations, k) == 0
  {
    if calls == [] {
    } else {
      var n := |calls| - 1;
      UnusedIsAbsent(c, tenants, calls[..n], k);
      assert calls[n] in calls;
      LastStep(c, tenants, calls, k);
    }
  }

  lemma FreshPrefix(calls: seq<Call>)
    requires FreshIds(calls) && calls != []
    ensures var n := |calls| - 1;
      FreshIds(calls[..n]) && (calls[n].request.Create? ==> Unused(calls[..n], calls[n].request.newId))
  {
  }

  /** A live credential has audit rows exactly if its rotated_at is set. */
  lemma {:induction false} RotatedIffAudited(c: Crypto, tenants: set<Uuid>, calls: seq<Call>, k: Key)
    requires FreshIds(calls) && k in Run(c, tenants, calls).rows
    ensures Run(c, tenants, calls).rows[k].rotatedAt.Some? <==> AuditsOf(Run(c, tenants, calls).rotations, k) > 0
  {
    if calls != [] {
      var n := |calls| - 1;
      FreshPrefix(calls);
      LastStep(c, tenants, calls, k);
      if k in Run(c, tenants, calls[..n]).rows {
        RotatedIffAudited(c, tenants, calls[..n], k);
      } else {
        UnusedIsAbsent(c, tenants, calls[..n], k);
      }
    }
  }
}
