/**
 OAuth connections: connect, list and refresh over encrypted token columns, each with its
 audit row in the same transaction, proved to be the operations of a plain record of tokens.
 */
module OAuth {
  import opened Schema
  import opened Cipher

  /** A row of `oauth_connections`. Times are in seconds. */
  datatype Row = Row(
    provider: string,
    account: Option<string>,
    accessEncrypted: string,
    refreshEncrypted: Option<string>,
    tokenIv: string,
    refreshIv: Option<string>,
    expiresAt: Option<int>,
    scopes: seq<string>,
    createdBy: Uuid,
    createdAt: int,
    updatedAt: int)

  /** What a row stands for. */
  datatype Connection = Connection(
    provider: string,
    account: Option<string>,
    access: string,
    refresh: Option<string>,
    expiresAt: Option<int>,
    scopes: seq<string>,
    createdBy: Uuid,
    createdAt: int,
    updatedAt: int)

  /** The columns that responses return. */
  datatype Shown = Shown(provider: string, account: Option<string>, expiresAt: Option<int>, scopes: seq<string>,
                         createdAt: int, updatedAt: int)

  /** The audit rows of connections. */
  datatype Audit = Audit(action: string, actor: Uuid, connection: Key)

  /** An absent refresh token, account, lifetime or scope list is empty or None. `clock` is
      Date.now() and the ids are the database's. */
  datatype Request =
    | Connect(tenant: Uuid, user: Uuid, provider: string, newId: Uuid, account: Option<string>,
              accessToken: string, refreshToken: string, expiresIn: Option<int>, scopes: seq<string>)
    | List(tenant: Uuid, provider: string, order: seq<Key>)
    | Refresh(tenant: Uuid, user: Uuid, id: Option<Uuid>, clock: nat)
    | Erase(tenant: Uuid)

  /** 400, 500, 201, 200 and 200. `Erased` is the erasure function's; `Ignored` is no response:
      the given order is not one in which the query returns its rows. */
  datatype Response =
    | BadRequest
    | Failed
    | Connected(key: Key, shown: Shown)
    | Listed(lines: seq<(Key, Shown)>)
    | Refreshed(key: Key, shown: Shown)
    | Erased
    | Ignored

  datatype State = State(tenants: set<Uuid>, rows: map<Key, Connection>, audits: seq<Audit>)

  function ConnectionKey(tenant: Uuid, id: Uuid): Key {
    Key(OAuthConnections, tenant, id)
  }

  /** What ::int accepts. */
  predicate IsInt4(n: Option<int>) {
    n.Some? ==> -0x8000_0000 <= n.value < 0x8000_0000
  }

  function Expiry(now: int, expiresIn: Option<int>): Option<int> {
    if expiresIn.Some? then Some(now + expiresIn.value) else None
  }

  function Decimal(n: nat): string {
    if n < 10 then ["0123456789"[n]] else Decimal(n / 10) + ["0123456789"[n % 10]]
  }

  /** simulateOAuthRefresh: the access token, the refresh token and the lifetime. */
  function SimulateRefresh(provider: string, clock: nat): (string, string, int) {
    (provider + "_access_" + Decimal(clock), provider + "_refresh_" + Decimal(clock), 3600)
  }

  // ---------------------------------------------------------------- plain connections

  function ShowConnection(c: Connection): Shown {
    Shown(c.provider, c.account, c.expiresAt, c.scopes, c.createdAt, c.updatedAt)
  }

  function ShownConnections(rows: map<Key, Connection>, tenant: Uuid, provider: string): map<Key, Shown> {
    map k | k in rows && k.tenant == tenant && rows[k].provider == provider :: ShowConnection(rows[k])
  }

  function CreatedOf(shown: map<Key, Shown>): map<Key, int> {
    map k | k in shown :: shown[k].createdAt
  }

  function Without(audits: seq<Audit>, tenant: Uuid): seq<Audit> {
    if audits == [] then []
    else
      var n := |audits| - 1;
      Without(audits[..n], tenant) + (if audits[n].connection.tenant == tenant then [] else [audits[n]])
  }

  /** The connection with the tokens of a refresh. */
  function Renewed(c: Crypto, connection: Connection, clock: nat, now: int): Connection {
    var tokens := SimulateRefresh(connection.provider, clock);
    connection.(access := Readable(c, tokens.0), refresh := Some(Readable(c, tokens.1)),
                expiresAt := Some(now + tokens.2), updatedAt := now)
  }

  function ApplyRefresh(c: Crypto, s: State, tenant: Uuid, user: Uuid, id: Option<Uuid>, clock: nat, now: int,
                        breaksAt: Option<nat>): (State, Response) {
    if Breaks(breaksAt, 6) || id.None? then (s, Failed)
    else
      var k := ConnectionKey(tenant, id.value);
      if k !in s.rows || s.rows[k].refresh.None? then (s, Failed)
      else
        var connection := Renewed(c, s.rows[k], clock, now);
        (State(s.tenants, s.rows[k := connection], s.audits + [Audit("oauth.token_refreshed", user, k)]),
         Refreshed(k, ShowConnection(connection)))
  }

  /** The connections as plain records: what each request does, and its response. Of the
      encryption only `Readable` is left. */
  function Apply(c: Crypto, s: State, r: Request, now: int, breaksAt: Option<nat>): (State, Response) {
    match r
    case Connect(tenant, user, provider, newId, account, accessToken, refreshToken, expiresIn, scopes) =>
      var k := ConnectionKey(tenant, newId);
      if accessToken == "" then (s, BadRequest)
      else if Breaks(breaksAt, 5) || tenant !in s.tenants || k in s.rows || !IsInt4(expiresIn) then (s, Failed)
      else
        var refresh := if refreshToken == "" then None else Some(Readable(c, refreshToken));
        var connection := Connection(provider, account, Readable(c, accessToken), refresh, Expiry(now, expiresIn),
                                     scopes, user, now, now);
        (State(s.tenants, s.rows[k := connection], s.audits + [Audit("oauth.connected", user, k)]),
         Connected(k, ShowConnection(connection)))
    case List(tenant, provider, order) =>
      if Breaks(breaksAt, 4) then (s, Failed)
      else
        var shown := ShownConnections(s.rows, tenant, provider);
        (s, if IsListing(CreatedOf(shown), order) then Listed(InOrder(shown, order)) else Ignored)
    case Refresh(tenant, user, id, clock) => ApplyRefresh(c, s, tenant, user, id, clock, now, breaksAt)
    case Erase(tenant) =>
      var rows := map k | k in s.rows && k.tenant != tenant :: s.rows[k];
      (State(s.tenants - {tenant}, rows, Without(s.audits, tenant)), Erased)
  }

  // ---------------------------------------------------------------- encrypted connections

  function ShowRow(row: Row): Shown {
    Shown(row.provider, row.account, row.expiresAt, row.scopes, row.createdAt, row.updatedAt)
  }

  /** The access token decrypts under its nonce; the refresh token's ciphertext and nonce are
      both null, or both there, not empty, and decrypt. */
  ghost predicate RowDecrypts(c: Crypto, row: Row) {
    && DecryptToken(c, Ciphertext(row.accessEncrypted, row.tokenIv)).Some?
    && (row.refreshEncrypted.Some? <==> row.refreshIv.Some?)
    && (row.refreshEncrypted.Some? ==>
          && row.refreshEncrypted.value != "" && row.refreshIv.value != ""
          && DecryptToken(c, Ciphertext(row.refreshEncrypted.value, row.refreshIv.value)).Some?)
  }

  ghost function Plain(c: Crypto, row: Row): Connection
    requires RowDecrypts(c, row)
  {
    Connection(row.provider, row.account,
               DecryptToken(c, Ciphertext(row.accessEncrypted, row.tokenIv)).value,
               if row.refreshEncrypted.None? then None
               else DecryptToken(c, Ciphertext(row.refreshEncrypted.value, row.refreshIv.value)),
               row.expiresAt, row.scopes, row.createdBy, row.createdAt, row.updatedAt)
  }

  ghost predicate RowsDecrypt(c: Crypto, rows: map<Key, Row>) {
    forall k | k in rows :: RowDecrypts(c, rows[k])
  }

  ghost function PlainRows(c: Crypto, rows: map<Key, Row>): map<Key, Connection>
    requires RowsDecrypt(c, rows)
  {
    map k | k in rows :: Plain(c, rows[k])
  }

  /** The columns hold these tokens, sealed under these nonces. */
  ghost predicate HoldsTokens(c: Crypto, row: Row, access: string, refresh: string, accessIv: Bytes, refreshIv: Bytes) {
    && Ciphertext(row.accessEncrypted, row.tokenIv) == Encrypt(c, access, accessIv)
    && (row.refreshEncrypted.Some? <==> row.refreshIv.Some?)
    && (row.refreshEncrypted.Some? ==>
          Ciphertext(row.refreshEncrypted.value, row.refreshIv.value) == Encrypt(c, refresh, refreshIv))
  }

  /** Such a row stands for the tokens. */
  lemma PlainTokens(c: Crypto, row: Row, access: string, refresh: string, accessIv: Bytes, refreshIv: Bytes)
    requires Sound(c) && accessIv != [] && refreshIv != []
    requires HoldsTokens(c, row, access, refresh, accessIv, refreshIv)
    ensures RowDecrypts(c, row)
    ensures Plain(c, row).access == Readable(c, access)
    ensures Plain(c, row).refresh == if row.refreshEncrypted.Some? then Some(Readable(c, refresh)) else None
  {
    DecryptEncrypted(c, access, accessIv);
    DecryptEncrypted(c, refresh, refreshIv);
  }

  lemma PlainRenewed(c: Crypto, existing: Row, row: Row, clock: nat, now: int, accessIv: Bytes, refreshIv: Bytes)
    requires Sound(c) && accessIv != [] && refreshIv != [] && RowDecrypts(c, existing)
    requires var tokens := SimulateRefresh(existing.provider, clock);
      && HoldsTokens(c, row, tokens.0, tokens.1, accessIv, refreshIv) && row.refreshEncrypted.Some?
      && row.expiresAt == Some(now + tokens.2) && row.updatedAt == now
      && row == existing.(accessEncrypted := row.accessEncrypted, refreshEncrypted := row.refreshEncrypted,
                          tokenIv := row.tokenIv, refreshIv := row.refreshIv,
                          expiresAt := row.expiresAt, updatedAt := row.updatedAt)
    ensures RowDecrypts(c, row) && Plain(c, row) == Renewed(c, Plain(c, existing), clock, now)
    ensures ShowRow(row) == ShowConnection(Plain(c, row))
  {
    var tokens := SimulateRefresh(existing.provider, clock);
    PlainTokens(c, row, tokens.0, tokens.1, accessIv, refreshIv);
  }

  lemma PlainRowsUpdate(c: Crypto, rows: map<Key, Row>, k: Key, row: Row)
    requires RowsDecrypt(c, rows) && RowDecrypts(c, row)
    ensures RowsDecrypt(c, rows[k := row]) && PlainRows(c, rows[k := row]) == PlainRows(c, rows)[k := Plain(c, row)]
  {
  }

  lemma PlainRowsKeep(c: Crypto, rows: map<Key, Row>, kept: map<Key, Row>, tenant: Uuid)
    requires RowsDecrypt(c, rows) && kept == map k | k in rows && k.tenant != tenant :: rows[k]
    ensures RowsDecrypt(c, kept)
    ensures PlainRows(c, kept) == map k | k in PlainRows(c, rows) && k.tenant != tenant :: PlainRows(c, rows)[k]
  {
  }

  function ShownOf(rows: map<Key, Row>, tenant: Uuid, provider: string): map<Key, Shown> {
    map k | k in rows && k.tenant == tenant && rows[k].provider == provider :: ShowRow(rows[k])
  }

  lemma ShownOfPlain(c: Crypto, rows: map<Key, Row>, tenant: Uuid, provider: string)
    requires RowsDecrypt(c, rows)
    ensures ShownConnections(PlainRows(c, rows), tenant, provider) == ShownOf(rows, tenant, provider)
  {
    forall k | k in rows ensures ShowConnection(PlainRows(c, rows)[k]) == ShowRow(rows[k]) {}
  }

  class Connections {
    var tenants: set<Uuid>
    var rows: map<Key, Row>
    var audits: seq<Audit>

    ghost predicate Valid(c: Crypto)
      reads this
    {
      Sound(c) && RowsDecrypt(c, rows)
    }

    ghost function Abstract(c: Crypto): State
      requires Valid(c)
      reads this
    {
      State(tenants, PlainRows(c, rows), audits)
    }

    constructor (known: set<Uuid>)
      ensures tenants == known && rows == map[] && audits == []
    {
      tenants, rows, audits := known, map[], [];
    }

    /** POST /:provider/connect: the connection and its audit row are committed together. */
    method Connect(c: Crypto, r: Request, accessIv: Bytes, refreshIv: Bytes, now: int, breaksAt: Option<nat>)
      returns (response: Response)
      requires Valid(c) && r.Connect? && accessIv != [] && refreshIv != []
      modifies this
      ensures Valid(c) && (Abstract(c), response) == Apply(c, old(Abstract(c)), r, now, breaksAt)
    {
      if r.accessToken == "" {
        return BadRequest;
      }
      var access := Encrypt(c, r.accessToken, accessIv);
      var refreshEncrypted, refreshNonce := None, None;
      if r.refreshToken != "" {
        var refresh := Encrypt(c, r.refreshToken, refreshIv);
        refreshEncrypted, refreshNonce := Some(refresh.encrypted), Some(refresh.iv);
      }
      var k := ConnectionKey(r.tenant, r.newId);
      if Breaks(breaksAt, 3) || r.tenant !in tenants || k in rows || !IsInt4(r.expiresIn) {
        return Failed;
      }
      var row := Row(r.provider, r.account, access.encrypted, refreshEncrypted, access.iv, refreshNonce,
                     Expiry(now, r.expiresIn), r.scopes, r.user, now, now);
      PlainTokens(c, row, r.accessToken, r.refreshToken, accessIv, refreshIv);
      PlainRowsUpdate(c, rows, k, row);
      var work := rows[k := row];
      if Breaks(breaksAt, 4) {
        return Failed;
      }
      var trail := audits + [Audit("oauth.connected", r.user, k)];
      if Breaks(breaksAt, 5) {
        return Failed;
      }
      rows, audits := work, trail;
      return Connected(k, ShowRow(row));
    }

    /** GET /:provider/connections: all of the tenant's connections of the provider, newest
        first, in the order that the query returned. */
    method List(c: Crypto, r: Request, now: int, breaksAt: Option<nat>) returns (response: Response)
      requires Valid(c) && r.List?
      requires IsListing(CreatedOf(ShownOf(rows, r.tenant, r.provider)), r.order)
      ensures (Abstract(c), response) == Apply(c, Abstract(c), r, now, breaksAt)
    {
      if Breaks(breaksAt, 4) {
        return Failed;
      }
      ShownOfPlain(c, rows, r.tenant, r.provider);
      return Listed(InOrder(ShownOf(rows, r.tenant, r.provider), r.order));
    }

    /** POST /:connectionId/refresh: both tokens, both nonces and the audit row are replaced and
        added together, or the row stays as it was. */
    method Refresh(c: Crypto, r: Request, accessIv: Bytes, refreshIv: Bytes, now: int, breaksAt: Option<nat>)
      returns (response: Response)
      requires Valid(c) && r.Refresh? && accessIv != [] && refreshIv != []
      modifies this
      ensures Valid(c) && (Abstract(c), response) == Apply(c, old(Abstract(c)), r, now, breaksAt)
    {
      if Breaks(breaksAt, 3) || r.id.None? {
        return Failed;
      }
      var k := ConnectionKey(r.tenant, r.id.value);
      if k !in rows {
        return Failed;
      }
      var existing := rows[k];
      if existing.refreshEncrypted.None? || existing.refreshEncrypted.value == ""
         || existing.refreshIv.None? || existing.refreshIv.value == "" {
        return Failed;
      }
      var oldToken := DecryptToken(c, Ciphertext(existing.refreshEncrypted.value, existing.refreshIv.value));
      if oldToken.None? {
        return Failed;
      }
      response := Renew(c, r, k, accessIv, refreshIv, now, breaksAt);
    }

    /** The new tokens, the update and the audit row. */
    method Renew(c: Crypto, r: Request, k: Key, accessIv: Bytes, refreshIv: Bytes, now: int, breaksAt: Option<nat>)
      returns (response: Response)
      requires Valid(c) && r.Refresh? && accessIv != [] && refreshIv != []
      requires r.id.Some? && k == ConnectionKey(r.tenant, r.id.value) && !Breaks(breaksAt, 3)
      requires k in rows && rows[k].refreshEncrypted.Some?
      modifies this
      ensures Valid(c)
      ensures (Abstract(c), response)
        == ApplyRefresh(c, old(Abstract(c)), r.tenant, r.user, r.id, r.clock, now, breaksAt)
    {
      var existing := rows[k];
      var tokens := SimulateRefresh(existing.provider, r.clock);
      var access := Encrypt(c, tokens.0, accessIv);
      var refresh := Encrypt(c, tokens.1, refreshIv);
      if Breaks(breaksAt, 4) {
        return Failed;
      }
      var row := existing.(accessEncrypted := access.encrypted, refreshEncrypted := Some(refresh.encrypted),
                           tokenIv := access.iv, refreshIv := Some(refresh.iv),
                           expiresAt := Some(now + tokens.2), updatedAt := now);
      PlainRenewed(c, existing, row, r.clock, now, accessIv, refreshIv);
      PlainRowsUpdate(c, rows, k, row);
      var work := rows[k := row];
      if Breaks(breaksAt, 5) {
        return Failed;
      }
      var trail := audits + [Audit("oauth.token_refreshed", r.user, k)];
      if Breaks(breaksAt, 6) {
        return Failed;
      }
      rows, audits := work, trail;
      return Refreshed(k, ShowRow(row));
    }

    /** What right_to_erasure does to these tables. */
    method Erase(c: Crypto, r: Request, now: int)
      requires Valid(c) && r.Erase?
      modifies this
      ensures Valid(c) && (Abstract(c), Erased) == Apply(c, old(Abstract(c)), r, now, None)
    {
      var kept := map k | k in rows && k.tenant != r.tenant :: rows[k];
      PlainRowsKeep(c, rows, kept, r.tenant);
      tenants, rows, audits := tenants - {r.tenant}, kept, Without(audits, r.tenant);
    }
  }

  // ---------------------------------------------------------------- the answers

  /** When a connect succeeds, and what it then leaves: each token in its own column, a refresh
      token only if one is given, the lifetime counted from now, and one audit row of the user. */
  lemma ConnectAnswers(c: Crypto, s: State, r: Request, now: int, breaksAt: Option<nat>)
    requires r.Connect?
    ensures
      var (s', response) := Apply(c, s, r, now, breaksAt);
      var k := Key(OAuthConnections, r.tenant, r.newId);
      var connects :=
        && r.accessToken != "" && !(breaksAt.Some? && breaksAt.value <= 4)
        && r.tenant in s.tenants && k !in s.rows
        && (r.expiresIn.None? || -2147483648 <= r.expiresIn.value <= 2147483647);
      && (response.BadRequest? <==> r.accessToken == "")
      && (response.Connected? <==> connects)
      && (response.Failed? <==> r.accessToken != "" && !connects)
      && (!connects ==> s' == s)
      && (connects ==>
            && s'.tenants == s.tenants && s'.rows.Keys == s.rows.Keys + {k}
            && (forall x | x in s.rows :: s'.rows[x] == s.rows[x])
            && IsConnected(c, r, now, s'.rows[k])
            && s'.audits == s.audits + [Audit("oauth.connected", r.user, k)]
            && response.key == k && ShowsRow(response.shown, s'.rows[k]))
  {
  }

  /** The columns of a new connection. */
  predicate IsConnected(c: Crypto, r: Request, now: int, row: Connection)
    requires r.Connect?
  {
    && row.provider == r.provider && row.account == r.account && row.scopes == r.scopes && row.createdBy == r.user
    && row.access == c.text(c.utf8(r.accessToken))
    && row.refresh == (if r.refreshToken == "" then None else Some(c.text(c.utf8(r.refreshToken))))
    && row.expiresAt == (if r.expiresIn.None? then None else Some(now + r.expiresIn.value))
    && row.createdAt == now && row.updatedAt == now
  }

  /** The columns that a response has of a connection. */
  predicate ShowsRow(shown: Shown, row: Connection) {
    && shown.provider == row.provider && shown.account == row.account && shown.expiresAt == row.expiresAt
    && shown.scopes == row.scopes && shown.createdAt == row.createdAt && shown.updatedAt == row.updatedAt
  }

  /** When a refresh succeeds, and what it then changes. */
  lemma RefreshAnswers(c: Crypto, s: State, r: Request, now: int, breaksAt: Option<nat>)
    requires r.Refresh?
    ensures
      var (s', response) := Apply(c, s, r, now, breaksAt);
      if r.id.Some? && !(breaksAt.Some? && breaksAt.value <= 5)
         && Key(OAuthConnections, r.tenant, r.id.value) in s.rows
         && s.rows[Key(OAuthConnections, r.tenant, r.id.value)].refresh.Some?
      then
        var k := Key(OAuthConnections, r.tenant, r.id.value);
        var (before, tokens) := (s.rows[k], SimulateRefresh(s.rows[k].provider, r.clock));
        && response.Refreshed? && response.key == k && k in s'.rows && ShowsRow(response.shown, s'.rows[k])
        && s'.rows[k] == before.(access := c.text(c.utf8(tokens.0)), refresh := Some(c.text(c.utf8(tokens.1))),
                                 expiresAt := Some(now + 3600), updatedAt := now)
        && s' == State(s.tenants, s.rows[k := s'.rows[k]], s.audits + [Audit("oauth.token_refreshed", r.user, k)])
      else
        s' == s && response == Failed
  {
  }

  /** The simulated tokens name their provider, their kind and the clock's reading in decimal
      digits. */
  lemma SimulatedTokens(provider: string, clock: nat)
    ensures var tokens := SimulateRefresh(provider, clock);
      var digits := tokens.0[|provider| + 8..];
      && tokens.0 == provider + "_access_" + digits && tokens.1 == provider + "_refresh_" + digits
      && digits != "" && (forall i | 0 <= i < |digits| :: '0' <= digits[i] <= '9') && Number(digits) == clock
      && (clock > 0 ==> digits[0] != '0')
  {
    var digits := Decimal(clock);
    DecimalReads(clock);
    assert SimulateRefresh(provider, clock).0[|provider| + 8..] == digits;
  }

  function Number(digits: string): int {
    if digits == "" then 0
    else 10 * Number(digits[..|digits| - 1]) + (digits[|digits| - 1] as int - '0' as int)
  }

  lemma {:induction false} DecimalReads(n: nat)
    ensures var s := Decimal(n);
      && s != "" && (forall i | 0 <= i < |s| :: '0' <= s[i] <= '9') && Number(s) == n && (n > 0 ==> s[0] != '0')
  {
    if n < 10 {
      NumberAppend("", n);
      assert "" + ["0123456789"[n]] == Decimal(n);
    } else {
      DecimalReads(n / 10);
      NumberAppend(Decimal(n / 10), n % 10);
    }
  }

  lemma NumberAppend(s: string, d: nat)
    requires d < 10
    ensures var c := "0123456789"[d];
      '0' <= c <= '9' && Number(s + [c]) == 10 * Number(s) + d && (d > 0 ==> c != '0')
  {
    assert (s + ["0123456789"[d]])[..|s|] == s;
  }

  /** A listing in some order is given exactly if the order has each of the tenant's connections
      of the provider once and no other, the newest first. */
  lemma ListAnswers(c: Crypto, s: State, r: Request, now: int, breaksAt: Option<nat>)
    requires r.List?
    ensures
      var (s', response) := Apply(c, s, r, now, breaksAt);
      && s' == s
      && (response.Failed? <==> breaksAt.Some? && breaksAt.value <= 3)
      && (response.Listed? <==> !response.Failed? && NewestFirst(s.rows, r.tenant, r.provider, r.order))
      && (response.Listed? ==>
            && |response.lines| == |r.order|
            && forall i | 0 <= i < |r.order| ::
                 r.order[i] in s.rows && response.lines[i].0 == r.order[i]
                 && ShowsRow(response.lines[i].1, s.rows[r.order[i]]))
  {
    assert forall i | 0 <= i < |r.order| :: r.order[i] in r.order;
  }

  ghost predicate NewestFirst(rows: map<Key, Connection>, tenant: Uuid, provider: string, order: seq<Key>) {
    && (forall k :: k in order <==> k in rows && k.tenant == tenant && rows[k].provider == provider)
    && forall i, j | 0 <= i < j < |order| ::
         && order[i] != order[j] && order[i] in rows && order[j] in rows
         && rows[order[j]].createdAt <= rows[order[i]].createdAt
  }

  /** An erasure takes the tenant, its connections and their audit rows, and nothing else. */
  lemma EraseAnswers(c: Crypto, s: State, tenant: Uuid, now: int, breaksAt: Option<nat>)
    ensures
      var (s', response) := Apply(c, s, Erase(tenant), now, breaksAt);
      && response == Erased && s'.tenants == s.tenants - {tenant}
      && (forall k :: k in s'.rows <==> k in s.rows && k.tenant != tenant)
      && (forall k | k in s'.rows :: s'.rows[k] == s.rows[k])
      && forall a: Audit :: a in s'.audits <==> a in s.audits && a.connection.tenant != tenant
  {
    forall a: Audit ensures a in Without(s.audits, tenant) <==> a in s.audits && a.connection.tenant != tenant {
      WithoutMembers(s.audits, tenant, a);
    }
  }

  lemma {:induction false} WithoutMembers(audits: seq<Audit>, tenant: Uuid, a: Audit)
    ensures a in Without(audits, tenant) <==> a in audits && a.connection.tenant != tenant
  {
    if audits == [] {
    } else {
      var n := |audits| - 1;
      WithoutMembers(audits[..n], tenant, a);
      assert audits == audits[..n] + [audits[n]];
    }
  }

  // ---------------------------------------------------------------- sequences of requests

  datatype Call = Call(request: Request, now: int, breaksAt: Option<nat>)

  function Run(c: Crypto, s: State, calls: seq<Call>): State {
    if calls == [] then s
    else
      var call := calls[|calls| - 1];
      Apply(c, Run(c, s, calls[..|calls| - 1]), call.request, call.now, call.breaksAt).0
  }

  function ResponseTo(c: Crypto, s: State, calls: seq<Call>, i: nat): Response
    requires i < |calls|
  {
    Apply(c, Run(c, s, calls[..i]), calls[i].request, calls[i].now, calls[i].breaksAt).1
  }

  ghost predicate NeverErased(calls: seq<Call>, tenant: Uuid) {
    forall i | 0 <= i < |calls| :: calls[i].request != Erase(tenant)
  }

  /** Until its tenant is erased a connection stays, with or without a refresh token as it was
      made, and only refreshes change it. */
  lemma {:induction false} ConnectionStays(c: Crypto, s: State, calls: seq<Call>, k: Key)
    requires k in s.rows && NeverErased(calls, k.tenant)
    ensures var s' := Run(c, s, calls);
      && k in s'.rows
      && (s'.rows[k].refresh.Some? <==> s.rows[k].refresh.Some?)
      && s'.rows[k] == s.rows[k].(access := s'.rows[k].access, refresh := s'.rows[k].refresh,
                                  expiresAt := s'.rows[k].expiresAt, updatedAt := s'.rows[k].updatedAt)
  {
    if calls == [] {
    } else {
      var n := |calls| - 1;
      ConnectionStays(c, s, calls[..n], k);
      assert calls[n].request != Erase(k.tenant);
    }
  }

  /** So a refresh that does not break succeeds, after any requests but the tenant's erasure,
      exactly if the connection was made with a refresh token, and then leaves each new token in
      its own column. */
  lemma RefreshableUntilErased(c: Crypto, s: State, calls: seq<Call>, k: Key, user: Uuid, clock: nat, now: int)
    requires k in s.rows && k.table == OAuthConnections && NeverErased(calls, k.tenant)
    ensures var (s', response) := Apply(c, Run(c, s, calls), Refresh(k.tenant, user, Some(k.id), clock), now, None);
      && (response.Refreshed? <==> s.rows[k].refresh.Some?)
      && (response.Refreshed? ==>
            && s'.rows[k].access == Readable(c, s.rows[k].provider + "_access_" + Decimal(clock))
            && s'.rows[k].refresh == Some(Readable(c, s.rows[k].provider + "_refresh_" + Decimal(clock)))
            && s'.rows[k].expiresAt == Some(now + 3600))
  {
    ConnectionStays(c, s, calls, k);
    assert k == ConnectionKey(k.tenant, k.id);
  }

  // ---------------------------------------------------------------- the audit rows

  function AuditsOf(audits: seq<Audit>, action: string, k: Key): nat {
    if audits == [] then 0
    else
      var a := audits[|audits| - 1];
      AuditsOf(audits[..|audits| - 1], action, k) + (if a.action == action && a.connection == k then 1 else 0)
  }

  lemma AuditsSnoc(audits: seq<Audit>, a: Audit, action: string, k: Key)
    ensures AuditsOf(audits + [a], action, k)
      == AuditsOf(audits, action, k) + (if a.action == action && a.connection == k then 1 else 0)
  {
    assert (audits + [a])[..|audits|] == audits;
  }

  lemma {:induction false} AuditsWithout(audits: seq<Audit>, tenant: Uuid, action: string, k: Key)
    ensures AuditsOf(Without(audits, tenant), action, k)
         == if k.tenant == tenant then 0 else AuditsOf(audits, action, k)
  {
    if audits != [] {
      var n := |audits| - 1;
      AuditsWithout(audits[..n], tenant, action, k);
      if audits[n].connection.tenant != tenant {
        AuditsSnoc(Without(audits[..n], tenant), audits[n], action, k);
      } else {
        assert Without(audits, tenant) == Without(audits[..n], tenant);
      }
    }
  }

  /** The response reports this action on the connection. */
  predicate Reports(response: Response, action: string, k: Key) {
    || (response.Connected? && response.key == k && action == "oauth.connected")
    || (response.Refreshed? && response.key == k && action == "oauth.token_refreshed")
  }

  /** How often it was reported, since the tenant was last erased. */
  function ReportsOf(c: Crypto, s: State, calls: seq<Call>, action: string, k: Key): nat {
    if calls == [] then 0
    else
      var n := |calls| - 1;
      if calls[n].request == Erase(k.tenant) then 0
      else ReportsOf(c, s, calls[..n], action, k) + (if Reports(ResponseTo(c, s, calls, n), action, k) then 1 else 0)
  }

  /** A request adds one audit row if it reports an action, and else none. */
  lemma ApplyAddsAudit(c: Crypto, s: State, r: Request, now: int, breaksAt: Option<nat>)
    ensures var (s', response) := Apply(c, s, r, now, breaksAt);
      if r.Erase? then response.Erased? && s'.audits == Without(s.audits, r.tenant)
      else if response.Connected? || response.Refreshed? then
        && |s'.audits| == |s.audits| + 1 && s'.audits == s.audits + [s'.audits[|s.audits|]]
        && s'.audits[|s.audits|].connection == response.key
        && s'.audits[|s.audits|].action == if response.Connected? then "oauth.connected" else "oauth.token_refreshed"
      else s'.audits == s.audits
  {
  }

  lemma ApplyAudits(c: Crypto, s: State, r: Request, now: int, breaksAt: Option<nat>, action: string, k: Key)
    ensures var (s', response) := Apply(c, s, r, now, breaksAt);
      AuditsOf(s'.audits, action, k) ==
        if r == Erase(k.tenant) then 0
        else AuditsOf(s.audits, action, k) + (if Reports(response, action, k) then 1 else 0)
  {
    var (s', response) := Apply(c, s, r, now, breaksAt);
    ApplyAddsAudit(c, s, r, now, breaksAt);
    if r.Erase? {
      AuditsWithout(s.audits, r.tenant, action, k);
    } else if response.Connected? || response.Refreshed? {
      AuditsSnoc(s.audits, s'.audits[|s.audits|], action, k);
    }
  }

  /** Every committed connect and every committed refresh has exactly one audit row of its own
      action, and there are no others. */
  lemma {:induction false} EveryChangeAudited(c: Crypto, tenants: set<Uuid>, calls: seq<Call>, action: string, k: Key)
    ensures var s := State(tenants, map[], []);
      AuditsOf(Run(c, s, calls).audits, action, k) == ReportsOf(c, s, calls, action, k)
  {
    if calls == [] {
    } else {
      var n := |calls| - 1;
      var before := Run(c, State(tenants, map[], []), calls[..n]);
      EveryChangeAudited(c, tenants, calls[..n], action, k);
      ApplyAudits(c, before, calls[n].request, calls[n].now, calls[n].breaksAt, action, k);
    }
  }
}
