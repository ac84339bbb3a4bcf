/**
 The audit log with its insert trigger, its backfill and its archive job, and the laws that
 tie the three together: the trigger's row-by-row chain is the one the backfill rebuilds.
 */
module AuditTrail {
  import opened Schema
  import opened AuditChain
  import opened AuditOrder

  // ---------------------------------------------------------------- the trigger

  /** What ORDER BY occurred_at DESC LIMIT 1 may return: no row if the tenant has none, else
      any row with the greatest time. Nothing breaks a tie. */
  predicate IsLatest(t: AuditTable, tenant: Uuid, pick: Option<Key>) {
    match pick
    case None => forall k | k in t :: k.tenant != tenant
    case Some(last) =>
      && last in t && last.tenant == tenant
      && forall k | k in t && k.tenant == tenant :: t[k].event.at <= t[last].event.at
  }

  function PickedHash(t: AuditTable, pick: Option<Key>): Option<string>
    requires pick.Some? ==> pick.value in t
  {
    if pick.Some? then t[pick.value].currentHash else None
  }

  function EventKey(e: Event): Key {
    Key(AuditLog, e.tenant, e.id)
  }

  function NewRow(h: Hasher, previous: Option<string>, e: Event): AuditRow {
    Link(h, previous, AuditRow(e, None, None, None))
  }

  /** The table after an insert, with the hash columns the trigger sets. */
  function Inserted(h: Hasher, t: AuditTable, e: Event, pick: Option<Key>): (r: AuditTable)
    requires pick.Some? ==> pick.value in t
    ensures Keyed(t) ==> Keyed(r)
  {
    t[EventKey(e) := NewRow(h, PickedHash(t, pick), e)]
  }

  /** The event is later than all its tenant has. */
  ghost predicate StrictlyLater(t: AuditTable, e: Event) {
    forall k | k in t && k.tenant == e.tenant :: t[k].event.at < e.at
  }

  // ---------------------------------------------------------------- the backfill

  /** `after` is `before` with every tenant's chain rebuilt and nothing else changed. */
  ghost predicate IsBackfill(h: Hasher, before: AuditTable, after: AuditTable)
    requires Keyed(before)
  {
    && after.Keys == before.Keys
    && Keyed(after)
    && (forall k | k in before :: SameData(after[k], before[k]))
    && (forall tenant :: TenantRows(after, tenant) == Rehash(h, TenantRows(before, tenant)))
  }

  /** The keys of one tenant, in cursor order. */
  ghost function Filter(l: seq<Key>, tenant: Uuid): (r: seq<Key>)
    ensures forall k :: k in r <==> k in l && k.tenant == tenant
  {
    if l == [] then []
    else
      var n := |l| - 1;
      assert l == l[..n] + [l[n]];
      Filter(l[..n], tenant) + (if l[n].tenant == tenant then [l[n]] else [])
  }

  lemma {:induction false} FilterSorted(t: AuditTable, l: seq<Key>, tenant: Uuid)
    requires (forall k | k in l :: k in t) && Sorted(t, l)
    ensures Sorted(t, Filter(l, tenant))
  {
    if l == [] {
    } else {
      var n := |l| - 1;
      FilterSorted(t, l[..n], tenant);
      var f := Filter(l[..n], tenant);
      forall i | 0 <= i < |f| ensures EventBefore(t[f[i]].event, t[l[n]].event) {
        assert f[i] in l[..n];
      }
    }
  }

  lemma FilterLists(t: AuditTable, ks: set<Key>, l: seq<Key>, tenant: Uuid)
    requires Lists(t, ks, l)
    ensures Lists(t, (set k | k in ks && k.tenant == tenant), Filter(l, tenant))
  {
    FilterSorted(t, l, tenant);
  }

  /** A cursor in tenant order never returns to a tenant it has left. */
  lemma TenantLeft(t: AuditTable, l: seq<Key>, i: nat)
    requires Keyed(t) && (forall k | k in l :: k in t) && Sorted(t, l)
    requires i < |l| && (i == 0 || l[i - 1].tenant != l[i].tenant)
    ensures Filter(l[..i], l[i].tenant) == []
  {
    forall j | 0 <= j < i ensures l[j].tenant != l[i].tenant {
      assert EventBefore(t[l[j]].event, t[l[i - 1]].event) || j == i - 1;
      assert EventBefore(t[l[i - 1]].event, t[l[i]].event);
    }
    FilterEmpty(l[..i], l[i].tenant);
  }

  lemma {:induction false} FilterEmpty(l: seq<Key>, tenant: Uuid)
    requires forall j | 0 <= j < |l| :: l[j].tenant != tenant
    ensures Filter(l, tenant) == []
  {
    if l == [] {
    } else {
      FilterEmpty(l[..|l| - 1], tenant);
    }
  }

  lemma FilterSnoc(l: seq<Key>, k: Key, tenant: Uuid)
    ensures Filter(l + [k], tenant) == if k.tenant == tenant then Filter(l, tenant) + [k] else Filter(l, tenant)
  {
  }

  ghost function RowsOf(t: AuditTable, l: seq<Key>, tenant: Uuid): seq<AuditRow>
    requires forall k | k in l :: k in t
  {
    RowsAt(t, Filter(l, tenant))
  }

  /** The rows `l` of one tenant have been rebuilt. */
  ghost predicate Rebuilt(h: Hasher, before: AuditTable, now: AuditTable, l: seq<Key>, tenant: Uuid)
    requires forall k | k in l :: k in before && k in now
  {
    RowsOf(now, l, tenant) == Rehash(h, RowsOf(before, l, tenant))
  }

  /** The state of the backfill after the rows `l`. */
  ghost predicate Progress(h: Hasher, before: AuditTable, now: AuditTable, l: seq<Key>)
    requires forall k | k in l :: k in before
  {
    && now.Keys == before.Keys
    && (forall k | k in before :: SameData(now[k], before[k]))
    && (forall k | k in before && k !in l :: now[k] == before[k])
    && (forall tenant :: Rebuilt(h, before, now, l, tenant))
  }

  lemma RebuiltStep(h: Hasher, before: AuditTable, now: AuditTable, l: seq<Key>, k: Key,
                    last: Option<string>, tenant: Uuid)
    requires k in before && k in now && k !in l && forall x | x in l :: x in before && x in now
    requires Rebuilt(h, before, now, l, tenant)
    requires now[k] == before[k]
    requires last == Head(RowsOf(now, l, k.tenant))
    ensures var now' := now[k := Link(h, last, now[k])];
      && Rebuilt(h, before, now', l + [k], tenant)
      && (tenant == k.tenant ==> Head(RowsOf(now', l + [k], tenant)) == now'[k].currentHash)
  {
    var now' := now[k := Link(h, last, now[k])];
    var f := Filter(l, tenant);
    FilterSnoc(l, k, tenant);
    RowsAtUntouched(now, f, k, now'[k]);
    if tenant == k.tenant {
      RowsAtSnoc(before, f, k);
      RowsAtSnoc(now', f, k);
      RehashSnoc(h, RowsAt(before, f), before[k]);
    }
  }

  lemma ProgressStep(h: Hasher, before: AuditTable, now: AuditTable, l: seq<Key>, k: Key, last: Option<string>)
    requires k in before && k !in l && forall x | x in l :: x in before
    requires Progress(h, before, now, l)
    requires last == Head(RowsOf(now, l, k.tenant))
    ensures var now' := now[k := Link(h, last, now[k])];
      && Progress(h, before, now', l + [k])
      && Head(RowsOf(now', l + [k], k.tenant)) == now'[k].currentHash
  {
    var now' := now[k := Link(h, last, now[k])];
    forall tenant ensures Rebuilt(h, before, now', l + [k], tenant) {
      assert Rebuilt(h, before, now, l, tenant);
      RebuiltStep(h, before, now, l, k, last, tenant);
    }
    assert Rebuilt(h, before, now, l, k.tenant);
    RebuiltStep(h, before, now, l, k, last, k.tenant);
  }

  lemma KeyedByData(before: AuditTable, now: AuditTable)
    requires Keyed(before) && now.Keys == before.Keys
    requires forall k | k in before :: SameData(now[k], before[k])
    ensures Keyed(now)
  {
  }

  lemma CursorOfTenant(t: AuditTable, l: seq<Key>, tenant: Uuid)
    requires Keyed(t) && Lists(t, t.Keys, l)
    ensures Filter(l, tenant) == Ordered(t, TenantKeys(t, tenant))
  {
    var ks := TenantKeys(t, tenant);
    FilterLists(t, t.Keys, l, tenant);
    assert ks == (set k | k in t.Keys && k.tenant == tenant);
    ListsUnique(t, ks, Filter(l, tenant), Ordered(t, ks));
  }

  lemma ProgressDone(h: Hasher, before: AuditTable, now: AuditTable, l: seq<Key>)
    requires Keyed(before) && Lists(before, before.Keys, l)
    requires Progress(h, before, now, l)
    ensures IsBackfill(h, before, now)
  {
    KeyedByData(before, now);
    forall tenant ensures TenantRows(now, tenant) == Rehash(h, TenantRows(before, tenant)) {
      assert Rebuilt(h, before, now, l, tenant);
      CursorOfTenant(before, l, tenant);
      assert TenantKeys(before, tenant) == TenantKeys(now, tenant);
      SameOrder(before, now, TenantKeys(before, tenant));
    }
  }

  lemma CursorPrefix(t: AuditTable, l: seq<Key>, i: nat)
    requires Keyed(t) && Lists(t, t.Keys, l) && i < |l|
    ensures l[i] in t && l[i] !in l[..i]
    ensures forall k | k in l[..i] :: k in t
  {
    assert forall j | 0 <= j < |l| :: l[j] in t;
    forall j | 0 <= j < i ensures l[j] != l[i] {
      assert EventBefore(t[l[j]].event, t[l[i]].event);
    }
  }

  lemma CursorStep(t: AuditTable, l: seq<Key>, i: nat)
    requires Keyed(t) && Lists(t, t.Keys, l) && i < |l|
    ensures l[i] in t && l[i] !in l[..i]
    ensures forall k | k in l[..i] :: k in t
    ensures l[..i + 1] == l[..i] + [l[i]]
    ensures i == 0 || l[i - 1].tenant != l[i].tenant ==> Filter(l[..i], l[i].tenant) == []
  {
    CursorPrefix(t, l, i);
    if i == 0 || l[i - 1].tenant != l[i].tenant { TenantLeft(t, l, i); }
  }

  /** The loop's state before its `i`-th round. */
  ghost predicate BackfillState(h: Hasher, before: AuditTable, now: AuditTable, cursor: seq<Key>, i: nat,
                                lastTenant: Option<Uuid>, lastHash: Option<string>)
  {
    && Keyed(before) && Lists(before, before.Keys, cursor)
    && i <= |cursor|
    && (forall k | k in cursor[..i] :: k in cursor)
    && Progress(h, before, now, cursor[..i])
    && lastTenant == (if i == 0 then None else Some(cursor[i - 1].tenant))
    && (lastTenant.Some? ==> lastHash == Head(RowsOf(now, cursor[..i], lastTenant.value)))
  }

  lemma BackfillStart(h: Hasher, t: AuditTable, cursor: seq<Key>)
    requires Keyed(t) && Lists(t, t.Keys, cursor)
    ensures BackfillState(h, t, t, cursor, 0, None, None)
  {
  }

  /** The shared variable holds the right hash, or is reset. */
  lemma LinkTarget(h: Hasher, before: AuditTable, now: AuditTable, cursor: seq<Key>, i: nat,
                   lastTenant: Option<Uuid>, lastHash: Option<string>)
    requires BackfillState(h, before, now, cursor, i, lastTenant, lastHash) && i < |cursor|
    ensures
      var tenant := cursor[i].tenant;
      (if lastTenant == Some(tenant) then lastHash else None) == Head(RowsOf(now, cursor[..i], tenant))
  {
    CursorStep(before, cursor, i);
  }

  /** The state after a round: what the round left, one row further. */
  lemma BackfillNext(h: Hasher, before: AuditTable, now: AuditTable, cursor: seq<Key>, i: nat, lastHash: Option<string>)
    requires Keyed(before) && Lists(before, before.Keys, cursor) && i < |cursor|
    requires (forall k | k in cursor[..i + 1] :: k in cursor) && Progress(h, before, now, cursor[..i + 1])
    requires lastHash == Head(RowsOf(now, cursor[..i + 1], cursor[i].tenant))
    ensures BackfillState(h, before, now, cursor, i + 1, Some(cursor[i].tenant), lastHash)
  {
  }

  lemma BackfillStep(h: Hasher, before: AuditTable, now: AuditTable, cursor: seq<Key>, i: nat,
                     lastTenant: Option<Uuid>, lastHash: Option<string>)
    requires BackfillState(h, before, now, cursor, i, lastTenant, lastHash) && i < |cursor|
    ensures cursor[i] in before && cursor[i] in now && now[cursor[i]] == before[cursor[i]]
    ensures
      var k := cursor[i];
      var last := if lastTenant == Some(k.tenant) then lastHash else None;
      var now' := now[k := Link(h, last, now[k])];
      BackfillState(h, before, now', cursor, i + 1, Some(k.tenant), now'[k].currentHash)
  {
    var k := cursor[i];
    var last := if lastTenant == Some(k.tenant) then lastHash else None;
    CursorStep(before, cursor, i);
    LinkTarget(h, before, now, cursor, i, lastTenant, lastHash);
    ProgressStep(h, before, now, cursor[..i], k, last);
    var now' := now[k := Link(h, last, now[k])];
    BackfillNext(h, before, now', cursor, i, now'[k].currentHash);
  }

  lemma BackfillEnd(h: Hasher, before: AuditTable, now: AuditTable, cursor: seq<Key>,
                    lastTenant: Option<Uuid>, lastHash: Option<string>)
    requires BackfillState(h, before, now, cursor, |cursor|, lastTenant, lastHash)
    ensures IsBackfill(h, before, now)
  {
    assert cursor[..|cursor|] == cursor;
    ProgressDone(h, before, now, cursor);
  }

  // ---------------------------------------------------------------- the archive job

  function Unarchived(t: AuditTable): set<Key> {
    set k | k in t && t[k].archivedAt.None?
  }

  /** What WHERE archived_at IS NULL ORDER BY occurred_at may return: every unarchived row
      once, times ascending, ties in any order. */
  ghost predicate IsExportOrder(t: AuditTable, l: seq<Key>) {
    && (forall k :: k in l <==> k in Unarchived(t))
    && (forall i, j | 0 <= i < j < |l| ::
          l[i] in t && l[j] in t && l[i] != l[j] && t[l[i]].event.at <= t[l[j]].event.at)
  }

  /** The table after every unarchived row is marked. */
  function Marked(t: AuditTable, now: int): AuditTable {
    map k | k in t :: if t[k].archivedAt.None? then t[k].(archivedAt := Some(now)) else t[k]
  }

  /** The columns of a row that the archive file carries. */
  function JsonLine(row: AuditRow): AuditRow {
    row.(event := row.event.(ip := None, userAgent := None), archivedAt := None)
  }

  function Exported(t: AuditTable, l: seq<Key>): (file: seq<AuditRow>)
    requires forall k | k in l :: k in t
    ensures |file| == |l|
  {
    seq(|l|, i requires 0 <= i < |l| => JsonLine(t[l[i]]))
  }

  class AuditTrail {
    var rows: AuditTable

    constructor ()
      ensures rows == map[]
    {
      rows := map[];
    }

    /** INSERT with its BEFORE trigger. `pick` is the row the trigger's query returned. The
        insert fails, and leaves the table alone, if the key is taken. */
    method Insert(h: Hasher, e: Event, pick: Option<Key>) returns (ok: bool)
      requires IsLatest(rows, e.tenant, pick)
      modifies this
      ensures ok <==> EventKey(e) !in old(rows)
      ensures ok ==> rows == Inserted(h, old(rows), e, pick)
      ensures var previous := if pick.None? then None else old(rows)[pick.value].currentHash;
        ok ==> rows == old(rows)[Key(AuditLog, e.tenant, e.id) := AuditRow(e, previous, Some(h(previous, e)), None)]
      ensures !ok ==> rows == old(rows)
    {
      var row := AuditRow(e, None, None, None);
      var lastHash: Option<string> := None;
      if pick.Some? {
        lastHash := rows[pick.value].currentHash;
      }
      row := row.(previousHash := lastHash);
      row := row.(currentHash := Some(h(row.previousHash, row.event)));
      if EventKey(e) in rows {
        return false;
      }
      rows := rows[EventKey(e) := row];
      return true;
    }

    /** The backfill's loop over all tenants, with its two shared variables. `cursor` is the
        result of its ORDER BY query. */
    method Backfill(h: Hasher, cursor: seq<Key>)
      requires Keyed(rows) && Lists(rows, rows.Keys, cursor)
      modifies this
      ensures IsBackfill(h, old(rows), rows)
    {
      var snapshot := rows;
      var lastHash: Option<string> := None;
      var lastTenant: Option<Uuid> := None;
      var i := 0;
      BackfillStart(h, snapshot, cursor);
      while i < |cursor|
        invariant 0 <= i <= |cursor|
        invariant BackfillState(h, snapshot, rows, cursor, i, lastTenant, lastHash)
      {
        var k := cursor[i];
        var r := snapshot[k];
        BackfillStep(h, snapshot, rows, cursor, i, lastTenant, lastHash);
        if lastTenant.None? || lastTenant.value != k.tenant {
          lastHash := None;
          lastTenant := Some(k.tenant);
        }
        var computedHash := h(lastHash, r.event);
        rows := rows[k := rows[k].(previousHash := lastHash, currentHash := Some(computedHash))];
        lastHash := Some(computedHash);
        i := i + 1;
      }
      BackfillEnd(h, snapshot, rows, cursor, lastTenant, lastHash);
    }

    /** The archive job's first statement. The JSON lines leave out the address, the user
        agent and the archive mark; the mark is null in every row of the file. */
    method Export(order: seq<Key>) returns (file: seq<AuditRow>)
      requires IsExportOrder(rows, order)
      ensures file == Exported(rows, order)
      ensures |file| == |order| && forall i | 0 <= i < |file| ::
        order[i] in rows && file[i] == rows[order[i]].(event := rows[order[i]].event.(ip := None, userAgent := None))
    {
      file := [];
      var i := 0;
      while i < |order|
        invariant 0 <= i <= |order|
        invariant forall k | k in order :: k in rows
        invariant file == Exported(rows, order[..i])
      {
        assert order[i] in order;
        file := file + [JsonLine(rows[order[i]])];
        i := i + 1;
      }
      assert order[..i] == order;
      forall i | 0 <= i < |order| ensures order[i] in rows && rows[order[i]].archivedAt.None? {
        assert order[i] in order;
      }
    }

    /** The archive job's second statement. */
    method MarkArchived(now: int)
      modifies this
      ensures rows == Marked(old(rows), now) && rows.Keys == old(rows.Keys)
      ensures forall k | k in rows ::
        rows[k] == if old(rows)[k].archivedAt.None? then old(rows)[k].(archivedAt := Some(now)) else old(rows)[k]
    {
      rows := map k | k in rows :: if rows[k].archivedAt.None? then rows[k].(archivedAt := Some(now)) else rows[k];
    }
  }
}
