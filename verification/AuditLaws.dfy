/**
 Laws of the audit log: what one backfill achieves, that the trigger's chain is already
 what the backfill would make, and when backfill and insert may change places.
 */
module AuditLaws {
  import opened Schema
  import opened AuditChain
  import opened AuditOrder
  import opened AuditTrail

  // ---------------------------------------------------------------- one backfill

  /** From any table, with missing hashes, forks or ties, one pass leaves one verified chain
      for every tenant. */
  lemma BackfillRepairs(h: Hasher, before: AuditTable, after: AuditTable)
    requires Keyed(before) && IsBackfill(h, before, after)
    ensures forall tenant :: Verified(h, TenantRows(after, tenant))
  {
    forall tenant ensures Verified(h, TenantRows(after, tenant)) {
      RehashVerified(h, TenantRows(before, tenant));
    }
  }

  /** The tables a backfill leaves alone are exactly those whose chains all verify. */
  lemma BackfillFixedPoints(h: Hasher, t: AuditTable)
    requires Keyed(t)
    ensures IsBackfill(h, t, t) <==> forall tenant :: Verified(h, TenantRows(t, tenant))
  {
    forall tenant
      ensures Verified(h, TenantRows(t, tenant)) <==> Rehash(h, TenantRows(t, tenant)) == TenantRows(t, tenant)
    {
      VerifiedIffRehashFixed(h, TenantRows(t, tenant));
    }
  }

  lemma SameDataRows(t: AuditTable, u: AuditTable, tenant: Uuid)
    requires Keyed(t) && Keyed(u) && t.Keys == u.Keys
    requires forall k | k in t :: SameData(u[k], t[k])
    ensures |TenantRows(u, tenant)| == |TenantRows(t, tenant)|
    ensures forall i | 0 <= i < |TenantRows(t, tenant)| :: SameData(TenantRows(u, tenant)[i], TenantRows(t, tenant)[i])
  {
    assert TenantKeys(t, tenant) == TenantKeys(u, tenant);
    SameOrder(u, t, TenantKeys(t, tenant));
    var l := Ordered(t, TenantKeys(t, tenant));
    forall i | 0 <= i < |l| ensures SameData(u[l[i]], t[l[i]]) {
      assert l[i] in l;
    }
  }

  /** A backfill has one result, whatever hashes the two starting tables held. */
  lemma BackfillDetermined(h: Hasher, t: AuditTable, u: AuditTable, t': AuditTable, u': AuditTable)
    requires Keyed(t) && Keyed(u) && t.Keys == u.Keys
    requires forall k | k in t :: SameData(u[k], t[k])
    requires IsBackfill(h, t, t') && IsBackfill(h, u, u')
    ensures t' == u'
  {
    forall tenant ensures TenantRows(t', tenant) == TenantRows(u', tenant) {
      SameDataRows(t, u, tenant);
      RehashIgnoresHashes(h, TenantRows(u, tenant), TenantRows(t, tenant));
    }
    TenantRowsDetermine(t', u');
  }

  /** Running it again changes nothing. */
  lemma BackfillIdempotent(h: Hasher, before: AuditTable, once: AuditTable, twice: AuditTable)
    requires Keyed(before) && IsBackfill(h, before, once) && IsBackfill(h, once, twice)
    ensures twice == once
  {
    BackfillDetermined(h, before, once, once, twice);
  }

  // ---------------------------------------------------------------- trigger and backfill

  /** How many of its tenant's rows come before an event. */
  ghost function PlaceOf(t: AuditTable, e: Event): (p: nat)
    requires Keyed(t)
    ensures p <= |TenantRows(t, e.tenant)|
  {
    PlaceIn(t, Ordered(t, TenantKeys(t, e.tenant)), e)
  }

  lemma RowsAtSplice(t: AuditTable, l: seq<Key>, p: nat, k: Key, row: AuditRow)
    requires p <= |l| && k !in l && forall x | x in l :: x in t
    ensures var rows := RowsAt(t, l);
      RowsAt(t[k := row], l[..p] + [k] + l[p..]) == rows[..p] + [row] + rows[p..]
  {
    var (rows, all) := (RowsAt(t, l), l[..p] + [k] + l[p..]);
    var u := t[k := row];
    forall i | 0 <= i < |all| ensures u[all[i]] == (rows[..p] + [row] + rows[p..])[i] {
      if i != p {
        var x := if i < p then l[i] else l[i - 1];
        assert all[i] == x && x in l;
      }
    }
  }

  lemma InsertsOwn(t: AuditTable, row: AuditRow)
    requires Keyed(t) && EventKey(row.event) !in t
    ensures
      var (rows, p) := (TenantRows(t, row.event.tenant), PlaceOf(t, row.event));
      Keyed(t[EventKey(row.event) := row])
      && TenantRows(t[EventKey(row.event) := row], row.event.tenant) == rows[..p] + [row] + rows[p..]
  {
    var k := EventKey(row.event);
    var u := t[k := row];
    var ks := TenantKeys(t, k.tenant);
    var l := Ordered(t, ks);
    SameOrder(t, u, ks);
    OrderedInsert(u, ks, k);
    assert TenantKeys(u, k.tenant) == ks + {k};
    SamePlace(t, u, l, row.event);
    RowsAtSplice(t, l, PlaceOf(t, row.event), k, row);
  }

  /** A new row, however linked, goes to its place in its tenant's rows and leaves the other
      tenants' alone. */
  lemma InsertsAt(t: AuditTable, row: AuditRow, tenant: Uuid)
    requires Keyed(t) && EventKey(row.event) !in t
    ensures var u := t[EventKey(row.event) := row];
      var (rows, p) := (TenantRows(t, tenant), PlaceOf(t, row.event));
      && Keyed(u)
      && (tenant == row.event.tenant ==> TenantRows(u, tenant) == rows[..p] + [row] + rows[p..])
      && (tenant != row.event.tenant ==> TenantRows(u, tenant) == rows)
  {
    if tenant == row.event.tenant {
      InsertsOwn(t, row);
    } else {
      var k := EventKey(row.event);
      var ks := TenantKeys(t, tenant);
      assert TenantKeys(t[k := row], tenant) == ks;
      SameOrder(t, t[k := row], ks);
      RowsAtUntouched(t, Ordered(t, ks), k, row);
    }
  }

  lemma {:induction false} SamePlace(t: AuditTable, u: AuditTable, l: seq<Key>, e: Event)
    requires forall k | k in l :: k in t && k in u && t[k].event == u[k].event
    ensures PlaceIn(t, l, e) == PlaceIn(u, l, e)
  {
    if l == [] {
    } else {
      var n := |l| - 1;
      assert l[n] in l;
      SamePlace(t, u, l[..n], e);
    }
  }

  /** The place is at the end exactly if all the tenant's rows come before the event. */
  lemma PlaceIsLast(t: AuditTable, e: Event)
    requires Keyed(t)
    ensures PlaceOf(t, e) == |TenantRows(t, e.tenant)| <==>
      forall k | k in t && k.tenant == e.tenant :: EventBefore(t[k].event, e)
  {
    var ks := TenantKeys(t, e.tenant);
    var l := Ordered(t, ks);
    if l != [] {
      var n := |l| - 1;
      assert l[n] in l;
      forall k | k in ks && k != l[n] ensures EventBefore(t[k].event, t[l[n]].event) {
        assert k in l;
      }
    }
    forall k | k in t && k.tenant == e.tenant ensures k in ks {}
  }

  /** So a later row goes to the end. */
  lemma AppendLater(t: AuditTable, row: AuditRow, tenant: Uuid)
    requires Keyed(t) && EventKey(row.event) !in t && StrictlyLater(t, row.event)
    ensures var u := t[EventKey(row.event) := row];
      && Keyed(u)
      && (tenant == row.event.tenant ==> TenantRows(u, tenant) == TenantRows(t, tenant) + [row])
      && (tenant != row.event.tenant ==> TenantRows(u, tenant) == TenantRows(t, tenant))
  {
    InsertsAt(t, row, tenant);
    PlaceIsLast(t, row.event);
  }

  /** No other row of the tenant has the latest time. */
  ghost predicate NoTie(t: AuditTable, tenant: Uuid) {
    forall a, b | IsLatest(t, tenant, Some(a)) && IsLatest(t, tenant, Some(b)) :: a == b
  }

  lemma LastIsLatest(t: AuditTable, tenant: Uuid)
    requires Keyed(t)
    ensures var l := Ordered(t, TenantKeys(t, tenant));
      var last := if l == [] then None else Some(l[|l| - 1]);
      Head(TenantRows(t, tenant)) == PickedHash(t, last) && IsLatest(t, tenant, last)
  {
    var ks := TenantKeys(t, tenant);
    var l := Ordered(t, ks);
    forall k | k in t && k.tenant == tenant
      ensures l != [] && l[|l| - 1] in t && t[k].event.at <= t[l[|l| - 1]].event.at
    {
      assert k in ks && k in l;
      var i :| 0 <= i < |l| && l[i] == k;
      assert i < |l| - 1 ==> EventBefore(t[k].event, t[l[|l| - 1]].event);
    }
    assert l != [] ==> l[|l| - 1] in ks;
  }

  /** Without a tie the trigger links to the end of the chain. */
  lemma PickIsHead(t: AuditTable, tenant: Uuid, pick: Option<Key>)
    requires Keyed(t) && IsLatest(t, tenant, pick) && NoTie(t, tenant)
    ensures PickedHash(t, pick) == Head(TenantRows(t, tenant))
  {
    LastIsLatest(t, tenant);
  }

  ghost predicate AllVerified(h: Hasher, t: AuditTable)
    requires Keyed(t)
  {
    forall tenant :: Verified(h, TenantRows(t, tenant))
  }

  ghost predicate NoTies(t: AuditTable) {
    forall tenant :: NoTie(t, tenant)
  }

  lemma NoTieKept(h: Hasher, t: AuditTable, e: Event, pick: Option<Key>)
    requires EventKey(e) !in t && StrictlyLater(t, e) && IsLatest(t, e.tenant, pick)
    requires NoTies(t)
    ensures NoTies(Inserted(h, t, e, pick))
  {
    var u := Inserted(h, t, e, pick);
    forall tenant ensures NoTie(u, tenant) {
      if tenant != e.tenant {
        assert NoTie(t, tenant);
        forall k | IsLatest(u, tenant, Some(k)) ensures IsLatest(t, tenant, Some(k)) {
          forall x | x in t && x.tenant == tenant ensures t[x].event.at <= t[k].event.at {
            assert x in u;
          }
        }
      } else {
        forall k | IsLatest(u, tenant, Some(k)) ensures k == EventKey(e) {
          assert u[EventKey(e)].event.at <= u[k].event.at;
        }
      }
    }
  }

  /** An insert into a log of verified chains without ties keeps both. */
  lemma InsertKeepsChains(h: Hasher, t: AuditTable, e: Event, pick: Option<Key>)
    requires Keyed(t) && AllVerified(h, t) && NoTies(t)
    requires EventKey(e) !in t && StrictlyLater(t, e) && IsLatest(t, e.tenant, pick)
    ensures AllVerified(h, Inserted(h, t, e, pick)) && NoTies(Inserted(h, t, e, pick))
  {
    var row := NewRow(h, PickedHash(t, pick), e);
    assert NoTie(t, e.tenant);
    PickIsHead(t, e.tenant, pick);
    NoTieKept(h, t, e, pick);
    forall tenant ensures Verified(h, TenantRows(Inserted(h, t, e, pick), tenant)) {
      assert Verified(h, TenantRows(t, tenant));
      AppendLater(t, row, tenant);
      if tenant == e.tenant { VerifiedSnoc(h, TenantRows(t, tenant), row); }
    }
  }

  lemma EmptyLog(h: Hasher)
    ensures AllVerified(h, map[]) && NoTies(map[])
  {
  }

  datatype Insertion = Insertion(event: Event, pick: Option<Key>)

  /** The table that a sequence of serial inserts into an empty log leaves, if every pick is
      one the trigger's query may return and every time is later than its tenant's last. */
  ghost function Replay(h: Hasher, inputs: seq<Insertion>): (r: Option<AuditTable>)
    ensures r.Some? ==> Keyed(r.value)
  {
    if inputs == [] then Some(map[])
    else
      var n := |inputs| - 1;
      var before := Replay(h, inputs[..n]);
      var (e, pick) := (inputs[n].event, inputs[n].pick);
      if before.Some? && EventKey(e) !in before.value && StrictlyLater(before.value, e)
         && IsLatest(before.value, e.tenant, pick)
      then Some(Inserted(h, before.value, e, pick))
      else None
  }

  /** Over any interleaving of tenants whose times strictly increase per tenant, the trigger
      builds one verified chain for every tenant. */
  lemma {:induction false} ReplayVerified(h: Hasher, inputs: seq<Insertion>)
    requires Replay(h, inputs).Some?
    ensures AllVerified(h, Replay(h, inputs).value) && NoTies(Replay(h, inputs).value)
  {
    if inputs == [] {
      EmptyLog(h);
    } else {
      var n := |inputs| - 1;
      ReplayVerified(h, inputs[..n]);
      InsertKeepsChains(h, Replay(h, inputs[..n]).value, inputs[n].event, inputs[n].pick);
    }
  }

  /** The incremental chains are the batch chains: the backfill leaves such a log alone. */
  lemma TriggerAgreesWithBackfill(h: Hasher, inputs: seq<Insertion>, after: AuditTable)
    requires Replay(h, inputs).Some?
    ensures IsBackfill(h, Replay(h, inputs).value, after) <==> after == Replay(h, inputs).value
  {
    var t := Replay(h, inputs).value;
    ReplayVerified(h, inputs);
    BackfillFixedPoints(h, t);
    if IsBackfill(h, t, after) {
      BackfillDetermined(h, t, t, t, after);
    }
  }

  // ---------------------------------------------------------------- insert, then backfill

  /** The rebuilt table with a later row at the end of its tenant's chain. */
  ghost function Extended(h: Hasher, rebuilt: AuditTable, e: Event): AuditTable
    requires Keyed(rebuilt)
  {
    rebuilt[EventKey(e) := NewRow(h, Head(TenantRows(rebuilt, e.tenant)), e)]
  }

  lemma LaterThanRebuilt(h: Hasher, t: AuditTable, rebuilt: AuditTable, e: Event)
    requires Keyed(t) && IsBackfill(h, t, rebuilt) && StrictlyLater(t, e)
    ensures StrictlyLater(rebuilt, e)
  {
  }

  lemma ExtendedRows(h: Hasher, t: AuditTable, rebuilt: AuditTable, row: AuditRow, tenant: Uuid)
    requires Keyed(t) && EventKey(row.event) !in t && StrictlyLater(t, row.event) && row.archivedAt.None?
    requires IsBackfill(h, t, rebuilt)
    ensures Keyed(t[EventKey(row.event) := row]) && Keyed(Extended(h, rebuilt, row.event))
    ensures TenantRows(Extended(h, rebuilt, row.event), tenant)
         == Rehash(h, TenantRows(t[EventKey(row.event) := row], tenant))
  {
    LaterThanRebuilt(h, t, rebuilt, row.event);
    AppendLater(rebuilt, NewRow(h, Head(TenantRows(rebuilt, row.event.tenant)), row.event), tenant);
    AppendLater(t, row, tenant);
    RehashSnoc(h, TenantRows(t, tenant), row);
  }

  lemma ExtendedIsBackfill(h: Hasher, t: AuditTable, rebuilt: AuditTable, row: AuditRow)
    requires Keyed(t) && EventKey(row.event) !in t && StrictlyLater(t, row.event) && row.archivedAt.None?
    requires IsBackfill(h, t, rebuilt)
    ensures Keyed(t[EventKey(row.event) := row])
    ensures IsBackfill(h, t[EventKey(row.event) := row], Extended(h, rebuilt, row.event))
  {
    var theirs := t[EventKey(row.event) := row];
    var mine := Extended(h, rebuilt, row.event);
    forall k | k in theirs ensures SameData(mine[k], theirs[k]) {
      assert k in t ==> SameData(rebuilt[k], t[k]);
    }
    forall tenant ensures TenantRows(mine, tenant) == Rehash(h, TenantRows(theirs, tenant)) {
      ExtendedRows(h, t, rebuilt, row, tenant);
    }
  }

  /** What insert-then-backfill leaves: the rebuilt table with the new row at the end. */
  lemma BackfillAfterInsert(h: Hasher, t: AuditTable, rebuilt: AuditTable, e: Event,
                            pick: Option<Key>, both: AuditTable)
    requires Keyed(t) && EventKey(e) !in t && StrictlyLater(t, e)
    requires IsLatest(t, e.tenant, pick)
    requires IsBackfill(h, t, rebuilt)
    requires IsBackfill(h, Inserted(h, t, e, pick), both)
    ensures both == Extended(h, rebuilt, e)
  {
    ExtendedIsBackfill(h, t, rebuilt, NewRow(h, PickedHash(t, pick), e));
    var theirs := Inserted(h, t, e, pick);
    BackfillDetermined(h, theirs, theirs, Extended(h, rebuilt, e), both);
  }

  // ---------------------------------------------------------------- when an insert keeps the chain

  /** The picked row carries the hash of the row before the new one's place, and if the place
      is not at the end, the new row's own hash is that hash again. */
  ghost predicate KeepsChain(h: Hasher, t: AuditTable, e: Event, pick: Option<Key>)
    requires Keyed(t) && (pick.Some? ==> pick.value in t)
  {
    var (rows, p, previous) := (TenantRows(t, e.tenant), PlaceOf(t, e), PickedHash(t, pick));
    previous == Head(rows[..p]) && (p < |rows| ==> Some(h(previous, e)) == previous)
  }

  /** Exactly when the tenant's chain verifies after an insert, at whatever time: the rows
      before its place verify, the trigger linked to the last of them, and the rows after it
      are linked to the new one. */
  lemma InsertVerifiedIff(h: Hasher, t: AuditTable, e: Event, pick: Option<Key>)
    requires Keyed(t) && EventKey(e) !in t && (pick.Some? ==> pick.value in t)
    ensures
      var (rows, p, previous) := (TenantRows(t, e.tenant), PlaceOf(t, e), PickedHash(t, pick));
      Verified(h, TenantRows(Inserted(h, t, e, pick), e.tenant)) <==>
        Verified(h, rows[..p]) && previous == Head(rows[..p]) && LinkedFrom(h, Some(h(previous, e)), rows[p..])
  {
    var (rows, p) := (TenantRows(t, e.tenant), PlaceOf(t, e));
    var row := NewRow(h, PickedHash(t, pick), e);
    InsertsAt(t, row, e.tenant);
    VerifiedInsert(h, rows[..p], row, rows[p..]);
  }

  /** A chain that verified before verifies with a new row exactly if the row is linked to the
      one before its place, and has that one's hash itself if others come after it. */
  lemma VerifiedWithRow(h: Hasher, t: AuditTable, row: AuditRow)
    requires Keyed(t) && EventKey(row.event) !in t && HashVerifies(h, row)
    requires Verified(h, TenantRows(t, row.event.tenant))
    ensures Keyed(t[EventKey(row.event) := row])
    ensures
      var (rows, p) := (TenantRows(t, row.event.tenant), PlaceOf(t, row.event));
      Verified(h, TenantRows(t[EventKey(row.event) := row], row.event.tenant)) <==>
        row.previousHash == Head(rows[..p]) && (p < |rows| ==> row.currentHash == row.previousHash)
  {
    InsertsAt(t, row, row.event.tenant);
    VerifiedInsertInto(h, TenantRows(t, row.event.tenant), PlaceOf(t, row.event), row);
  }

  /** So it is with an insert. */
  lemma VerifiedAfterInsert(h: Hasher, t: AuditTable, e: Event, pick: Option<Key>)
    requires Keyed(t) && EventKey(e) !in t && (pick.Some? ==> pick.value in t)
    requires Verified(h, TenantRows(t, e.tenant))
    ensures Verified(h, TenantRows(Inserted(h, t, e, pick), e.tenant)) <==> KeepsChain(h, t, e, pick)
  {
    VerifiedWithRow(h, t, NewRow(h, PickedHash(t, pick), e));
  }

  /** All rows with the tenant's latest time carry one hash. */
  ghost predicate OneLatestHash(t: AuditTable, tenant: Uuid) {
    forall a, b | IsLatest(t, tenant, Some(a)) && IsLatest(t, tenant, Some(b)) :: t[a].currentHash == t[b].currentHash
  }

  ghost predicate EveryPickVerifies(h: Hasher, t: AuditTable, e: Event)
    requires Keyed(t)
  {
    forall pick | IsLatest(t, e.tenant, pick) :: Verified(h, TenantRows(Inserted(h, t, e, pick), e.tenant))
  }

  /** The query may return the chain's end; if all it may return carry one hash, it is that of
      the end. */
  lemma LatestCarryHead(t: AuditTable, tenant: Uuid)
    requires Keyed(t)
    ensures exists pick :: IsLatest(t, tenant, pick) && PickedHash(t, pick) == Head(TenantRows(t, tenant))
    ensures OneLatestHash(t, tenant) <==>
      forall pick | IsLatest(t, tenant, pick) :: PickedHash(t, pick) == Head(TenantRows(t, tenant))
  {
    var l := Ordered(t, TenantKeys(t, tenant));
    var last := if l == [] then None else Some(l[|l| - 1]);
    LastIsLatest(t, tenant);
    assert IsLatest(t, tenant, last);
    if forall pick | IsLatest(t, tenant, pick) :: PickedHash(t, pick) == Head(TenantRows(t, tenant)) {
      forall k | IsLatest(t, tenant, Some(k)) ensures t[k].currentHash == Head(TenantRows(t, tenant)) {
        assert PickedHash(t, Some(k)) == Head(TenantRows(t, tenant));
      }
    }
  }

  lemma EveryPickKeepsIff(h: Hasher, t: AuditTable, e: Event)
    requires Keyed(t)
    ensures
      var (rows, p) := (TenantRows(t, e.tenant), PlaceOf(t, e));
      (forall pick | IsLatest(t, e.tenant, pick) :: KeepsChain(h, t, e, pick)) <==>
        && OneLatestHash(t, e.tenant)
        && (p == |rows| || (Head(rows[..p]) == Head(rows) && Some(h(Head(rows), e)) == Head(rows)))
  {
    var (rows, p) := (TenantRows(t, e.tenant), PlaceOf(t, e));
    LatestCarryHead(t, e.tenant);
    assert rows[..|rows|] == rows;
    var last :| IsLatest(t, e.tenant, last) && PickedHash(t, last) == Head(rows);
    if forall pick | IsLatest(t, e.tenant, pick) :: KeepsChain(h, t, e, pick) {
      assert KeepsChain(h, t, e, last);
      forall pick | IsLatest(t, e.tenant, pick) ensures PickedHash(t, pick) == Head(rows[..p]) {
        assert KeepsChain(h, t, e, pick);
      }
    }
  }

  /** What can be told before the insert: a chain that verifies is sure to verify after it,
      whichever row the trigger's query returns, exactly if the latest rows carry one hash and
      the new row comes last; or comes earlier, and the row before its place carries that hash
      too, and so would the new row. */
  lemma EveryPickVerifiesIff(h: Hasher, t: AuditTable, e: Event)
    requires Keyed(t) && EventKey(e) !in t && Verified(h, TenantRows(t, e.tenant))
    ensures
      var (rows, p) := (TenantRows(t, e.tenant), PlaceOf(t, e));
      EveryPickVerifies(h, t, e) <==>
        && OneLatestHash(t, e.tenant)
        && (p == |rows| || (Head(rows[..p]) == Head(rows) && Some(h(Head(rows), e)) == Head(rows)))
  {
    EveryPickKeepsIff(h, t, e);
    forall pick | IsLatest(t, e.tenant, pick)
      ensures Verified(h, TenantRows(Inserted(h, t, e, pick), e.tenant)) <==> KeepsChain(h, t, e, pick)
    {
      VerifiedAfterInsert(h, t, e, pick);
    }
  }

  // ---------------------------------------------------------------- changing places

  lemma BackfillOfSameData(h: Hasher, t: AuditTable, u: AuditTable, after: AuditTable)
    requires Keyed(t) && Keyed(u) && t.Keys == u.Keys && forall k | k in t :: SameData(u[k], t[k])
    requires IsBackfill(h, t, after)
    ensures IsBackfill(h, u, after)
  {
    forall tenant ensures TenantRows(after, tenant) == Rehash(h, TenantRows(u, tenant)) {
      SameDataRows(t, u, tenant);
      RehashIgnoresHashes(h, TenantRows(u, tenant), TenantRows(t, tenant));
    }
  }

  lemma InsertLeavesOthers(h: Hasher, t: AuditTable, e: Event, pick: Option<Key>)
    requires Keyed(t) && EventKey(e) !in t && (pick.Some? ==> pick.value in t) && AllVerified(h, t)
    ensures AllVerified(h, Inserted(h, t, e, pick)) <==> KeepsChain(h, t, e, pick)
  {
    assert Verified(h, TenantRows(t, e.tenant));
    VerifiedAfterInsert(h, t, e, pick);
    forall tenant | tenant != e.tenant ensures Verified(h, TenantRows(Inserted(h, t, e, pick), tenant)) {
      assert Verified(h, TenantRows(t, tenant));
      InsertsAt(t, NewRow(h, PickedHash(t, pick), e), tenant);
    }
  }

  /** From any table and for an event of any time, backfill then insert equals insert then
      backfill exactly if the insert keeps the rebuilt chain. */
  lemma InsertCommutesWithBackfill(h: Hasher, t: AuditTable, rebuilt: AuditTable, e: Event,
                                   pickBefore: Option<Key>, pickAfter: Option<Key>, both: AuditTable)
    requires Keyed(t) && EventKey(e) !in t
    requires IsLatest(t, e.tenant, pickBefore)
    requires IsBackfill(h, t, rebuilt) && IsLatest(rebuilt, e.tenant, pickAfter)
    requires IsBackfill(h, Inserted(h, t, e, pickBefore), both)
    ensures Inserted(h, rebuilt, e, pickAfter) == both <==> KeepsChain(h, rebuilt, e, pickAfter)
  {
    var (theirs, mine) := (Inserted(h, t, e, pickBefore), Inserted(h, rebuilt, e, pickAfter));
    BackfillRepairs(h, t, rebuilt);
    InsertLeavesOthers(h, rebuilt, e, pickAfter);
    InsertedSameData(h, t, rebuilt, e, pickBefore, pickAfter);
    BackfillOfSameData(h, theirs, mine, both);
    OwnBackfillIff(h, mine, both);
  }

  lemma InsertedSameData(h: Hasher, t: AuditTable, rebuilt: AuditTable, e: Event,
                         pickBefore: Option<Key>, pickAfter: Option<Key>)
    requires Keyed(t) && IsBackfill(h, t, rebuilt)
    requires IsLatest(t, e.tenant, pickBefore) && IsLatest(rebuilt, e.tenant, pickAfter)
    ensures var (theirs, mine) := (Inserted(h, t, e, pickBefore), Inserted(h, rebuilt, e, pickAfter));
      && Keyed(theirs) && Keyed(mine) && theirs.Keys == mine.Keys
      && forall k | k in theirs :: SameData(mine[k], theirs[k])
  {
  }

  lemma OwnBackfillIff(h: Hasher, t: AuditTable, after: AuditTable)
    requires Keyed(t) && IsBackfill(h, t, after)
    ensures t == after <==> AllVerified(h, t)
  {
    BackfillFixedPoints(h, t);
    if AllVerified(h, t) { BackfillDetermined(h, t, t, after, t); }
  }

  /** It always does if the event is later than its tenant's rows and their latest time is not
      shared. */
  lemma InsertCommutesWithoutTie(h: Hasher, t: AuditTable, rebuilt: AuditTable, e: Event,
                                 pickBefore: Option<Key>, pickAfter: Option<Key>, both: AuditTable)
    requires Keyed(t) && EventKey(e) !in t && StrictlyLater(t, e) && NoTie(t, e.tenant)
    requires IsLatest(t, e.tenant, pickBefore)
    requires IsBackfill(h, t, rebuilt) && IsLatest(rebuilt, e.tenant, pickAfter)
    requires IsBackfill(h, Inserted(h, t, e, pickBefore), both)
    ensures Inserted(h, rebuilt, e, pickAfter) == both
  {
    InsertCommutesWithBackfill(h, t, rebuilt, e, pickBefore, pickAfter, both);
    LaterThanRebuilt(h, t, rebuilt, e);
    PlaceIsLast(rebuilt, e);
    forall k | IsLatest(rebuilt, e.tenant, Some(k)) ensures IsLatest(t, e.tenant, Some(k)) {
      forall x | x in t && x.tenant == e.tenant ensures t[x].event.at <= t[k].event.at {
        assert SameData(rebuilt[x], t[x]) && SameData(rebuilt[k], t[k]);
      }
    }
    PickIsHead(rebuilt, e.tenant, pickAfter);
    var rows := TenantRows(rebuilt, e.tenant);
    assert rows[..|rows|] == rows;
  }

  // ---------------------------------------------------------------- ties

  lemma ThreeRows(t: AuditTable, a: Key, b: Key, c: Key)
    requires Keyed(t) && t.Keys == {a, b, c} && a.tenant == b.tenant == c.tenant
    requires EventBefore(t[a].event, t[b].event) && EventBefore(t[b].event, t[c].event)
    ensures TenantRows(t, a.tenant) == [t[a], t[b], t[c]]
  {
    var ks := TenantKeys(t, a.tenant);
    ListsUnique(t, ks, [a, b, c], Ordered(t, ks));
  }

  /** Three linked rows of which the third skips the second. */
  lemma SkippedLink(h: Hasher, rows: seq<AuditRow>)
    requires |rows| == 3
    requires rows[0] == Link(h, None, rows[0])
    requires rows[1] == Link(h, rows[0].currentHash, rows[1])
    requires rows[2] == Link(h, rows[0].currentHash, rows[2])
    ensures Verified(h, rows) <==> rows[0].currentHash == rows[1].currentHash
  {
  }

  /** The log after three inserts of which the first two tie and the third picks the first. */
  function ForkedLog(h: Hasher, a: Event, b: Event, c: Event): (t: AuditTable)
    requires EventKey(a) != EventKey(b)
    ensures t.Keys == {EventKey(a), EventKey(b), EventKey(c)} && Keyed(t)
  {
    var t2 := Inserted(h, Inserted(h, map[], a, None), b, Some(EventKey(a)));
    Inserted(h, t2, c, Some(EventKey(a)))
  }

  /** A tie can fork a chain: after two rows with one time, the query may return the first of
      them, and a third row linked to it leaves a chain that verifies only if the two have one
      hash. */
  lemma TieForksChain(h: Hasher, a: Event, b: Event, c: Event)
    requires a.tenant == b.tenant == c.tenant && a.at == b.at && b.at < c.at
    requires a.id < b.id && a.id != c.id && b.id != c.id
    ensures var one := Inserted(h, map[], a, None);
      && IsLatest(map[], a.tenant, None) && IsLatest(one, b.tenant, Some(EventKey(a)))
      && IsLatest(Inserted(h, one, b, Some(EventKey(a))), c.tenant, Some(EventKey(a)))
    ensures var t := ForkedLog(h, a, b, c);
      Verified(h, TenantRows(t, c.tenant)) <==> t[EventKey(a)].currentHash == t[EventKey(b)].currentHash
  {
    var t := ForkedLog(h, a, b, c);
    ThreeRows(t, EventKey(a), EventKey(b), EventKey(c));
    SkippedLink(h, [t[EventKey(a)], t[EventKey(b)], t[EventKey(c)]]);
  }
}
