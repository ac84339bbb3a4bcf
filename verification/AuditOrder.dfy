/**
 The audit table and its order: ORDER BY tenant_id, occurred_at, id. The primary key makes
 the order total, so a query has one answer, and each tenant's rows have one sequence.
 */
module AuditOrder {
  import opened Schema
  import opened AuditChain

  type AuditTable = map<Key, AuditRow>

  /** Rows sit under their own primary key. */
  ghost predicate Keyed(t: AuditTable) {
    forall k | k in t :: k.table == AuditLog && t[k].event.tenant == k.tenant && t[k].event.id == k.id
  }

  predicate EventBefore(a: Event, b: Event) {
    || a.tenant < b.tenant
    || (a.tenant == b.tenant && (a.at < b.at || (a.at == b.at && a.id < b.id)))
  }

  ghost predicate Sorted(t: AuditTable, l: seq<Key>)
    requires forall k | k in l :: k in t
  {
    forall i, j | 0 <= i < j < |l| :: EventBefore(t[l[i]].event, t[l[j]].event)
  }

  /** `l` lists the rows `ks` once each, in order. */
  ghost predicate Lists(t: AuditTable, ks: set<Key>, l: seq<Key>) {
    && (forall k :: k in l <==> k in ks)
    && ks <= t.Keys
    && Sorted(t, l)
  }

  lemma ListsInit(t: AuditTable, ks: set<Key>, l: seq<Key>)
    requires Lists(t, ks, l) && l != []
    ensures Lists(t, ks - {l[|l| - 1]}, l[..|l| - 1])
  {
  }

  lemma SameLast(t: AuditTable, ks: set<Key>, a: seq<Key>, b: seq<Key>)
    requires Lists(t, ks, a) && Lists(t, ks, b) && a != [] && b != []
    ensures a[|a| - 1] == b[|b| - 1]
  {
    var x, y := a[|a| - 1], b[|b| - 1];
    assert x in b && y in a;
    assert x != y ==> EventBefore(t[x].event, t[y].event);
    assert x != y ==> EventBefore(t[y].event, t[x].event);
  }

  /** There is only one such list. */
  lemma {:induction false} ListsUnique(t: AuditTable, ks: set<Key>, a: seq<Key>, b: seq<Key>)
    requires Lists(t, ks, a) && Lists(t, ks, b)
    ensures a == b
    decreases |a|
  {
    assert (|a| > 0 ==> a[0] in ks) && (|b| > 0 ==> b[0] in ks);
    if a == [] || b == [] {
    } else {
      var n, m := |a| - 1, |b| - 1;
      SameLast(t, ks, a, b);
      ListsInit(t, ks, a);
      ListsInit(t, ks, b);
      ListsUnique(t, ks - {a[n]}, a[..n], b[..m]);
      assert a == a[..n] + [a[n]] && b == b[..m] + [b[m]];
    }
  }

  ghost predicate IsLast(t: AuditTable, ks: set<Key>, last: Key)
    requires ks <= t.Keys
  {
    last in ks && forall k | k in ks && k != last :: EventBefore(t[k].event, t[last].event)
  }

  lemma {:induction false} LastExists(t: AuditTable, ks: set<Key>)
    requires Keyed(t) && ks <= t.Keys && ks != {}
    ensures exists last :: IsLast(t, ks, last)
  {
    var k0 :| k0 in ks;
    if ks == {k0} {
      assert IsLast(t, ks, k0);
    } else {
      LastExists(t, ks - {k0});
      var k1 :| IsLast(t, ks - {k0}, k1);
      if EventBefore(t[k0].event, t[k1].event) {
        assert IsLast(t, ks, k1);
      } else {
        assert forall k | k in ks && k != k0 && k != k1 :: EventBefore(t[k].event, t[k1].event);
        assert IsLast(t, ks, k0);
      }
    }
  }

  /** The list itself: SELECT ... ORDER BY. */
  ghost function Ordered(t: AuditTable, ks: set<Key>): (l: seq<Key>)
    requires Keyed(t) && ks <= t.Keys
    ensures Lists(t, ks, l)
  {
    if ks == {} then []
    else
      var last := LastOf(t, ks);
      Ordered(t, ks - {last}) + [last]
  }

  ghost function LastOf(t: AuditTable, ks: set<Key>): (last: Key)
    requires Keyed(t) && ks <= t.Keys && ks != {}
    ensures IsLast(t, ks, last)
  {
    LastExists(t, ks);
    var last :| IsLast(t, ks, last);
    last
  }

  function TenantKeys(t: AuditTable, tenant: Uuid): set<Key> {
    set k | k in t && k.tenant == tenant
  }

  function RowsAt(t: AuditTable, l: seq<Key>): (rows: seq<AuditRow>)
    requires forall k | k in l :: k in t
    ensures |rows| == |l|
  {
    seq(|l|, i requires 0 <= i < |l| => t[l[i]])
  }

  lemma RowsAtSnoc(t: AuditTable, l: seq<Key>, k: Key)
    requires k in t && forall x | x in l :: x in t
    ensures RowsAt(t, l + [k]) == RowsAt(t, l) + [t[k]]
  {
  }

  lemma RowsAtUntouched(t: AuditTable, l: seq<Key>, k: Key, row: AuditRow)
    requires k !in l && forall x | x in l :: x in t
    ensures RowsAt(t[k := row], l) == RowsAt(t, l)
  {
  }

  /** One tenant's rows in (occurred_at, id) order. */
  ghost function TenantRows(t: AuditTable, tenant: Uuid): seq<AuditRow>
    requires Keyed(t)
  {
    RowsAt(t, Ordered(t, TenantKeys(t, tenant)))
  }

  /** Two tables with the same keys and the same data list their rows in the same order. */
  lemma SameOrder(t: AuditTable, u: AuditTable, ks: set<Key>)
    requires Keyed(t) && Keyed(u) && ks <= t.Keys && ks <= u.Keys
    requires forall k | k in ks :: SameData(t[k], u[k])
    ensures Ordered(t, ks) == Ordered(u, ks)
  {
    var l := Ordered(t, ks);
    forall i, j | 0 <= i < j < |l| ensures EventBefore(u[l[i]].event, u[l[j]].event) {
      assert l[i] in ks && l[j] in ks;
    }
    ListsUnique(u, ks, l, Ordered(u, ks));
  }

  /** How many of the listed rows come before the event. */
  ghost function PlaceIn(t: AuditTable, l: seq<Key>, e: Event): (p: nat)
    requires forall k | k in l :: k in t
    ensures p <= |l|
  {
    if l == [] then 0
    else if EventBefore(t[l[|l| - 1]].event, e) then |l|
    else PlaceIn(t, l[..|l| - 1], e)
  }

  /** They are the first of the list; the others come after the event. */
  lemma {:induction false} PlaceSplits(t: AuditTable, l: seq<Key>, k: Key)
    requires Keyed(t) && k in t && k !in l && (forall x | x in l :: x in t) && Sorted(t, l)
    ensures var p := PlaceIn(t, l, t[k].event);
      && (forall i | 0 <= i < p :: EventBefore(t[l[i]].event, t[k].event))
      && (forall i | p <= i < |l| :: EventBefore(t[k].event, t[l[i]].event))
  {
    if l == [] {
    } else {
      var n := |l| - 1;
      assert l[n] in l;
      if EventBefore(t[l[n]].event, t[k].event) {
        assert forall i | 0 <= i < n :: EventBefore(t[l[i]].event, t[l[n]].event);
      } else {
        PlaceSplits(t, l[..n], k);
      }
    }
  }

  /** A new row is listed at its place, and the others as before. */
  lemma OrderedInsert(t: AuditTable, ks: set<Key>, k: Key)
    requires Keyed(t) && ks <= t.Keys && k in t && k !in ks
    ensures
      var l := Ordered(t, ks);
      var p := PlaceIn(t, l, t[k].event);
      Ordered(t, ks + {k}) == l[..p] + [k] + l[p..]
  {
    var l := Ordered(t, ks);
    var p := PlaceIn(t, l, t[k].event);
    PlaceSplits(t, l, k);
    SplicedIsListed(t, ks, l, p, k);
    ListsUnique(t, ks + {k}, l[..p] + [k] + l[p..], Ordered(t, ks + {k}));
  }

  lemma SplicedIsListed(t: AuditTable, ks: set<Key>, l: seq<Key>, p: nat, k: Key)
    requires Lists(t, ks, l) && p <= |l| && k in t
    requires forall i | 0 <= i < p :: EventBefore(t[l[i]].event, t[k].event)
    requires forall i | p <= i < |l| :: EventBefore(t[k].event, t[l[i]].event)
    ensures Lists(t, ks + {k}, l[..p] + [k] + l[p..])
  {
    var all := l[..p] + [k] + l[p..];
    assert l == l[..p] + l[p..];
    forall i, j | 0 <= i < j < |all| ensures EventBefore(t[all[i]].event, t[all[j]].event) {
      assert all[i] == if i < p then l[i] else if i == p then k else l[i - 1];
      assert all[j] == if j < p then l[j] else if j == p then k else l[j - 1];
    }
  }

  lemma JoinedLists(t: AuditTable, first: set<Key>, second: set<Key>, a: seq<Key>, b: seq<Key>)
    requires Lists(t, first, a) && Lists(t, second, b)
    requires forall x, y | x in first && y in second :: EventBefore(t[x].event, t[y].event)
    ensures Lists(t, first + second, a + b)
  {
    var l := a + b;
    forall i, j | 0 <= i < j < |l| ensures EventBefore(t[l[i]].event, t[l[j]].event) {
      if j < |a| {
        assert l[i] == a[i] && l[j] == a[j];
      } else if i < |a| {
        assert a[i] in a && b[j - |a|] in b;
      } else {
        assert l[i] == b[i - |a|] && l[j] == b[j - |a|];
      }
    }
  }

  /** A larger table lists some rows like a smaller one that has them. */
  lemma SameRows(t: AuditTable, u: AuditTable, ks: set<Key>)
    requires Keyed(t) && Keyed(u) && ks <= t.Keys && ks <= u.Keys && forall k | k in ks :: t[k] == u[k]
    ensures Ordered(t, ks) == Ordered(u, ks) && RowsAt(t, Ordered(t, ks)) == RowsAt(u, Ordered(u, ks))
  {
    SameOrder(t, u, ks);
    var l := Ordered(t, ks);
    forall i | 0 <= i < |l| ensures t[l[i]] == u[l[i]] {
      assert l[i] in l;
    }
  }

  lemma RowsAtAppend(t: AuditTable, a: seq<Key>, b: seq<Key>)
    requires forall k | k in a + b :: k in t
    ensures (forall k | k in a :: k in t) && (forall k | k in b :: k in t)
    ensures RowsAt(t, a + b) == RowsAt(t, a) + RowsAt(t, b)
  {
    forall k | k in a ensures k in a + b {}
    forall k | k in b ensures k in a + b {}
  }

  /** The tenant's rows of a table that is joined by later ones. */
  lemma JoinedRows(t: AuditTable, u: AuditTable, tenant: Uuid)
    requires Keyed(t) && Keyed(u) && t.Keys !! u.Keys
    requires forall a, b | a in t && b in u && a.tenant == b.tenant == tenant :: EventBefore(t[a].event, u[b].event)
    ensures Keyed(t + u) && TenantRows(t + u, tenant) == TenantRows(t, tenant) + TenantRows(u, tenant)
  {
    var (all, first, second) := (TenantKeys(t + u, tenant), TenantKeys(t, tenant), TenantKeys(u, tenant));
    assert all == first + second;
    SameRows(t, t + u, first);
    SameRows(u, t + u, second);
    var (a, b) := (Ordered(t + u, first), Ordered(t + u, second));
    JoinedLists(t + u, first, second, a, b);
    ListsUnique(t + u, all, a + b, Ordered(t + u, all));
    RowsAtAppend(t + u, a, b);
  }

  /** Tables that agree on a tenant's rows list them alike. */
  lemma SameTenantRows(t: AuditTable, u: AuditTable, tenant: Uuid)
    requires Keyed(t) && Keyed(u)
    requires forall k: Key | k.tenant == tenant :: (k in t <==> k in u) && (k in t ==> t[k] == u[k])
    ensures TenantRows(t, tenant) == TenantRows(u, tenant)
  {
    assert TenantKeys(t, tenant) == TenantKeys(u, tenant);
    SameRows(t, u, TenantKeys(t, tenant));
  }

  /** Equal sequences of rows for every tenant make equal tables. */
  lemma TenantRowsDetermine(t: AuditTable, u: AuditTable)
    requires Keyed(t) && Keyed(u) && t.Keys == u.Keys
    requires forall k | k in t :: SameData(t[k], u[k])
    requires forall tenant :: TenantRows(t, tenant) == TenantRows(u, tenant)
    ensures t == u
  {
    forall k | k in t ensures t[k] == u[k] {
      var ks := TenantKeys(t, k.tenant);
      assert ks == TenantKeys(u, k.tenant);
      SameOrder(t, u, ks);
      var l := Ordered(t, ks);
      assert k in ks && k in l;
      var i :| 0 <= i < |l| && l[i] == k;
      assert TenantRows(t, k.tenant)[i] == TenantRows(u, k.tenant)[i];
    }
  }
}
