/**
 Chains of audit rows: each row carries the hash of the row before it and its own hash.
 Everything here holds for any hash function of a previous hash and an event; TamperEvidence
 instantiates it with the database's own.
 */
module AuditChain {
  import opened Schema

  /** The columns an insert provides. */
  datatype Event = Event(
    tenant: Uuid,
    id: Uuid,
    actor: Option<Uuid>,
    action: string,
    resourceType: string,
    resourceId: Option<Uuid>,
    ip: Option<string>,
    userAgent: Option<string>,
    at: int)

  /** A row of `audit_log`. */
  datatype AuditRow = AuditRow(
    event: Event,
    previousHash: Option<string>,
    currentHash: Option<string>,
    archivedAt: Option<int>)

  /** compute_audit_log_hash, which sees no column that is not in its arguments. */
  type Hasher = (Option<string>, Event) -> string

  /** Sets the two hash columns, as the trigger and the backfill do. */
  function Link(h: Hasher, previous: Option<string>, row: AuditRow): AuditRow {
    row.(previousHash := previous, currentHash := Some(h(previous, row.event)))
  }

  /** The hash a new row would be linked to. */
  function Head(rows: seq<AuditRow>): Option<string> {
    if rows == [] then None else rows[|rows| - 1].currentHash
  }

  /** The row's own hash is the one its columns give. */
  predicate HashVerifies(h: Hasher, row: AuditRow) {
    row.currentHash == Some(h(row.previousHash, row.event))
  }

  /** What an auditor checks: the first row starts from null, every other row names its
      predecessor's hash, and every hash is the one its row's columns give. */
  ghost predicate Verified(h: Hasher, rows: seq<AuditRow>) {
    forall i | 0 <= i < |rows| ::
      rows[i].previousHash == Head(rows[..i]) && HashVerifies(h, rows[i])
  }

  /** Equality in all columns but the two hashes. */
  predicate SameData(a: AuditRow, b: AuditRow) {
    a.event == b.event && a.archivedAt == b.archivedAt
  }

  lemma VerifiedPrefix(h: Hasher, rows: seq<AuditRow>, n: nat)
    requires Verified(h, rows) && n <= |rows|
    ensures Verified(h, rows[..n])
  {
  }

  /** A chain grows by rows linked to its head, and in no other way. */
  lemma VerifiedSnoc(h: Hasher, rows: seq<AuditRow>, row: AuditRow)
    ensures Verified(h, rows + [row]) <==>
      Verified(h, rows) && row.previousHash == Head(rows) && HashVerifies(h, row)
  {
    var all := rows + [row];
    if Verified(h, all) {
      VerifiedPrefix(h, all, |rows|);
      assert all[..|rows|] == rows && all[|rows|] == row;
    }
    if Verified(h, rows) && row.previousHash == Head(rows) && HashVerifies(h, row) {
      forall i | 0 <= i < |all|
        ensures all[i].previousHash == Head(all[..i]) && HashVerifies(h, all[i])
      {
        assert i < |rows| ==> all[i] == rows[i] && all[..i] == rows[..i];
        assert i == |rows| ==> all[..i] == rows;
      }
    }
  }

  /** The hash that a row after these would be linked to, if they follow a row with this one. */
  function HeadAfter(previous: Option<string>, rows: seq<AuditRow>): Option<string> {
    if rows == [] then previous else rows[|rows| - 1].currentHash
  }

  /** The part of a chain that follows a row with this hash. */
  ghost predicate LinkedFrom(h: Hasher, previous: Option<string>, rows: seq<AuditRow>) {
    forall i | 0 <= i < |rows| ::
      rows[i].previousHash == HeadAfter(previous, rows[..i]) && HashVerifies(h, rows[i])
  }

  lemma JoinAt(a: seq<AuditRow>, b: seq<AuditRow>, i: nat)
    requires i < |b|
    ensures (a + b)[|a| + i] == b[i] && Head((a + b)[..|a| + i]) == HeadAfter(Head(a), b[..i])
  {
    assert (a + b)[..|a| + i] == a + b[..i];
  }

  /** Two parts make a chain exactly if the first is one and the second goes on from its head. */
  lemma VerifiedJoin(h: Hasher, a: seq<AuditRow>, b: seq<AuditRow>)
    ensures Verified(h, a + b) <==> Verified(h, a) && LinkedFrom(h, Head(a), b)
  {
    var all := a + b;
    if Verified(h, all) {
      VerifiedPrefix(h, all, |a|);
      assert all[..|a|] == a;
      forall i | 0 <= i < |b| ensures b[i].previousHash == HeadAfter(Head(a), b[..i]) && HashVerifies(h, b[i]) {
        JoinAt(a, b, i);
      }
    }
    if Verified(h, a) && LinkedFrom(h, Head(a), b) { JoinVerifies(h, a, b); }
  }

  lemma JoinVerifies(h: Hasher, a: seq<AuditRow>, b: seq<AuditRow>)
    requires Verified(h, a) && LinkedFrom(h, Head(a), b)
    ensures Verified(h, a + b)
  {
    var all := a + b;
    forall i | 0 <= i < |all| ensures all[i].previousHash == Head(all[..i]) && HashVerifies(h, all[i]) {
      if i < |a| {
        assert all[i] == a[i] && all[..i] == a[..i];
      } else {
        JoinAt(a, b, i - |a|);
      }
    }
  }

  /** A row put between two parts: both must be linked to it, as it is to the first. */
  lemma VerifiedInsert(h: Hasher, a: seq<AuditRow>, row: AuditRow, b: seq<AuditRow>)
    ensures Verified(h, a + [row] + b) <==>
      Verified(h, a) && row.previousHash == Head(a) && HashVerifies(h, row) && LinkedFrom(h, row.currentHash, b)
  {
    VerifiedJoin(h, a + [row], b);
    VerifiedSnoc(h, a, row);
  }

  /** In a chain that verified before, a row can come in the middle only with the hash of the
      row that it is linked to: what follows is linked to that one. */
  lemma VerifiedInsertInto(h: Hasher, rows: seq<AuditRow>, p: nat, row: AuditRow)
    requires Verified(h, rows) && p <= |rows| && HashVerifies(h, row)
    ensures Verified(h, rows[..p] + [row] + rows[p..]) <==>
      row.previousHash == Head(rows[..p]) && (p < |rows| ==> row.currentHash == row.previousHash)
  {
    var (a, b) := (rows[..p], rows[p..]);
    assert rows == a + b;
    VerifiedJoin(h, a, b);
    VerifiedInsert(h, a, row, b);
    if p < |rows| {
      assert b[0].previousHash == HeadAfter(Head(a), b[..0]);
      forall previous ensures LinkedFrom(h, previous, b) ==> previous == b[0].previousHash {
        if LinkedFrom(h, previous, b) { assert b[0].previousHash == HeadAfter(previous, b[..0]); }
      }
    }
  }

  // ---------------------------------------------------------------- rebuilding a chain

  /** The fold a backfill performs on one tenant's rows: link each row to the one before. */
  function Rehash(h: Hasher, rows: seq<AuditRow>): (r: seq<AuditRow>)
    ensures |r| == |rows|
  {
    if rows == [] then []
    else
      var n := |rows| - 1;
      var init := Rehash(h, rows[..n]);
      init + [Link(h, Head(init), rows[n])]
  }

  lemma RehashSnoc(h: Hasher, rows: seq<AuditRow>, row: AuditRow)
    ensures var init := Rehash(h, rows); Rehash(h, rows + [row]) == init + [Link(h, Head(init), row)]
  {
  }

  /** Rebuilding makes a verified chain of any rows, and touches nothing but the hashes. */
  lemma {:induction false} RehashVerified(h: Hasher, rows: seq<AuditRow>)
    ensures Verified(h, Rehash(h, rows))
    ensures forall i | 0 <= i < |rows| :: SameData(Rehash(h, rows)[i], rows[i])
  {
    if rows == [] {
    } else {
      var n := |rows| - 1;
      var init := Rehash(h, rows[..n]);
      RehashVerified(h, rows[..n]);
      VerifiedSnoc(h, init, Link(h, Head(init), rows[n]));
      forall i | 0 <= i < |rows| ensures SameData(Rehash(h, rows)[i], rows[i]) {
        assert i < n ==> SameData(init[i], rows[..n][i]);
      }
    }
  }

  /** A chain verifies exactly if rebuilding it changes nothing. */
  lemma {:induction false} VerifiedIffRehashFixed(h: Hasher, rows: seq<AuditRow>)
    ensures Verified(h, rows) <==> Rehash(h, rows) == rows
  {
    if rows == [] {
    } else {
      var n := |rows| - 1;
      VerifiedIffRehashFixed(h, rows[..n]);
      assert rows == rows[..n] + [rows[n]];
      VerifiedSnoc(h, rows[..n], rows[n]);
      if Rehash(h, rows) == rows {
        assert Rehash(h, rows[..n]) == rows[..n];
      }
    }
  }

  /** The hashes a row had before do not matter. */
  lemma {:induction false} RehashIgnoresHashes(h: Hasher, a: seq<AuditRow>, b: seq<AuditRow>)
    requires |a| == |b| && forall i | 0 <= i < |a| :: SameData(a[i], b[i])
    ensures Rehash(h, a) == Rehash(h, b)
  {
    if a == [] {
    } else {
      var n := |a| - 1;
      RehashIgnoresHashes(h, a[..n], b[..n]);
      assert SameData(a[n], b[n]);
    }
  }
}
