/**
 What the head hash of a chain says about its rows when the hash function is the database's:
 SHA-256 over the joined columns. The digest is any function into 64 hexadecimal characters
 and is nowhere assumed to be injective; the alternative to every conclusion is a collision,
 and the colliding texts are computed.
 */
module TamperEvidence {
  import opened Schema
  import opened AuditPreimage
  import opened UuidText
  import opened AuditChain

  /** The database's own functions: sha256 in hexadecimal, and the text of a timestamp
      under one fixed time zone and style. */
  datatype Platform = Platform(digest: string -> string, stamp: int -> string)

  /** What is assumed of them: the digest's form, the timestamp's form, and that no two
      timestamps have the same text. */
  ghost predicate Sound(p: Platform) {
    && (forall s :: IsHash(p.digest(s)))
    && (forall i :: IsStamp(p.stamp(i)))
    && (forall i, j :: p.stamp(i) == p.stamp(j) ==> i == j)
  }

  function FieldsOf(p: Platform, previous: Option<string>, e: Event): Fields {
    Fields(previous, e.tenant, e.actor, e.action, e.resourceType, e.resourceId, p.stamp(e.at))
  }

  /** The text hashed for an event after `previous`. */
  function Preimage(p: Platform, previous: Option<string>, e: Event): string {
    Encode(FieldsOf(p, previous, e))
  }

  /** compute_audit_log_hash */
  function ComputeAuditLogHash(p: Platform): Hasher {
    (previous: Option<string>, e: Event) => p.digest(Preimage(p, previous, e))
  }

  /** What is hashed for a row that the application writes: the seven columns in their order,
      an absent one being empty, and every one of them can be read back from the text. */
  lemma HashedText(p: Platform, previous: Option<string>, e: Event) returns (text: string)
    requires Sound(p) && (previous.Some? ==> IsHash(previous.value)) && IsWritten(e.action, e.resourceType)
    ensures ComputeAuditLogHash(p)(previous, e) == p.digest(text)
    ensures text == Coalesce(previous) + (Text(e.tenant) + (CoalesceUuid(e.actor) + (e.action + (e.resourceType
      + (CoalesceUuid(e.resourceId) + p.stamp(e.at))))))
    ensures Parse(text).Some?
    ensures var f := Parse(text).value;
      && f.previous == previous && f.tenant == e.tenant && f.actor == e.actor && f.action == e.action
      && f.resourceType == e.resourceType && f.resourceId == e.resourceId && f.stamp == p.stamp(e.at)
  {
    text := Preimage(p, previous, e);
    ParseEncode(FieldsOf(p, previous, e));
  }

  function RowPreimage(p: Platform, row: AuditRow): string {
    Preimage(p, row.previousHash, row.event)
  }

  /** Equality in the hashed columns and the hashes: the row's id, address, user agent and
      archive mark are not covered by the chain. */
  predicate SameRecord(a: AuditRow, b: AuditRow) {
    && a.event == b.event.(id := a.event.id, ip := a.event.ip, userAgent := a.event.userAgent)
    && a.previousHash == b.previousHash
    && a.currentHash == b.currentHash
  }

  ghost predicate SameRecords(a: seq<AuditRow>, b: seq<AuditRow>) {
    |a| == |b| && forall i | 0 <= i < |a| :: SameRecord(a[i], b[i])
  }

  ghost predicate AllWritten(rows: seq<AuditRow>) {
    forall i | 0 <= i < |rows| :: IsWritten(rows[i].event.action, rows[i].event.resourceType)
  }

  /** Walks two chains back from their heads to the first pair of rows that hash different
      texts. */
  function Collision(p: Platform, a: seq<AuditRow>, b: seq<AuditRow>): (string, string)
    requires a != [] && b != []
  {
    var pair := (RowPreimage(p, a[|a| - 1]), RowPreimage(p, b[|b| - 1]));
    if pair.0 != pair.1 || |a| == 1 || |b| == 1 then pair
    else Collision(p, a[..|a| - 1], b[..|b| - 1])
  }

  /** Rows of the application that hash the same text are the same record. */
  lemma SamePreimage(p: Platform, x: AuditRow, y: AuditRow)
    requires Sound(p)
    requires x.previousHash.Some? ==> IsHash(x.previousHash.value)
    requires y.previousHash.Some? ==> IsHash(y.previousHash.value)
    requires IsWritten(x.event.action, x.event.resourceType) && IsWritten(y.event.action, y.event.resourceType)
    requires x.currentHash == y.currentHash
    requires RowPreimage(p, x) == RowPreimage(p, y)
    ensures SameRecord(x, y)
  {
    EncodeInjective(FieldsOf(p, x.previousHash, x.event), FieldsOf(p, y.previousHash, y.event));
  }

  /** What verification says of the last row. */
  lemma VerifiedLast(p: Platform, rows: seq<AuditRow>)
    requires Sound(p) && rows != [] && Verified(ComputeAuditLogHash(p), rows)
    ensures var n := |rows| - 1;
      && Verified(ComputeAuditLogHash(p), rows[..n])
      && rows[n].previousHash == Head(rows[..n])
      && rows[n].currentHash == Some(p.digest(RowPreimage(p, rows[n])))
      && (rows[n].previousHash.Some? <==> n > 0)
      && (n > 0 ==> IsHash(rows[n].previousHash.value))
  {
    var n := |rows| - 1;
    var h := ComputeAuditLogHash(p);
    VerifiedPrefix(h, rows, n);
    assert HashVerifies(h, rows[n]);
    if n > 0 {
      assert HashVerifies(h, rows[n - 1]);
      assert rows[n].previousHash == Some(p.digest(RowPreimage(p, rows[n - 1])));
    }
  }

  lemma SameRecordsSnoc(a: seq<AuditRow>, b: seq<AuditRow>)
    requires a != [] && b != []
    requires SameRecords(a[..|a| - 1], b[..|b| - 1])
    requires SameRecord(a[|a| - 1], b[|b| - 1])
    ensures SameRecords(a, b)
  {
  }

  /** Two verified chains of any lengths with the same head hash hold the same records in the
      same order, or the two texts `Collision` finds are different and have one digest. */
  lemma {:induction false} TamperEvidence(p: Platform, a: seq<AuditRow>, b: seq<AuditRow>)
    requires Sound(p)
    requires a != [] && b != []
    requires Verified(ComputeAuditLogHash(p), a) && Verified(ComputeAuditLogHash(p), b)
    requires AllWritten(a) && AllWritten(b)
    requires Head(a) == Head(b)
    ensures
      var (x, y) := Collision(p, a, b);
      SameRecords(a, b) || (x != y && p.digest(x) == p.digest(y))
  {
    var n, m := |a| - 1, |b| - 1;
    VerifiedLast(p, a);
    VerifiedLast(p, b);
    if RowPreimage(p, a[n]) == RowPreimage(p, b[m]) {
      SamePreimage(p, a[n], b[m]);
      if n > 0 && m > 0 {
        TamperEvidence(p, a[..n], b[..m]);
      }
      if SameRecords(a[..n], b[..m]) {
        SameRecordsSnoc(a, b);
      }
    }
  }

  lemma SameRecordVerifies(p: Platform, x: AuditRow, y: AuditRow)
    requires SameRecord(x, y)
    ensures HashVerifies(ComputeAuditLogHash(p), x) <==> HashVerifies(ComputeAuditLogHash(p), y)
  {
    assert FieldsOf(p, x.previousHash, x.event) == FieldsOf(p, y.previousHash, y.event);
    assert RowPreimage(p, x) == RowPreimage(p, y);
  }

  /** The chain protects nothing else: rows that agree in the covered columns verify alike. */
  lemma UncoveredColumns(p: Platform, a: seq<AuditRow>, b: seq<AuditRow>)
    requires SameRecords(a, b)
    ensures Verified(ComputeAuditLogHash(p), a) <==> Verified(ComputeAuditLogHash(p), b)
    ensures Head(a) == Head(b)
  {
    forall i | 0 <= i <= |a| ensures Head(a[..i]) == Head(b[..i]) {
      if i > 0 { assert SameRecord(a[i - 1], b[i - 1]); }
    }
    assert a[..|a|] == a && b[..|b|] == b;
    forall i | 0 <= i < |a|
      ensures a[i].previousHash == b[i].previousHash
      ensures HashVerifies(ComputeAuditLogHash(p), a[i]) <==> HashVerifies(ComputeAuditLogHash(p), b[i])
    {
      SameRecordVerifies(p, a[i], b[i]);
    }
  }

  /** No text of a row of `a` and different text of a row of `b` have one digest. */
  ghost predicate CollisionFree(p: Platform, a: seq<AuditRow>, b: seq<AuditRow>) {
    forall x, y | x in a && y in b ::
      p.digest(RowPreimage(p, x)) == p.digest(RowPreimage(p, y)) ==> RowPreimage(p, x) == RowPreimage(p, y)
  }

  /** The two texts are those of one row of each chain, equally far from the heads. */
  lemma {:induction false} CollisionOfRows(p: Platform, a: seq<AuditRow>, b: seq<AuditRow>)
    requires a != [] && b != []
    ensures exists x, y :: x in a && y in b && Collision(p, a, b) == (RowPreimage(p, x), RowPreimage(p, y))
  {
    var n, m := |a| - 1, |b| - 1;
    if Collision(p, a, b) == (RowPreimage(p, a[n]), RowPreimage(p, b[m])) {
      assert a[n] in a && b[m] in b;
    } else {
      CollisionOfRows(p, a[..n], b[..m]);
      var x, y :| x in a[..n] && y in b[..m]
        && Collision(p, a[..n], b[..m]) == (RowPreimage(p, x), RowPreimage(p, y));
      assert x in a && y in b;
    }
  }

  /** If the rows' texts do not collide, the head hash says exactly which records the chain
      holds, in which order. */
  lemma HeadIdentifiesChain(p: Platform, a: seq<AuditRow>, b: seq<AuditRow>)
    requires Sound(p)
    requires a != [] && b != []
    requires Verified(ComputeAuditLogHash(p), a) && Verified(ComputeAuditLogHash(p), b)
    requires AllWritten(a) && AllWritten(b)
    requires CollisionFree(p, a, b)
    ensures Head(a) == Head(b) <==> SameRecords(a, b)
  {
    if Head(a) == Head(b) {
      TamperEvidence(p, a, b);
      CollisionOfRows(p, a, b);
    }
    if SameRecords(a, b) { UncoveredColumns(p, a, b); }
  }
}
