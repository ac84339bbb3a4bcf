/**
 The text that `compute_audit_log_hash` feeds to SHA-256: seven columns joined without any
 separator, three of them nullable and then empty. `Encode` is that text, `Parse` reads it
 back, and the lemmas say on which rows nothing is lost.
 */
module AuditPreimage {
  import opened Schema
  import opened UuidText

  /** The hexadecimal text of a 256-bit digest. */
  predicate IsHash(h: string) {
    |h| == 64 && IsHex(h)
  }

  /** All that is used of a timestamp's text: its ninth character is no dash. In
      `2024-05-17 10:00:00+00` it is the first digit of the day. */
  predicate IsStamp(s: string) {
    |s| > 8 && s[8] != '-'
  }

  /** The hashed columns of a row, in the order in which they are joined. */
  datatype Fields = Fields(
    previous: Option<string>,
    tenant: Uuid,
    actor: Option<Uuid>,
    action: string,
    resourceType: string,
    resourceId: Option<Uuid>,
    stamp: string)

  /** coalesce(column, '') */
  function Coalesce(column: Option<string>): string {
    if column.Some? then column.value else ""
  }

  /** coalesce(column::TEXT, '') */
  function CoalesceUuid(column: Option<Uuid>): string {
    if column.Some? then Text(column.value) else ""
  }

  function Encode(f: Fields): string {
    Coalesce(f.previous) + (Text(f.tenant) + (CoalesceUuid(f.actor) + (f.action + (f.resourceType
    + (CoalesceUuid(f.resourceId) + f.stamp)))))
  }

  /** The (action, resource_type) pairs that the gateway and the worker write. */
  const WRITTEN: seq<(string, string)> :=
    [("workflow.created", "workflow"),
     ("workflow.executed", "workflow"),
     ("oauth.connected", "oauth_connection"),
     ("oauth.token_refreshed", "oauth_connection")]

  predicate IsWritten(action: string, resourceType: string) {
    (action, resourceType) in WRITTEN
  }

  /** A row the application writes, linked to a digest or to nothing. */
  predicate WellFormed(f: Fields) {
    && (f.previous.Some? ==> IsHash(f.previous.value))
    && IsWritten(f.action, f.resourceType)
    && IsStamp(f.stamp)
  }

  // ---------------------------------------------------------------- reading it back

  predicate DashAtEight(s: string) {
    |s| > 8 && s[8] == '-'
  }

  /** Splits off a UUID. */
  function TakeUuid(s: string): Option<(Uuid, string)> {
    if |s| < 36 then None
    else
      match Read(s[..36])
      case None => None
      case Some(id) => Some((id, s[36..]))
  }

  /** Splits off a UUID if the text starts with one: only a UUID has a dash in ninth place. */
  function TakeOptionalUuid(s: string): Option<(Option<Uuid>, string)> {
    if DashAtEight(s) then
      match TakeUuid(s)
      case None => None
      case Some((id, rest)) => Some((Some(id), rest))
    else
      Some((None, s))
  }

  /** Splits off the previous hash, which is absent if a UUID comes first. */
  function TakeOptionalHash(s: string): Option<(Option<string>, string)> {
    if DashAtEight(s) then Some((None, s))
    else if |s| >= 64 && IsHash(s[..64]) then Some((Some(s[..64]), s[64..]))
    else None
  }

  /** Splits off the first of `pairs` that the text starts with. */
  function TakePair(s: string, pairs: seq<(string, string)>): Option<((string, string), string)> {
    if pairs == [] then None
    else
      var text := pairs[0].0 + pairs[0].1;
      if text <= s then Some((pairs[0], s[|text|..])) else TakePair(s, pairs[1..])
  }

  function Parse(s: string): Option<Fields> {
    match TakeOptionalHash(s) case None => None case Some((previous, s1)) =>
    match TakeUuid(s1) case None => None case Some((tenant, s2)) =>
    match TakeOptionalUuid(s2) case None => None case Some((actor, s3)) =>
    match TakePair(s3, WRITTEN) case None => None case Some((pair, s4)) =>
    match TakeOptionalUuid(s4) case None => None case Some((resourceId, s5)) =>
    if IsStamp(s5) then Some(Fields(previous, tenant, actor, pair.0, pair.1, resourceId, s5)) else None
  }

  // ---------------------------------------------------------------- parse after encode

  lemma TakeUuidAppend(id: Uuid, rest: string)
    ensures DashAtEight(Text(id) + rest)
    ensures TakeUuid(Text(id) + rest) == Some((id, rest))
  {
    ReadText(id);
    var s := Text(id) + rest;
    assert s[..36] == Text(id) && s[36..] == rest;
  }

  lemma TakeOptionalUuidAppend(id: Option<Uuid>, rest: string)
    requires !DashAtEight(rest)
    ensures TakeOptionalUuid(CoalesceUuid(id) + rest) == Some((id, rest))
  {
    if id.Some? {
      TakeUuidAppend(id.value, rest);
    } else {
      assert "" + rest == rest;
    }
  }

  lemma TakeOptionalHashAppend(h: Option<string>, rest: string)
    requires DashAtEight(rest) && (h.Some? ==> IsHash(h.value))
    ensures TakeOptionalHash(Coalesce(h) + rest) == Some((h, rest))
  {
    if h.Some? {
      var s := h.value + rest;
      assert s[..64] == h.value && s[64..] == rest;
      assert s[8] == h.value[8] && IsHexDigit(h.value[8]);
    } else {
      assert "" + rest == rest;
    }
  }

  lemma {:induction false} TakePairSkip(s: string, pairs: seq<(string, string)>, i: nat)
    requires i < |pairs|
    requires forall j | 0 <= j < i :: !(pairs[j].0 + pairs[j].1 <= s)
    requires pairs[i].0 + pairs[i].1 <= s
    ensures TakePair(s, pairs) == Some((pairs[i], s[|pairs[i].0 + pairs[i].1|..]))
  {
    if i == 0 {
    } else {
      assert !(pairs[0].0 + pairs[0].1 <= s);
      forall j | 0 <= j < i - 1 ensures !(pairs[1..][j].0 + pairs[1..][j].1 <= s) {
        assert pairs[1..][j] == pairs[j + 1];
      }
      TakePairSkip(s, pairs[1..], i - 1);
    }
  }

  /** A position at which two written actions differ. */
  function Difference(i: nat, j: nat): (n: nat)
    requires i < 4 && j < 4 && i != j
    ensures n < |WRITTEN[i].0| && n < |WRITTEN[j].0| && WRITTEN[i].0[n] != WRITTEN[j].0[n]
  {
    if i < 2 && j < 2 then 9 else if i >= 2 && j >= 2 then 6 else 0
  }

  /** A text that starts with a written pair starts with no other. */
  lemma NoOtherPair(s: string, i: nat, j: nat)
    requires i < 4 && j < 4 && i != j && WRITTEN[i].0 <= s
    ensures !(WRITTEN[j].0 + WRITTEN[j].1 <= s)
  {
    var n := Difference(i, j);
    assert s[n] == WRITTEN[i].0[n];
    assert (WRITTEN[j].0 + WRITTEN[j].1)[n] == WRITTEN[j].0[n];
    NotPrefix(WRITTEN[j].0 + WRITTEN[j].1, s, n);
  }

  lemma NotPrefix(t: string, s: string, n: nat)
    requires n < |t| && n < |s| && t[n] != s[n]
    ensures !(t <= s)
  {
  }

  lemma NoDashInAction(i: nat)
    requires i < 4
    ensures |WRITTEN[i].0| > 8 && WRITTEN[i].0[8] != '-'
  {
  }

  /** The written pairs are prefix-free, and none has a dash in ninth place. */
  lemma TakePairAppend(action: string, resourceType: string, rest: string)
    requires IsWritten(action, resourceType)
    ensures !DashAtEight(action + (resourceType + rest))
    ensures TakePair(action + (resourceType + rest), WRITTEN) == Some(((action, resourceType), rest))
  {
    var s := action + (resourceType + rest);
    var text := action + resourceType;
    assert s == text + rest;
    assert text <= s && s[|text|..] == rest;
    var i: nat :| i < 4 && WRITTEN[i] == (action, resourceType);
    NoDashInAction(i);
    assert s[8] == action[8];
    forall j: nat | j < i ensures !(WRITTEN[j].0 + WRITTEN[j].1 <= s) { NoOtherPair(s, i, j); }
    TakePairSkip(s, WRITTEN, i);
  }

  /** Nothing is lost: the text of a row that the application writes can be read back. */
  lemma ParseEncode(f: Fields)
    requires WellFormed(f)
    ensures Parse(Encode(f)) == Some(f)
  {
    var s5 := f.stamp;
    var s4 := CoalesceUuid(f.resourceId) + s5;
    var s3 := f.action + (f.resourceType + s4);
    var s2 := CoalesceUuid(f.actor) + s3;
    var s1 := Text(f.tenant) + s2;
    TakeOptionalUuidAppend(f.resourceId, s5);
    TakePairAppend(f.action, f.resourceType, s4);
    TakeOptionalUuidAppend(f.actor, s3);
    TakeUuidAppend(f.tenant, s2);
    TakeOptionalHashAppend(f.previous, s1);
  }

  // ---------------------------------------------------------------- encode after parse

  lemma TakeUuidText(s: string)
    requires TakeUuid(s).Some?
    ensures var (id, rest) := TakeUuid(s).value; s == Text(id) + rest
  {
    TextRead(s[..36]);
    assert s == s[..36] + s[36..];
  }

  lemma TakeOptionalUuidText(s: string)
    requires TakeOptionalUuid(s).Some?
    ensures var (id, rest) := TakeOptionalUuid(s).value; s == CoalesceUuid(id) + rest
  {
    if DashAtEight(s) { TakeUuidText(s); } else { assert "" + s == s; }
  }

  lemma TakeOptionalHashText(s: string)
    requires TakeOptionalHash(s).Some?
    ensures var (h, rest) := TakeOptionalHash(s).value;
      s == Coalesce(h) + rest && (h.Some? ==> IsHash(h.value))
  {
  }

  lemma {:induction false} TakePairText(s: string, pairs: seq<(string, string)>)
    requires TakePair(s, pairs).Some?
    ensures var (pair, rest) := TakePair(s, pairs).value;
      pair in pairs && s == pair.0 + (pair.1 + rest)
  {
    var text := pairs[0].0 + pairs[0].1;
    if text <= s {
      assert s == text + s[|text|..];
      assert pairs[0].0 + (pairs[0].1 + s[|text|..]) == text + s[|text|..];
    } else {
      TakePairText(s, pairs[1..]);
    }
  }

  /** Nothing is invented: what the parser reads is a written row with exactly this text. */
  lemma EncodeParse(s: string)
    requires Parse(s).Some?
    ensures WellFormed(Parse(s).value) && Encode(Parse(s).value) == s
  {
    TakeOptionalHashText(s);
    var s1 := TakeOptionalHash(s).value.1;
    TakeUuidText(s1);
    var s2 := TakeUuid(s1).value.1;
    TakeOptionalUuidText(s2);
    var s3 := TakeOptionalUuid(s2).value.1;
    TakePairText(s3, WRITTEN);
    var s4 := TakePair(s3, WRITTEN).value.1;
    TakeOptionalUuidText(s4);
  }

  // ---------------------------------------------------------------- injectivity

  /** Two written rows have one text exactly if they agree in every hashed column. */
  lemma EncodeInjective(f: Fields, g: Fields)
    requires WellFormed(f) && WellFormed(g)
    ensures Encode(f) == Encode(g) <==> f == g
  {
    ParseEncode(f);
    ParseEncode(g);
  }

  lemma MiddlesEqual(head: string, x: string, y: string, tail: string)
    requires head + x + tail == head + y + tail
    ensures x == y
  {
    assert |x| == |y|;
    assert x == (head + x + tail)[|head|..|head| + |x|];
    assert y == (head + y + tail)[|head|..|head| + |y|];
  }

  /** The text with the action and the resource type in its middle. */
  lemma EncodeMiddle(f: Fields)
    ensures Encode(f) == (Coalesce(f.previous) + (Text(f.tenant) + CoalesceUuid(f.actor)))
      + (f.action + f.resourceType) + (CoalesceUuid(f.resourceId) + f.stamp)
  {
    var (a, b, c) := (Coalesce(f.previous), Text(f.tenant), CoalesceUuid(f.actor));
    var (d, e, g) := (f.action, f.resourceType, CoalesceUuid(f.resourceId) + f.stamp);
    assert d + (e + g) == (d + e) + g;
    Regroup(a, b, c, d + e, g);
  }

  lemma Regroup(a: string, b: string, c: string, d: string, e: string)
    ensures a + (b + (c + (d + e))) == (a + (b + c)) + d + e
  {
    assert b + (c + (d + e)) == (b + c) + (d + e);
    assert a + ((b + c) + (d + e)) == (a + (b + c)) + (d + e);
    assert (a + (b + c)) + (d + e) == (a + (b + c)) + d + e;
  }

  /** For arbitrary action and resource texts the join is ambiguous: rows that agree in the
      other columns share a text exactly if the two texts have the same concatenation. */
  lemma EncodeAmbiguous(f: Fields, action: string, resourceType: string)
    ensures Encode(f) == Encode(f.(action := action, resourceType := resourceType))
      <==> f.action + f.resourceType == action + resourceType
  {
    var tail := CoalesceUuid(f.resourceId) + f.stamp;
    var head := Coalesce(f.previous) + (Text(f.tenant) + CoalesceUuid(f.actor));
    EncodeMiddle(f);
    EncodeMiddle(f.(action := action, resourceType := resourceType));
    if Encode(f) == Encode(f.(action := action, resourceType := resourceType)) {
      MiddlesEqual(head, f.action + f.resourceType, action + resourceType, tail);
    }
  }

  /** Two different rows with one text, whatever the digest does with it. */
  lemma EncodeAmbiguousWitness(f: Fields)
    requires f.action == "user.created" && f.resourceType == "user"
    ensures var g := f.(action := "user.create", resourceType := "duser");
      f != g && Encode(f) == Encode(g)
  {
    assert "user.created" + "user" == "user.create" + "duser";
    EncodeAmbiguous(f, "user.create", "duser");
  }
}
