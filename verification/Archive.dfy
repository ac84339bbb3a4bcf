/**
 Runs of inserts and archive jobs, where nothing is inserted between a job's two statements.
 Each archived row is in the files exactly once; if times strictly increase the files are in
 the order of the inserts, and every tenant's part of them is a verified prefix of its chain.
 */
module Archive {
  import opened Schema
  import opened AuditChain
  import opened TamperEvidence
  import opened AuditOrder
  import opened AuditTrail
  import opened AuditLaws

  datatype State = State(log: AuditTable, files: seq<seq<AuditRow>>)

  datatype Step =
    | Insert(event: Event, pick: Option<Key>)
    | Archive(order: seq<Key>, now: int)

  /** One step, if the database may take it. */
  ghost function Next(h: Hasher, s: State, step: Step): Option<State> {
    match step
    case Insert(e, pick) =>
      if EventKey(e) !in s.log && IsLatest(s.log, e.tenant, pick)
      then Some(State(Inserted(h, s.log, e, pick), s.files))
      else None
    case Archive(order, now) =>
      if IsExportOrder(s.log, order)
      then Some(State(Marked(s.log, now), s.files + [Exported(s.log, order)]))
      else None
  }

  ghost function Run(h: Hasher, steps: seq<Step>): Option<State> {
    if steps == [] then Some(State(map[], []))
    else
      var n := |steps| - 1;
      var before := Run(h, steps[..n]);
      if before.None? then None else Next(h, before.value, steps[n])
  }

  /** The event is later than every row of every tenant. */
  ghost predicate LatestOfAll(t: AuditTable, e: Event) {
    forall k | k in t :: t[k].event.at < e.at
  }

  /** Times strictly increase over the run. */
  ghost predicate InTimeOrder(h: Hasher, steps: seq<Step>)
    requires Run(h, steps).Some?
  {
    if steps == [] then true
    else
      var n := |steps| - 1;
      InTimeOrder(h, steps[..n]) && (steps[n].Insert? ==> LatestOfAll(Run(h, steps[..n]).value.log, steps[n].event))
  }

  /** The inserted rows' keys, in the order of their inserts. */
  ghost function History(steps: seq<Step>): seq<Key> {
    if steps == [] then []
    else
      var n := |steps| - 1;
      History(steps[..n]) + (if steps[n].Insert? then [EventKey(steps[n].event)] else [])
  }

  function Flatten(files: seq<seq<AuditRow>>): seq<AuditRow> {
    if files == [] then [] else Flatten(files[..|files| - 1]) + files[|files| - 1]
  }

  /** `l` lists the whole table with strictly increasing times. */
  ghost predicate Chronicle(t: AuditTable, l: seq<Key>) {
    && (forall k :: k in l <==> k in t)
    && (forall i, j | 0 <= i < j < |l| :: t[l[i]].event.at < t[l[j]].event.at)
  }

  /** What holds after every run: the first `n` rows by time are archived and the others not,
      and the files, put together, are those `n` rows. */
  ghost predicate Partitioned(s: State, l: seq<Key>, n: nat) {
    && Keyed(s.log)
    && Chronicle(s.log, l)
    && n <= |l|
    && (forall i | 0 <= i < |l| :: l[i] in s.log && (s.log[l[i]].archivedAt.Some? <==> i < n))
    && Flatten(s.files) == Exported(s.log, l[..n])
  }

  // ---------------------------------------------------------------- each row once

  /** How many of the lines are this row's. */
  function LinesFor(lines: seq<AuditRow>, k: Key): nat {
    if lines == [] then 0
    else
      var n := |lines| - 1;
      LinesFor(lines[..n], k) + (if EventKey(lines[n].event) == k then 1 else 0)
  }

  lemma {:induction false} LinesForAppend(a: seq<AuditRow>, b: seq<AuditRow>, k: Key)
    ensures LinesFor(a + b, k) == LinesFor(a, k) + LinesFor(b, k)
  {
    if b == [] {
      assert a + b == a;
    } else {
      var n := |b| - 1;
      LinesForAppend(a, b[..n], k);
      assert (a + b)[..|a| + n] == a + b[..n];
    }
  }

  /** A list of different rows has one line for each. */
  lemma {:induction false} LinesForExported(t: AuditTable, l: seq<Key>, k: Key)
    requires Keyed(t) && (forall x | x in l :: x in t) && forall i, j | 0 <= i < j < |l| :: l[i] != l[j]
    ensures LinesFor(Exported(t, l), k) == if k in l then 1 else 0
  {
    if l == [] {
    } else {
      var n := |l| - 1;
      assert l[n] in l && l == l[..n] + [l[n]];
      assert Exported(t, l)[..n] == Exported(t, l[..n]);
      LinesForExported(t, l[..n], k);
    }
  }

  /** Every line is what the file carries of a row. */
  ghost predicate LinesAreRows(t: AuditTable, lines: seq<AuditRow>) {
    forall i | 0 <= i < |lines| :: EventKey(lines[i].event) in t && lines[i] == JsonLine(t[EventKey(lines[i].event)])
  }

  /** An archived row has one line in all the files, with the row's columns; a row that is not
      archived has none, and there are no other lines. */
  ghost predicate OnceEach(s: State) {
    && Keyed(s.log)
    && LinesAreRows(s.log, Flatten(s.files))
    && forall k :: LinesFor(Flatten(s.files), k) == if k in s.log && s.log[k].archivedAt.Some? then 1 else 0
  }

  lemma MarkedLines(t: AuditTable, now: int, lines: seq<AuditRow>)
    requires LinesAreRows(t, lines)
    ensures LinesAreRows(Marked(t, now), lines)
  {
  }

  lemma ExportedLines(t: AuditTable, l: seq<Key>)
    requires Keyed(t) && forall k | k in l :: k in t
    ensures LinesAreRows(t, Exported(t, l))
  {
    forall i | 0 <= i < |l| ensures EventKey(t[l[i]].event) == l[i] {}
  }

  lemma ArchiveKeepsOnce(h: Hasher, s: State, order: seq<Key>, now: int)
    requires OnceEach(s) && IsExportOrder(s.log, order)
    ensures OnceEach(State(Marked(s.log, now), s.files + [Exported(s.log, order)]))
  {
    var file := Exported(s.log, order);
    FlattenSnoc(s.files, file);
    ExportedLines(s.log, order);
    MarkedLines(s.log, now, Flatten(s.files) + file);
    forall k ensures LinesFor(Flatten(s.files + [file]), k) == if k in Marked(s.log, now) then 1 else 0 {
      LinesForAppend(Flatten(s.files), file, k);
      LinesForExported(s.log, order, k);
    }
  }

  /** Over every run, whatever the times: no row is lost, and none is written twice. */
  lemma {:induction false} ArchivedExactlyOnce(h: Hasher, steps: seq<Step>)
    requires Run(h, steps).Some?
    ensures OnceEach(Run(h, steps).value)
  {
    if steps == [] {
    } else {
      var m := |steps| - 1;
      ArchivedExactlyOnce(h, steps[..m]);
      if steps[m].Archive? { ArchiveKeepsOnce(h, Run(h, steps[..m]).value, steps[m].order, steps[m].now); }
    }
  }

  // ---------------------------------------------------------------- one step

  lemma SuffixMembers(t: AuditTable, l: seq<Key>, n: nat)
    requires Chronicle(t, l) && n <= |l|
    requires forall i | 0 <= i < |l| :: l[i] in t && (t[l[i]].archivedAt.Some? <==> i < n)
    ensures forall k :: k in l[n..] <==> k in Unarchived(t)
  {
  }

  lemma StrictOrder(t: AuditTable, l: seq<Key>, order: seq<Key>, i: nat, j: nat)
    requires Chronicle(t, l) && IsExportOrder(t, order) && i < j < |order|
    ensures order[i] in t && order[j] in t && t[order[i]].event.at < t[order[j]].event.at
  {
  }

  /** An export takes the rows after the archived ones, in their order. */
  lemma ExportIsSuffix(s: State, l: seq<Key>, n: nat, order: seq<Key>)
    requires Partitioned(s, l, n) && IsExportOrder(s.log, order)
    ensures order == l[n..]
  {
    var t := s.log;
    SuffixMembers(t, l, n);
    forall i, j | 0 <= i < j < |order|
      ensures order[i] in t && order[j] in t && t[order[i]].event.at < t[order[j]].event.at
    {
      StrictOrder(t, l, order, i, j);
    }
    assert forall k | k in order :: k in Unarchived(t);
    ByTimeUnique(t, order, l[n..]);
  }

  /** Keys of the table, their times strictly increasing. */
  ghost predicate ByTime(t: AuditTable, l: seq<Key>) {
    && (forall k | k in l :: k in t)
    && (forall i, j | 0 <= i < j < |l| :: l[i] in t && l[j] in t && t[l[i]].event.at < t[l[j]].event.at)
  }

  lemma LastIsGreatest(t: AuditTable, l: seq<Key>, k: Key)
    requires ByTime(t, l) && k in l
    ensures var last := l[|l| - 1];
      && last in t && (k != last ==> t[k].event.at < t[last].event.at)
      && (k in l[..|l| - 1] <==> k != last)
  {
    var i :| 0 <= i < |l| && l[i] == k;
    assert l == l[..|l| - 1] + [l[|l| - 1]];
  }

  lemma {:induction false} ByTimeUnique(t: AuditTable, a: seq<Key>, b: seq<Key>)
    requires ByTime(t, a) && ByTime(t, b) && forall k :: k in a <==> k in b
    ensures a == b
    decreases |a|
  {
    assert (|a| > 0 ==> a[0] in b) && (|b| > 0 ==> b[0] in a);
    if a == [] || b == [] {
    } else {
      var n, m := |a| - 1, |b| - 1;
      LastIsGreatest(t, a, b[m]);
      LastIsGreatest(t, b, a[n]);
      assert a[n] == b[m] by { SameLastTime(t, a, b); }
      forall k | k in a ensures k in a[..n] <==> k in b[..m] {
        LastIsGreatest(t, a, k);
        LastIsGreatest(t, b, k);
      }
      ByTimeUnique(t, a[..n], b[..m]);
      assert a == a[..n] + [a[n]] && b == b[..m] + [b[m]];
    }
  }

  lemma SameLastTime(t: AuditTable, a: seq<Key>, b: seq<Key>)
    requires ByTime(t, a) && ByTime(t, b) && a != [] && b != [] && a[|a| - 1] in b && b[|b| - 1] in a
    ensures a[|a| - 1] == b[|b| - 1]
  {
    LastIsGreatest(t, a, b[|b| - 1]);
    LastIsGreatest(t, b, a[|a| - 1]);
  }

  lemma ExportedMarked(t: AuditTable, now: int, l: seq<Key>)
    requires forall k | k in l :: k in t
    ensures Exported(Marked(t, now), l) == Exported(t, l)
  {
  }

  lemma ExportedSplit(t: AuditTable, l: seq<Key>, n: nat)
    requires n <= |l| && forall k | k in l :: k in t
    ensures Exported(t, l) == Exported(t, l[..n]) + Exported(t, l[n..])
  {
  }

  lemma FlattenSnoc(files: seq<seq<AuditRow>>, file: seq<AuditRow>)
    ensures Flatten(files + [file]) == Flatten(files) + file
  {
  }

  lemma MarkedChronicle(t: AuditTable, now: int, l: seq<Key>)
    requires Keyed(t) && Chronicle(t, l)
    ensures Keyed(Marked(t, now)) && Chronicle(Marked(t, now), l)
    ensures forall i | 0 <= i < |l| :: l[i] in Marked(t, now) && Marked(t, now)[l[i]].archivedAt.Some?
  {
  }

  lemma ArchivedFiles(s: State, l: seq<Key>, n: nat, order: seq<Key>, now: int)
    requires Partitioned(s, l, n) && IsExportOrder(s.log, order)
    ensures (forall k | k in l :: k in s.log)
    ensures Flatten(s.files + [Exported(s.log, order)]) == Exported(Marked(s.log, now), l)
  {
    ExportIsSuffix(s, l, n, order);
    ExportedSplit(s.log, l, n);
    ExportedMarked(s.log, now, l);
    FlattenSnoc(s.files, Exported(s.log, order));
  }

  lemma ArchiveKeepsPartition(h: Hasher, s: State, l: seq<Key>, n: nat, order: seq<Key>, now: int)
    requires Partitioned(s, l, n) && IsExportOrder(s.log, order)
    ensures Partitioned(Next(h, s, Archive(order, now)).value, l, |l|)
  {
    ArchivedFiles(s, l, n, order, now);
    MarkedChronicle(s.log, now, l);
    assert l[..|l|] == l;
  }

  lemma InsertKeepsPartition(h: Hasher, s: State, l: seq<Key>, n: nat, e: Event, pick: Option<Key>)
    requires Partitioned(s, l, n) && Next(h, s, Insert(e, pick)).Some? && LatestOfAll(s.log, e)
    ensures Partitioned(Next(h, s, Insert(e, pick)).value, l + [EventKey(e)], n)
  {
    var s' := Next(h, s, Insert(e, pick)).value;
    var l' := l + [EventKey(e)];
    forall i | 0 <= i < |l| ensures l'[i] in s.log && s'.log[l'[i]] == s.log[l[i]] {
      assert l[i] in l;
    }
    assert l'[..n] == l[..n];
    assert Exported(s'.log, l'[..n]) == Exported(s.log, l[..n]);
  }

  /** Over every run with increasing times, the files put together are the archived rows in the
      order of their inserts, which is the order of time. */
  lemma {:induction false} ArchivesPartition(h: Hasher, steps: seq<Step>)
    requires Run(h, steps).Some? && InTimeOrder(h, steps)
    ensures exists n: nat :: Partitioned(Run(h, steps).value, History(steps), n)
  {
    if steps == [] {
      assert Partitioned(Run(h, steps).value, History(steps), 0);
    } else {
      var m := |steps| - 1;
      ArchivesPartition(h, steps[..m]);
      var s := Run(h, steps[..m]).value;
      var l := History(steps[..m]);
      var n: nat :| Partitioned(s, l, n);
      match steps[m] {
        case Insert(e, pick) =>
          InsertKeepsPartition(h, s, l, n, e, pick);
          assert History(steps) == l + [EventKey(e)];
        case Archive(order, now) =>
          ArchiveKeepsPartition(h, s, l, n, order, now);
          assert History(steps) == l;
      }
    }
  }

  // ---------------------------------------------------------------- chains in the archive

  /** The lines of one tenant. */
  function LinesOf(lines: seq<AuditRow>, tenant: Uuid): seq<AuditRow> {
    if lines == [] then []
    else
      var n := |lines| - 1;
      LinesOf(lines[..n], tenant) + (if lines[n].event.tenant == tenant then [lines[n]] else [])
  }

  lemma {:induction false} LinesOfExported(t: AuditTable, l: seq<Key>, tenant: Uuid)
    requires Keyed(t) && forall k | k in l :: k in t
    ensures LinesOf(Exported(t, l), tenant) == Exported(t, Filter(l, tenant))
  {
    if l == [] {
    } else {
      var n := |l| - 1;
      assert l[n] in l;
      assert Exported(t, l)[..n] == Exported(t, l[..n]);
      LinesOfExported(t, l[..n], tenant);
    }
  }

  lemma {:induction false} FilterPrefix(l: seq<Key>, n: nat, tenant: Uuid)
    requires n <= |l|
    ensures var m := |Filter(l[..n], tenant)|;
      m <= |Filter(l, tenant)| && Filter(l, tenant)[..m] == Filter(l[..n], tenant)
  {
    if n < |l| {
      var z := |l| - 1;
      FilterPrefix(l[..z], n, tenant);
      assert l[..z][..n] == l[..n];
    } else {
      assert l[..n] == l;
    }
  }

  lemma {:induction false} ChronicleFilterSorted(t: AuditTable, l: seq<Key>, tenant: Uuid)
    requires (forall k | k in l :: k in t) && Keyed(t)
    requires forall i, j | 0 <= i < j < |l| :: t[l[i]].event.at < t[l[j]].event.at
    ensures Sorted(t, Filter(l, tenant))
  {
    if l == [] {
    } else {
      var n := |l| - 1;
      ChronicleFilterSorted(t, l[..n], tenant);
      var f := Filter(l[..n], tenant);
      if l[n].tenant == tenant {
        forall i | 0 <= i < |f| ensures EventBefore(t[f[i]].event, t[l[n]].event) {
          assert f[i] in l[..n];
          var j :| 0 <= j < n && l[j] == f[i];
          assert l[j] in l && l[n] in l;
        }
      }
    }
  }

  lemma ChronicleOfTenant(t: AuditTable, l: seq<Key>, tenant: Uuid)
    requires Keyed(t) && Chronicle(t, l)
    ensures Filter(l, tenant) == Ordered(t, TenantKeys(t, tenant))
  {
    ChronicleFilterSorted(t, l, tenant);
    ListsUnique(t, TenantKeys(t, tenant), Filter(l, tenant), Ordered(t, TenantKeys(t, tenant)));
  }

  lemma MarkedRows(t: AuditTable, now: int, tenant: Uuid)
    requires Keyed(t)
    ensures Keyed(Marked(t, now))
    ensures var (a, b) := (TenantRows(t, tenant), TenantRows(Marked(t, now), tenant));
      |a| == |b| && forall i | 0 <= i < |a| :: b[i] == a[i].(archivedAt := b[i].archivedAt)
  {
    var u := Marked(t, now);
    var ks := TenantKeys(t, tenant);
    assert TenantKeys(u, tenant) == ks;
    var l := Ordered(t, ks);
    forall i | 0 <= i < |l| ensures l[i] in ks {
      assert l[i] in l;
    }
    assert Sorted(u, l);
    ListsUnique(u, ks, l, Ordered(u, ks));
  }

  lemma MarksAreNotHashed(h: Hasher, a: seq<AuditRow>, b: seq<AuditRow>)
    requires |a| == |b| && forall i | 0 <= i < |a| :: b[i] == a[i].(archivedAt := b[i].archivedAt)
    ensures Verified(h, a) ==> Verified(h, b)
  {
  }

  lemma MarkKeepsChains(h: Hasher, t: AuditTable, now: int)
    requires Keyed(t) && AllVerified(h, t) && NoTies(t)
    ensures Keyed(Marked(t, now)) && AllVerified(h, Marked(t, now)) && NoTies(Marked(t, now))
  {
    var u := Marked(t, now);
    forall tenant ensures Verified(h, TenantRows(u, tenant)) {
      MarkedRows(t, now, tenant);
      assert Verified(h, TenantRows(t, tenant));
      MarksAreNotHashed(h, TenantRows(t, tenant), TenantRows(u, tenant));
    }
    forall tenant ensures NoTie(u, tenant) {
      assert NoTie(t, tenant);
      forall k | IsLatest(u, tenant, Some(k)) ensures IsLatest(t, tenant, Some(k)) {
        forall x | x in t && x.tenant == tenant ensures t[x].event.at <= t[k].event.at {
          assert x in u;
        }
      }
    }
  }

  lemma {:induction false} RunKeepsChains(h: Hasher, steps: seq<Step>)
    requires Run(h, steps).Some? && InTimeOrder(h, steps)
    ensures Keyed(Run(h, steps).value.log)
    ensures AllVerified(h, Run(h, steps).value.log) && NoTies(Run(h, steps).value.log)
  {
    if steps == [] {
      EmptyLog(h);
    } else {
      var m := |steps| - 1;
      RunKeepsChains(h, steps[..m]);
      var s := Run(h, steps[..m]).value;
      match steps[m] {
        case Insert(e, pick) => InsertKeepsChains(h, s.log, e, pick);
        case Archive(order, now) => MarkKeepsChains(h, s.log, now);
      }
    }
  }

  lemma LinesArePrefix(s: State, l: seq<Key>, n: nat, tenant: Uuid)
    requires Partitioned(s, l, n)
    ensures var lines := LinesOf(Flatten(s.files), tenant);
      && |lines| <= |TenantRows(s.log, tenant)|
      && SameRecords(TenantRows(s.log, tenant)[..|lines|], lines)
  {
    LinesOfExported(s.log, l[..n], tenant);
    FilterPrefix(l, n, tenant);
    ChronicleOfTenant(s.log, l, tenant);
  }

  /** If all times increase, each tenant's lines are a verified prefix of its chain. */
  lemma LinesVerify(p: Platform, steps: seq<Step>, tenant: Uuid)
    requires Run(ComputeAuditLogHash(p), steps).Some? && InTimeOrder(ComputeAuditLogHash(p), steps)
    ensures Keyed(Run(ComputeAuditLogHash(p), steps).value.log)
    ensures IsVerifiedPrefix(p, Run(ComputeAuditLogHash(p), steps).value, tenant)
  {
    var h := ComputeAuditLogHash(p);
    var s := Run(h, steps).value;
    ArchivesPartition(h, steps);
    var n: nat :| Partitioned(s, History(steps), n);
    RunKeepsChains(h, steps);
    LinesArePrefix(s, History(steps), n, tenant);
    var lines := LinesOf(Flatten(s.files), tenant);
    var rows := TenantRows(s.log, tenant);
    assert Verified(h, rows);
    VerifiedPrefix(h, rows, |lines|);
    UncoveredColumns(p, rows[..|lines|], lines);
  }

  /** The tenant's lines are records of its chain from the first on, and verify by themselves. */
  ghost predicate IsVerifiedPrefix(p: Platform, s: State, tenant: Uuid)
    requires Keyed(s.log)
  {
    var (lines, rows) := (LinesOf(Flatten(s.files), tenant), TenantRows(s.log, tenant));
    && |lines| <= |rows|
    && SameRecords(rows[..|lines|], lines)
    && Verified(ComputeAuditLogHash(p), lines)
  }

  // ---------------------------------------------------------------- one tenant's part of a run

  function TablePart(t: AuditTable, tenant: Uuid): AuditTable {
    map k | k in t && k.tenant == tenant :: t[k]
  }

  /** What a run is to one tenant: its own inserts, and its own rows of every file. */
  ghost function PartOfSteps(steps: seq<Step>, tenant: Uuid): seq<Step> {
    if steps == [] then []
    else
      var n := |steps| - 1;
      PartOfSteps(steps[..n], tenant)
      + (match steps[n]
         case Insert(e, _) => if e.tenant == tenant then [steps[n]] else []
         case Archive(order, now) => [Archive(Filter(order, tenant), now)])
  }

  /** The tenant's own times strictly increase over the run. */
  ghost predicate InTenantsOrder(h: Hasher, steps: seq<Step>, tenant: Uuid)
    requires Run(h, steps).Some?
  {
    if steps == [] then true
    else
      var n := |steps| - 1;
      && InTenantsOrder(h, steps[..n], tenant)
      && (steps[n].Insert? && steps[n].event.tenant == tenant ==>
            StrictlyLater(Run(h, steps[..n]).value.log, steps[n].event))
  }

  /** The state is the tenant's part of another. */
  ghost predicate IsPart(part: State, s: State, tenant: Uuid) {
    part.log == TablePart(s.log, tenant) && Flatten(part.files) == LinesOf(Flatten(s.files), tenant)
  }

  lemma {:induction false} FilterKeepsOrder(t: AuditTable, l: seq<Key>, tenant: Uuid)
    requires forall k | k in l :: k in t
    requires forall i, j | 0 <= i < j < |l| :: l[i] != l[j] && t[l[i]].event.at <= t[l[j]].event.at
    ensures var f := Filter(l, tenant);
      && (forall k :: k in f <==> k in l && k.tenant == tenant)
      && forall i, j | 0 <= i < j < |f| ::
           f[i] in t && f[j] in t && f[i] != f[j] && t[f[i]].event.at <= t[f[j]].event.at
  {
    if l == [] {
    } else {
      var n := |l| - 1;
      FilterKeepsOrder(t, l[..n], tenant);
      forall k | k in l[..n] ensures k != l[n] && t[k].event.at <= t[l[n]].event.at {
        var i :| 0 <= i < n && l[..n][i] == k;
        assert l[i] == k;
      }
      assert l == l[..n] + [l[n]];
    }
  }

  lemma {:induction false} LinesOfAppend(a: seq<AuditRow>, b: seq<AuditRow>, tenant: Uuid)
    ensures LinesOf(a + b, tenant) == LinesOf(a, tenant) + LinesOf(b, tenant)
  {
    if b == [] {
      assert a + b == a;
    } else {
      var n := |b| - 1;
      LinesOfAppend(a, b[..n], tenant);
      assert (a + b)[..|a| + n] == a + b[..n];
    }
  }

  lemma {:induction false} LinesOfTwice(lines: seq<AuditRow>, tenant: Uuid)
    ensures LinesOf(LinesOf(lines, tenant), tenant) == LinesOf(lines, tenant)
  {
    if lines == [] {
    } else {
      var n := |lines| - 1;
      LinesOfTwice(lines[..n], tenant);
      LinesOfAppend(LinesOf(lines[..n], tenant), if lines[n].event.tenant == tenant then [lines[n]] else [], tenant);
    }
  }

  lemma PartOfOrder(t: AuditTable, order: seq<Key>, tenant: Uuid)
    requires IsExportOrder(t, order)
    ensures IsExportOrder(TablePart(t, tenant), Filter(order, tenant))
  {
    FilterKeepsOrder(t, order, tenant);
  }

  lemma PartOfFile(t: AuditTable, order: seq<Key>, tenant: Uuid)
    requires Keyed(t) && forall k | k in order :: k in t
    ensures forall k | k in Filter(order, tenant) :: k in TablePart(t, tenant)
    ensures Exported(TablePart(t, tenant), Filter(order, tenant)) == LinesOf(Exported(t, order), tenant)
  {
    LinesOfExported(t, order, tenant);
  }

  lemma PartOfMarked(t: AuditTable, now: int, tenant: Uuid)
    ensures TablePart(Marked(t, now), tenant) == Marked(TablePart(t, tenant), now)
  {
  }

  lemma ArchivePart(h: Hasher, part: State, s: State, order: seq<Key>, now: int, tenant: Uuid)
    requires IsPart(part, s, tenant) && Keyed(s.log) && IsExportOrder(s.log, order)
    ensures Next(h, part, Archive(Filter(order, tenant), now)).Some?
    ensures IsPart(Next(h, part, Archive(Filter(order, tenant), now)).value,
                   Next(h, s, Archive(order, now)).value, tenant)
  {
    var file := Exported(s.log, order);
    PartOfOrder(s.log, order, tenant);
    PartOfFile(s.log, order, tenant);
    PartOfMarked(s.log, now, tenant);
    LinesOfAppend(Flatten(s.files), file, tenant);
    FlattenSnoc(s.files, file);
    FlattenSnoc(part.files, Exported(part.log, Filter(order, tenant)));
  }

  lemma OwnInsertPart(h: Hasher, part: State, s: State, e: Event, pick: Option<Key>)
    requires IsPart(part, s, e.tenant) && Next(h, s, Insert(e, pick)).Some?
    ensures Next(h, part, Insert(e, pick)).Some?
    ensures IsPart(Next(h, part, Insert(e, pick)).value, Next(h, s, Insert(e, pick)).value, e.tenant)
    ensures StrictlyLater(s.log, e) ==> LatestOfAll(part.log, e)
  {
  }

  lemma OtherInsertPart(h: Hasher, part: State, s: State, e: Event, pick: Option<Key>, tenant: Uuid)
    requires IsPart(part, s, tenant) && Next(h, s, Insert(e, pick)).Some? && e.tenant != tenant
    ensures IsPart(part, Next(h, s, Insert(e, pick)).value, tenant)
  {
  }

  lemma RunNext(h: Hasher, steps: seq<Step>, step: Step)
    requires Run(h, steps).Some? && Next(h, Run(h, steps).value, step).Some?
    ensures Run(h, steps + [step]) == Next(h, Run(h, steps).value, step)
    ensures InTimeOrder(h, steps) && (step.Insert? ==> LatestOfAll(Run(h, steps).value.log, step.event)) ==>
      InTimeOrder(h, steps + [step])
  {
    assert (steps + [step])[..|steps|] == steps;
  }

  lemma LastOfRun(h: Hasher, steps: seq<Step>)
    requires steps != [] && Run(h, steps).Some?
    ensures var n := |steps| - 1;
      Run(h, steps[..n]).Some? && Run(h, steps) == Next(h, Run(h, steps[..n]).value, steps[n])
  {
  }

  lemma WithLast<T>(l: seq<T>)
    requires l != []
    ensures l == l[..|l| - 1] + [l[|l| - 1]]
  {
  }

  lemma LastInOrder(h: Hasher, steps: seq<Step>, tenant: Uuid)
    requires steps != [] && Run(h, steps).Some? && InTenantsOrder(h, steps, tenant)
    ensures var n := |steps| - 1;
      && Run(h, steps[..n]).Some? && InTenantsOrder(h, steps[..n], tenant)
      && (steps[n].Insert? && steps[n].event.tenant == tenant ==>
            StrictlyLater(Run(h, steps[..n]).value.log, steps[n].event))
  {
  }

  /** The run of a tenant's part is the tenant's part of the run. */
  lemma {:induction false} RunPart(h: Hasher, steps: seq<Step>, tenant: Uuid)
    requires Run(h, steps).Some? && InTenantsOrder(h, steps, tenant)
    ensures var part := PartOfSteps(steps, tenant);
      && Run(h, part).Some? && IsPart(Run(h, part).value, Run(h, steps).value, tenant)
      && InTimeOrder(h, part)
  {
    if steps == [] {
    } else {
      var n := |steps| - 1;
      WithLast(steps);
      LastOfRun(h, steps);
      LastInOrder(h, steps, tenant);
      RunPart(h, steps[..n], tenant);
      StepPart(h, steps[..n], steps[n], tenant);
    }
  }

  lemma StepPart(h: Hasher, steps: seq<Step>, step: Step, tenant: Uuid)
    requires Run(h, steps).Some? && Next(h, Run(h, steps).value, step).Some?
    requires step.Insert? && step.event.tenant == tenant ==> StrictlyLater(Run(h, steps).value.log, step.event)
    requires Run(h, PartOfSteps(steps, tenant)).Some? && InTimeOrder(h, PartOfSteps(steps, tenant))
    requires IsPart(Run(h, PartOfSteps(steps, tenant)).value, Run(h, steps).value, tenant)
    ensures var part := PartOfSteps(steps + [step], tenant);
      && Run(h, part).Some? && IsPart(Run(h, part).value, Next(h, Run(h, steps).value, step).value, tenant)
      && InTimeOrder(h, part)
  {
    var before := PartOfSteps(steps, tenant);
    var (s, part) := (Run(h, steps).value, Run(h, before).value);
    assert (steps + [step])[..|steps|] == steps;
    match step
    case Insert(e, pick) =>
      if e.tenant == tenant {
        OwnInsertPart(h, part, s, e, pick);
        RunNext(h, before, step);
      } else {
        OtherInsertPart(h, part, s, e, pick, tenant);
        assert PartOfSteps(steps + [step], tenant) == before;
      }
    case Archive(order, now) =>
      ArchivedExactlyOnce(h, steps);
      ArchivePart(h, part, s, order, now, tenant);
      RunNext(h, before, Archive(Filter(order, tenant), now));
  }

  /** Each tenant's part of the archive is a verified prefix of its chain, if the tenant's own
      times increase, whatever the others' do. */
  lemma ArchivedChainsVerify(p: Platform, steps: seq<Step>, tenant: Uuid)
    requires Run(ComputeAuditLogHash(p), steps).Some? && InTenantsOrder(ComputeAuditLogHash(p), steps, tenant)
    ensures Keyed(Run(ComputeAuditLogHash(p), steps).value.log)
    ensures IsVerifiedPrefix(p, Run(ComputeAuditLogHash(p), steps).value, tenant)
  {
    var h := ComputeAuditLogHash(p);
    var (s, part) := (Run(h, steps).value, PartOfSteps(steps, tenant));
    RunPart(h, steps, tenant);
    ArchivedExactlyOnce(h, steps);
    LinesVerify(p, part, tenant);
    SameTenantRows(s.log, Run(h, part).value.log, tenant);
    LinesOfTwice(Flatten(s.files), tenant);
  }

  // ---------------------------------------------------------------- the gap

  /** Every archived row is in a file. */
  ghost predicate NothingLost(s: State) {
    forall k | k in s.log && s.log[k].archivedAt.Some? :: HasLine(s.files, k)
  }

  ghost predicate HasLine(files: seq<seq<AuditRow>>, k: Key) {
    exists i, j :: 0 <= i < |files| && 0 <= j < |files[i]| && EventKey(files[i][j].event) == k
  }

  /** The job's two statements with inserts of other sessions between them: a row is archived
      without being in any file exactly if something was inserted there. */
  lemma GapLosesRows(s: State, order: seq<Key>, later: AuditTable, now: int)
    requires Keyed(s.log) && NothingLost(s) && IsExportOrder(s.log, order)
    requires forall i, j | 0 <= i < |s.files| && 0 <= j < |s.files[i]| :: EventKey(s.files[i][j].event) in s.log
    requires s.log.Keys <= later.Keys && forall k | k in s.log :: later[k] == s.log[k]
    ensures NothingLost(State(Marked(later, now), s.files + [Exported(s.log, order)])) <==> later == s.log
  {
    var files := s.files + [Exported(s.log, order)];
    forall k ensures HasLine(files, k) <==> k in s.log && (s.log[k].archivedAt.None? || HasLine(s.files, k)) {
      if k in s.log && s.log[k].archivedAt.None? {
        assert k in order;
        var j :| 0 <= j < |order| && order[j] == k;
        assert EventKey(files[|s.files|][j].event) == k;
      }
      if HasLine(s.files, k) {
        var i, j :| 0 <= i < |s.files| && 0 <= j < |s.files[i]| && EventKey(s.files[i][j].event) == k;
        assert files[i][j] == s.files[i][j];
      }
      if HasLine(files, k) {
        var i, j :| 0 <= i < |files| && 0 <= j < |files[i]| && EventKey(files[i][j].event) == k;
        if i == |s.files| {
          assert order[j] in order;
        } else {
          assert s.files[i][j] == files[i][j];
        }
      }
    }
    if later != s.log {
      var k :| k in later && k !in s.log;
      assert Marked(later, now)[k].archivedAt.Some?;
    } else {
      forall k | k in s.log ensures HasLine(files, k) {}
    }
  }
}
