/**
 The one thing of other tenants' that a tenant can see: a prune that takes some of its logs
 may have to wait for the erasure of another tenant.
 */
module PruneVisibility {
  import opened Schema
  import opened AuditChain
  import opened Database
  import opened Cluster
  import opened ClusterInvariant
  import opened ErasureSafety
  import opened WorkflowIntegrity
  import opened Retention
  import opened Isolation
  import WorkerProcess

  type Input = WorkerProcess.Input

  lemma HeldByAnyPart(s: State, tenant: Uuid)
    requires Safe(s)
    ensures HeldByAny(PartOfTxns(s.txns, tenant)) == OfTenant(HeldByAny(s.txns), tenant)
  {
    var (all, mine) := (HeldByAny(s.txns), HeldByAny(PartOfTxns(s.txns, tenant)));
    forall k ensures k in mine <==> k in all && k.tenant == tenant {
      if k in all {
        var x :| x in s.txns && k in s.txns[x].writes;
        OwnWrites(s, x, k);
        assert k.tenant == tenant ==> x in PartOfTxns(s.txns, tenant);
      }
    }
  }

  lemma PruneOutcome(s: State, now: int)
    ensures StepPrune(s, now).1.Changed? <==> forall k | k in Expired(s.store, now) :: k !in HeldByAny(s.txns)
    ensures StepPrune(s, now).1.Blocked? <==> !StepPrune(s, now).1.Changed?
  {
  }

  lemma NoneInCommon(a: set<Key>, b: set<Key>, tenant: Uuid)
    ensures (forall k | k in OfTenant(a, tenant) :: k !in OfTenant(b, tenant)) <==>
      forall k | k in a && k.tenant == tenant :: k !in b
  {
    forall k ensures k in OfTenant(a, tenant) <==> k in a && k.tenant == tenant {}
    forall k ensures k in OfTenant(b, tenant) <==> k in b && k.tenant == tenant {}
  }

  lemma PartOutcome(s: State, now: int, tenant: Uuid)
    requires Safe(s)
    ensures StepPrune(Project(s, tenant), now).1.Changed? <==>
      forall k | k in Expired(s.store, now) && k.tenant == tenant :: k !in HeldByAny(s.txns)
  {
    var part := Project(s, tenant);
    assert part.store == Part(s.store, tenant) && part.txns == PartOfTxns(s.txns, tenant);
    PruneOutcome(part, now);
    HeldByAnyPart(s, tenant);
    PruneCounts(s, now, tenant);
    NoneInCommon(Expired(s.store, now), HeldByAny(s.txns), tenant);
  }

  /** A prune waits although it would not if the tenant were alone, exactly if none of the
      tenant's expired logs is held and one of another tenant's is. */
  lemma PruneShowsOthers(s: State, now: int, tenant: Uuid)
    requires Safe(s)
    ensures (StepPrune(s, now).1.Blocked? && StepPrune(Project(s, tenant), now).1.Changed?) <==>
      && (forall k | k in Expired(s.store, now) && k.tenant == tenant :: k !in HeldByAny(s.txns))
      && (exists k :: k in Expired(s.store, now) && k.tenant != tenant && k in HeldByAny(s.txns))
  {
    PruneOutcome(s, now);
    PartOutcome(s, now, tenant);
  }

  /** Whoever makes it wait is an erasure of the other tenant. */
  lemma OthersAreErasures(s: State, now: int, x: Session, k: Key)
    requires Safe(s) && RowsOk(s) && k in Expired(s.store, now) && x in s.txns && k in s.txns[x].writes
    ensures s.txns[x].kind.Erasure? && x.tenant == k.tenant
  {
    assert Fits(k, s.store[k]);
    LogHeldByErasure(s, x, k);
    OwnWrites(s, x, k);
  }

  // ---------------------------------------------------------------- a run to such a state

  function JobOfInput(i: Input): JobId {
    JobId(i.tenant, 0)
  }

  function SessionOfInput(i: Input): Session {
    Session(i.tenant, 0)
  }

  /** A tenant's job is queued, ... */
  function QueuedJob(i: Input): Job {
    Job(i.workflow, i.requestedBy, 0, Waiting, 0, 0)
  }

  function EnqueueInput(i: Input): Label {
    Enqueue(JobOfInput(i), i.workflow, i.requestedBy)
  }

  /** ... and an attempt commits it ... */
  function AttemptOf(i: Input, start: int): seq<Label> {
    WorkerProcess.Attempt(SessionOfInput(i), JobOfInput(i), i, start, true)
  }

  /** ... and an erasure begins and does its first `n` deletes. */
  function Deletes(x: Session, start: int, n: nat): seq<Label> {
    if n == 0 then [BeginErasure(x, start)] else Deletes(x, start, n - 1) + [EraseNext(x)]
  }

  function Deleted(store: Store, tenant: Uuid, n: nat): Writes {
    map k | k in store && k.tenant == tenant && Position(k.table) < n :: None
  }

  function Deleting(s: State, x: Session, start: int, n: nat): State {
    s.(txns := map[x := Txn(start, Erasure(n), Deleted(s.store, x.tenant, n))])
  }

  lemma PositionInOrder(table: Table, n: nat)
    requires n < 10
    ensures table == ERASURE_ORDER[n] <==> Position(table) == n
  {
  }

  lemma NextTargets(store: Store, tenant: Uuid, n: nat)
    requires n < 10
    ensures EraseTargets(Overlay(store, Deleted(store, tenant, n)), tenant, n)
      == set k | k in store && k.tenant == tenant && Position(k.table) == n
  {
    forall k: Key ensures k.table == ERASURE_ORDER[n] <==> Position(k.table) == n {
      PositionInOrder(k.table, n);
    }
  }

  lemma DeletedNext(store: Store, tenant: Uuid, n: nat, ks: set<Key>)
    requires ks == set k | k in store && k.tenant == tenant && Position(k.table) == n
    ensures Deleted(store, tenant, n) + (map k | k in ks :: None) == Deleted(store, tenant, n + 1)
  {
  }

  lemma DeletesNext(h: Hasher, s: State, x: Session, start: int, n: nat)
    requires n < 9
    ensures Step(h, Deleting(s, x, start, n), EraseNext(x)).0 == Deleting(s, x, start, n + 1)
  {
    var d := Deleting(s, x, start, n);
    var ks := EraseTargets(ViewOf(d, x), x.tenant, n);
    NextTargets(s.store, x.tenant, n);
    DeletedNext(s.store, x.tenant, n, ks);
    assert !EraseWaits(d, x, ks, n) by { assert Held(d.txns, x) == {}; }
    GrowsAlone(s, x, start, n, ks);
  }

  lemma GrowsAlone(s: State, x: Session, start: int, n: nat, ks: set<Key>)
    requires Deleted(s.store, x.tenant, n) + (map k | k in ks :: None) == Deleted(s.store, x.tenant, n + 1)
    ensures Grow(Deleting(s, x, start, n), x, map k | k in ks :: None, Erasure(n + 1)) == Deleting(s, x, start, n + 1)
  {
    var (t, u) := (Deleting(s, x, start, n).txns[x], Deleting(s, x, start, n + 1).txns[x]);
    assert map[x := t][x := u] == map[x := u];
  }

  lemma {:induction false} DeletesRun(h: Hasher, s: State, x: Session, start: int, n: nat)
    requires s.txns == map[] && n <= 9
    ensures Run(h, s, Deletes(x, start, n)) == Deleting(s, x, start, n)
  {
    if n == 0 {
      RunSnoc(h, s, [], BeginErasure(x, start), s, Deleting(s, x, start, 0));
      assert [] + [BeginErasure(x, start)] == Deletes(x, start, 0);
    } else {
      DeletesRun(h, s, x, start, n - 1);
      DeletesNext(h, s, x, start, n - 1);
      RunSnoc(h, s, Deletes(x, start, n - 1), EraseNext(x), Deleting(s, x, start, n - 1), Deleting(s, x, start, n));
    }
  }

  /** Nothing of the tenant has been executed, and nobody is in the database. */
  ghost predicate NotYetRun(s: State, i: Input) {
    && Safe(s) && s.txns == map[] && JobOfInput(i) !in s.jobs
    && Key(Workflows, i.tenant, i.workflow) in s.store && i.pick.None?
    && forall k | k in s.store && k.tenant == i.tenant :: k.table != ExecutionLogs && k.table != AuditLog
  }

  /** The database after the tenant's job has been queued and committed. */
  function Done(h: Hasher, s: State, i: Input, start: int): State
    requires i.pick.None?
  {
    var queued := s.(jobs := s.jobs[JobOfInput(i) := QueuedJob(i)]);
    WorkerProcess.AfterFinish(h, queued, JobOfInput(i), i, start, true)
  }

  lemma JobRuns(h: Hasher, s: State, i: Input, start: int)
    requires NotYetRun(s, i)
    ensures Run(h, s, [EnqueueInput(i)] + AttemptOf(i, start)) == Done(h, s, i, start)
    ensures Done(h, s, i, start).txns == map[]
    ensures Done(h, s, i, start).store == s.store[WorkerProcess.LogKey(i) := WorkerProcess.LogInsert(i, start).row]
      [WorkerProcess.AuditKey(i) := AuditRowFor(h, s.store, WorkerProcess.ExecutedEvent(i, start), None)]
  {
    var queued := s.(jobs := s.jobs[JobOfInput(i) := QueuedJob(i)]);
    RunSnoc(h, s, [], EnqueueInput(i), s, queued);
    assert [] + [EnqueueInput(i)] == [EnqueueInput(i)];
    assert WorkerProcess.Waits(h, queued, SessionOfInput(i), JobOfInput(i), i) by {
      forall k | k in AuditOf(s.store) ensures k.tenant != i.tenant {
        assert Fits(k, s.store[k]);
      }
    }
    WorkerProcess.AttemptRuns(h, queued, SessionOfInput(i), JobOfInput(i), i, start, true);
    RunAppend(h, s, [EnqueueInput(i)], AttemptOf(i, start));
  }

  /** Two tenants' jobs are queued and committed, and the second tenant's erasure begins. */
  function WaitingRun(mine: Input, other: Input, start: int): seq<Label> {
    [EnqueueInput(mine)] + AttemptOf(mine, start)
    + ([EnqueueInput(other)] + AttemptOf(other, start) + Deletes(SessionOfInput(other), start, 5))
  }

  lemma WaitingRunIsLegal(mine: Input, other: Input, start: int)
    ensures LegalRun(WaitingRun(mine, other, start))
    ensures LegalRun([EnqueueInput(mine)] + AttemptOf(mine, start))
  {
    DeletesAreLegal(SessionOfInput(other), start, 5);
  }

  lemma {:induction false} DeletesAreLegal(x: Session, start: int, n: nat)
    ensures LegalRun(Deletes(x, start, n))
  {
    if n == 0 {
    } else {
      DeletesAreLegal(x, start, n - 1);
    }
  }

  /** The state it reaches. */
  function Reached(h: Hasher, s: State, mine: Input, other: Input, start: int): State
    requires mine.pick.None? && other.pick.None?
  {
    Deleting(Done(h, Done(h, s, mine, start), other, start), SessionOfInput(other), start, 5)
  }

  lemma StillNotRun(h: Hasher, s: State, mine: Input, other: Input, start: int)
    requires NotYetRun(s, mine) && NotYetRun(s, other) && mine.tenant != other.tenant
    ensures NotYetRun(Done(h, s, mine, start), other)
  {
    JobRuns(h, s, mine, start);
    WaitingRunIsLegal(mine, other, start);
    RunKeepsSafe(h, s, [EnqueueInput(mine)] + AttemptOf(mine, start));
  }

  lemma WaitingRunReaches(h: Hasher, s: State, mine: Input, other: Input, start: int)
    requires NotYetRun(s, mine) && NotYetRun(s, other) && mine.tenant != other.tenant
    ensures Run(h, s, WaitingRun(mine, other, start)) == Reached(h, s, mine, other, start)
  {
    var first := [EnqueueInput(mine)] + AttemptOf(mine, start);
    var second := [EnqueueInput(other)] + AttemptOf(other, start);
    var deletes := Deletes(SessionOfInput(other), start, 5);
    JobRuns(h, s, mine, start);
    StillNotRun(h, s, mine, other, start);
    JobRuns(h, Done(h, s, mine, start), other, start);
    DeletesRun(h, Done(h, Done(h, s, mine, start), other, start), SessionOfInput(other), start, 5);
    RunAppend(h, s, first, second + deletes);
    RunAppend(h, Done(h, s, mine, start), second, deletes);
  }

  lemma LogIn(h: Hasher, s: State, i: Input, start: int)
    requires NotYetRun(s, i)
    ensures var (store, log) := (Done(h, s, i, start).store, WorkerProcess.LogKey(i));
      && log in store && store[log] == ExecutionOf(i.workflow, start)
      && forall k | k in s.store && k.tenant != i.tenant :: k in store && store[k] == s.store[k]
  {
    JobRuns(h, s, i, start);
  }

  /** Both logs are there, the second is held, and nothing of the first tenant's is. */
  lemma LogsReached(h: Hasher, s: State, mine: Input, other: Input, start: int)
    requires NotYetRun(s, mine) && NotYetRun(s, other) && mine.tenant != other.tenant
    ensures
      var s' := Reached(h, s, mine, other, start);
      var (first, second) := (WorkerProcess.LogKey(mine), WorkerProcess.LogKey(other));
      && first in s'.store && s'.store[first] == ExecutionOf(mine.workflow, start)
      && second in s'.store && s'.store[second] == ExecutionOf(other.workflow, start)
      && s'.txns.Keys == {SessionOfInput(other)} && second in s'.txns[SessionOfInput(other)].writes
      && forall k | k in s'.txns[SessionOfInput(other)].writes :: k.tenant == other.tenant
  {
    LogIn(h, s, mine, start);
    StillNotRun(h, s, mine, other, start);
    LogIn(h, Done(h, s, mine, start), other, start);
  }

  /** So a prune waits for the second log, and not for the first. */
  lemma HeldWaits(s: State, x: Session, first: Key, second: Key, now: int)
    requires Safe(s) && first in Expired(s.store, now) && second in Expired(s.store, now)
    requires s.txns.Keys == {x} && second in s.txns[x].writes
    requires forall k | k in s.txns[x].writes :: k.tenant == x.tenant
    requires second.tenant == x.tenant != first.tenant
    ensures StepPrune(s, now) == (s, Blocked)
    ensures StepPrune(Project(s, first.tenant), now).1.Changed?
    ensures first !in StepPrune(Project(s, first.tenant), now).0.store
  {
    assert x in s.txns;
    assert HeldByAny(s.txns) == s.txns[x].writes.Keys;
    PruneShowsOthers(s, now, first.tenant);
    PruneCounts(s, now, first.tenant);
  }

  /** From any fresh database with two tenants that have a workflow each: a legal run after
      which the first tenant's log outlives a prune that would take it were the tenant alone. */
  lemma WaitingPrune(h: Hasher, s: State, mine: Input, other: Input, start: int, now: int)
    requires Initial(s) && mine.tenant != other.tenant && mine.pick.None? && other.pick.None?
    requires Key(Workflows, mine.tenant, mine.workflow) in s.store
    requires Key(Workflows, other.tenant, other.workflow) in s.store
    requires start + LOG_TTL < now
    ensures LegalRun(WaitingRun(mine, other, start))
    ensures
      var (s', log) := (Run(h, s, WaitingRun(mine, other, start)), WorkerProcess.LogKey(mine));
      var (whole, alone) := (StepPrune(s', now), StepPrune(Project(s', mine.tenant), now));
      && whole == (s', Blocked) && log in s'.store
      && alone.1.Changed? && log !in alone.0.store
  {
    InitialOk(s);
    WaitingRunIsLegal(mine, other, start);
    RunKeepsSafe(h, s, WaitingRun(mine, other, start));
    WaitingRunReaches(h, s, mine, other, start);
    LogsReached(h, s, mine, other, start);
    HeldWaits(Reached(h, s, mine, other, start), SessionOfInput(other), WorkerProcess.LogKey(mine),
              WorkerProcess.LogKey(other), now);
  }
}
