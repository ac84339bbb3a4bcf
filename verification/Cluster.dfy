/**
 The whole system as one state machine: any number of transactions of the gateway, the
 vault, the worker and the erasure function, interleaved statement by statement on one
 store, with the job queue and the pruning job. A label names one step and its inputs
 (fresh ids, clock readings, the trigger's choice); `Step` is what it does.
 */
module Cluster {
  import opened Schema
  import opened AuditChain
  import opened Database

  /** A transaction's name: the tenant it sets, and a number. */
  datatype Session = Session(tenant: Uuid, number: nat)

  datatype JobId = JobId(tenant: Uuid, number: nat)

  /** How far a worker's transaction has come. */
  datatype Stage = Started | Checked | Logged | Audited

  datatype Kind =
    | Application
    | Worker(job: JobId, stage: Stage)
    | Erasure(done: nat)

  datatype Txn = Txn(start: int, kind: Kind, writes: Writes)

  datatype Phase = Waiting | Active | Completed | Dead

  /** A queued job. `commits` and `lostAcks` are history: how many of its attempts committed,
      and how many of those commits the worker did not learn of. */
  datatype Job = Job(workflow: Uuid, requestedBy: Uuid, attempts: nat, phase: Phase, commits: nat, lostAcks: nat)

  /** `pruned` and `committed` are history: how many rows of each tenant were pruned, and the
      jobs of the committed attempts. */
  datatype State = State(
    store: Store,
    txns: map<Session, Txn>,
    jobs: map<JobId, Job>,
    pruned: map<Uuid, nat>,
    committed: seq<JobId>)

  datatype Label =
    | Begin(x: Session, now: int)
    | Do(x: Session, stmt: Statement)
    | Commit(x: Session)
    | Rollback(x: Session)
    | Enqueue(j: JobId, workflow: Uuid, requestedBy: Uuid)
    | StartJob(x: Session, j: JobId, now: int)
    | CheckWorkflow(x: Session)
    | LogExecution(x: Session, id: Uuid)
    | LogAudit(x: Session, id: Uuid, pick: Option<Key>)
    | Finish(x: Session, acked: bool)
    | Abandon(x: Session)
    | BeginErasure(x: Session, now: int)
    | EraseNext(x: Session)
    | EndErasure(x: Session)
    | Prune(now: int)

  const MAX_ATTEMPTS: nat := 3
  const DAY: int := 24 * 60 * 60 * 1000000
  const LOG_TTL: int := 30 * DAY

  /** The order of the ten deletes of right_to_erasure. */
  const ERASURE_ORDER: seq<Table> :=
    [OAuthConnections, TenantSettings, RotationAudit, CredentialVault, ExecutionLogs,
     WebhookEndpoints, AuditLog, Workflows, Users, Tenants]

  // ---------------------------------------------------------------- locks

  /** The keys that transactions other than `x` have changed. */
  function Held(txns: map<Session, Txn>, x: Session): set<Key> {
    set y, k | y in txns && y != x && k in txns[y].writes :: k
  }

  function HeldByAny(txns: map<Session, Txn>): set<Key> {
    set y, k | y in txns && k in txns[y].writes :: k
  }

  /** Another transaction has an uncommitted new row of this tenant. */
  predicate InsertPending(s: State, x: Session, tenant: Uuid) {
    exists y, k | y in s.txns && y != x && k in s.txns[y].writes ::
      k.tenant == tenant && s.txns[y].writes[k].Some? && k !in s.store
  }

  function ViewOf(s: State, x: Session): Store
    requires x in s.txns
  {
    Overlay(s.store, s.txns[x].writes)
  }

  // ---------------------------------------------------------------- building blocks

  function DropTxn(s: State, x: Session): State {
    s.(txns := s.txns - {x})
  }

  function CommitTxn(s: State, x: Session): State
    requires x in s.txns
  {
    s.(store := ViewOf(s, x), txns := s.txns - {x})
  }

  /** The transaction after a statement, with its kind advanced. */
  function Grow(s: State, x: Session, changes: Writes, kind: Kind): State
    requires x in s.txns
  {
    var txn := s.txns[x];
    s.(txns := s.txns[x := Txn(txn.start, kind, txn.writes + changes)])
  }

  /** A thrown error: the attempt is rolled back, and the queue retries it or gives up. */
  function FailAttempt(s: State, x: Session, j: JobId): State {
    var s' := DropTxn(s, x);
    if j in s.jobs
    then s'.(jobs := s.jobs[j := s.jobs[j].(phase := if s.jobs[j].attempts < MAX_ATTEMPTS then Waiting else Dead)])
    else s'
  }

  // ---------------------------------------------------------------- steps of each actor

  /** What a statement of transaction `x` would do now. */
  function EffectOf(h: Hasher, s: State, x: Session, stmt: Statement): Effect
    requires x in s.txns
  {
    Exec(h, ViewOf(s, x), Held(s.txns, x), x.tenant, s.txns[x].start, stmt)
  }

  function Settle(s: State, x: Session, e: Effect): (State, Outcome)
    requires x in s.txns
  {
    match e.outcome
    case Changed(_) => (Grow(s, x, e.changes, Application), e.outcome)
    case Failed => (DropTxn(s, x), e.outcome)
    case _ => (s, e.outcome)
  }

  function StepDo(h: Hasher, s: State, x: Session, stmt: Statement): (State, Outcome) {
    if x !in s.txns || !s.txns[x].kind.Application? then (s, Ignored)
    else Settle(s, x, EffectOf(h, s, x, stmt))
  }

  function StepEnqueue(s: State, j: JobId, workflow: Uuid, requestedBy: Uuid): (State, Outcome) {
    if j in s.jobs then (s, Ignored)
    else (s.(jobs := s.jobs[j := Job(workflow, requestedBy, 0, Waiting, 0, 0)]), Changed(1))
  }

  function StepStartJob(s: State, x: Session, j: JobId, now: int): (State, Outcome) {
    if x in s.txns || j !in s.jobs || j.tenant != x.tenant || !s.jobs[j].phase.Waiting? then (s, Ignored)
    else
      var job := s.jobs[j].(attempts := s.jobs[j].attempts + 1, phase := Active);
      (s.(jobs := s.jobs[j := job], txns := s.txns[x := Txn(now, Worker(j, Started), map[])]), Changed(0))
  }

  predicate AtStage(s: State, x: Session, stage: Stage) {
    x in s.txns && s.txns[x].kind.Worker? && s.txns[x].kind.stage == stage && s.txns[x].kind.job in s.jobs
  }

  function StepCheckWorkflow(s: State, x: Session): (State, Outcome) {
    if !AtStage(s, x, Started) then (s, Ignored)
    else
      var j := s.txns[x].kind.job;
      var found := Targets(ViewOf(s, x), x.tenant, Workflows, Some(s.jobs[j].workflow));
      if found == {} then (FailAttempt(s, x, j), Failed)
      else (Grow(s, x, map[], Worker(j, Checked)), Changed(0))
  }

  /** What a worker's INSERT leads to. */
  function WorkerInsert(s: State, x: Session, j: JobId, e: Effect, stage: Stage): (State, Outcome)
    requires x in s.txns
  {
    match e.outcome
    case Changed(_) => (Grow(s, x, e.changes, Worker(j, stage)), e.outcome)
    case Failed => (FailAttempt(s, x, j), e.outcome)
    case _ => (s, e.outcome)
  }

  /** The row the worker logs for a workflow in a transaction started at `start`. */
  function ExecutionOf(workflow: Uuid, start: int): Row {
    ExecutionRow(workflow, start, Some(start + LOG_TTL))
  }

  /** The columns of the worker's audit entry. */
  function ExecutedEvent(tenant: Uuid, id: Uuid, requestedBy: Uuid, workflow: Uuid, at: int): Event {
    Event(tenant, id, Some(requestedBy), "workflow.executed", "workflow", Some(workflow), None, None, at)
  }

  function LogStatement(x: Session, id: Uuid, job: Job, start: int): Statement {
    Insert(ExecutionLogs, x.tenant, id, ExecutionOf(job.workflow, start))
  }

  function StepLogExecution(h: Hasher, s: State, x: Session, id: Uuid): (State, Outcome) {
    if !AtStage(s, x, Checked) then (s, Ignored)
    else
      var j := s.txns[x].kind.job;
      WorkerInsert(s, x, j, EffectOf(h, s, x, LogStatement(x, id, s.jobs[j], s.txns[x].start)), Logged)
  }

  function AuditStatement(x: Session, id: Uuid, job: Job, start: int, pick: Option<Key>): Statement {
    InsertAudit(ExecutedEvent(x.tenant, id, job.requestedBy, job.workflow, start), pick)
  }

  function StepLogAudit(h: Hasher, s: State, x: Session, id: Uuid, pick: Option<Key>): (State, Outcome) {
    if !AtStage(s, x, Logged) then (s, Ignored)
    else
      var j := s.txns[x].kind.job;
      WorkerInsert(s, x, j, EffectOf(h, s, x, AuditStatement(x, id, s.jobs[j], s.txns[x].start, pick)), Audited)
  }

  /** COMMIT. Without an acknowledgement the worker sees an error and the attempt counts as
      failed, although it is committed. */
  function StepFinish(s: State, x: Session, acked: bool): (State, Outcome) {
    if !AtStage(s, x, Audited) then (s, Ignored)
    else
      var j := s.txns[x].kind.job;
      var job := s.jobs[j].(commits := s.jobs[j].commits + 1);
      var job' :=
        if acked then job.(phase := Completed)
        else job.(phase := if job.attempts < MAX_ATTEMPTS then Waiting else Dead, lostAcks := job.lostAcks + 1);
      (CommitTxn(s, x).(jobs := s.jobs[j := job'], committed := s.committed + [j]), Changed(0))
  }

  function StepAbandon(s: State, x: Session): (State, Outcome) {
    if x !in s.txns || !s.txns[x].kind.Worker? then (s, Ignored)
    else (FailAttempt(s, x, s.txns[x].kind.job), Failed)
  }

  /** The rows that the delete at position `n` finds. */
  function EraseTargets(view: Store, tenant: Uuid, n: nat): set<Key>
    requires n < 10
  {
    set k | k in view && k.table == ERASURE_ORDER[n] && k.tenant == tenant
  }

  predicate RowsRemain(view: Store, tenant: Uuid) {
    exists k | k in view :: k.tenant == tenant && k.table != Tenants
  }

  /** The delete waits for transactions that hold one of its rows; the last one also waits
      for uncommitted new rows of the tenant. */
  predicate EraseWaits(s: State, x: Session, ks: set<Key>, n: nat) {
    || !(ks !! Held(s.txns, x))
    || (n == 9 && ks != {} && InsertPending(s, x, x.tenant))
  }

  /** The last delete fails on any row of the tenant that is left. */
  predicate EraseFails(s: State, x: Session, ks: set<Key>, n: nat)
    requires x in s.txns
  {
    n == 9 && ks != {} && RowsRemain(ViewOf(s, x), x.tenant)
  }

  function EraseRows(s: State, x: Session, ks: set<Key>, n: nat, waits: bool, fails: bool): (State, Outcome)
    requires x in s.txns
  {
    if waits then (s, Blocked)
    else if fails then (DropTxn(s, x), Failed)
    else (Grow(s, x, map k | k in ks :: None, Erasure(n + 1)), Changed(|ks|))
  }

  /** The next of the ten deletes. */
  function StepEraseNext(s: State, x: Session): (State, Outcome) {
    if x !in s.txns || !s.txns[x].kind.Erasure? || s.txns[x].kind.done >= 10 then (s, Ignored)
    else
      var n := s.txns[x].kind.done;
      var ks := EraseTargets(ViewOf(s, x), x.tenant, n);
      EraseRows(s, x, ks, n, EraseWaits(s, x, ks, n), EraseFails(s, x, ks, n))
  }

  predicate IsExpired(row: Row, now: int) {
    row.ExecutionRow? && row.deleteAfter.Some? && row.deleteAfter.value < now
  }

  function Expired(store: Store, now: int): set<Key> {
    set k | k in store && IsExpired(store[k], now)
  }

  function CountOf(m: map<Uuid, nat>, tenant: Uuid): nat {
    if tenant in m then m[tenant] else 0
  }

  function OfTenant(ks: set<Key>, tenant: Uuid): set<Key> {
    set k | k in ks && k.tenant == tenant
  }

  function StepPrune(s: State, now: int): (State, Outcome) {
    var gone := Expired(s.store, now);
    if !(gone !! HeldByAny(s.txns)) then (s, Blocked)
    else
      var tenants := set k | k in gone :: k.tenant;
      var pruned := map t | t in tenants + s.pruned.Keys :: CountOf(s.pruned, t) + |OfTenant(gone, t)|;
      (s.(store := s.store - gone, pruned := pruned), Changed(|gone|))
  }

  function Step(h: Hasher, s: State, l: Label): (State, Outcome) {
    match l
    case Begin(x, now) =>
      if x in s.txns then (s, Ignored)
      else (s.(txns := s.txns[x := Txn(now, Application, map[])]), Changed(0))
    case Do(x, stmt) => StepDo(h, s, x, stmt)
    case Commit(x) =>
      if x in s.txns && s.txns[x].kind.Application? then (CommitTxn(s, x), Changed(0)) else (s, Ignored)
    case Rollback(x) =>
      if x in s.txns && !s.txns[x].kind.Worker? then (DropTxn(s, x), Failed) else (s, Ignored)
    case Enqueue(j, workflow, requestedBy) => StepEnqueue(s, j, workflow, requestedBy)
    case StartJob(x, j, now) => StepStartJob(s, x, j, now)
    case CheckWorkflow(x) => StepCheckWorkflow(s, x)
    case LogExecution(x, id) => StepLogExecution(h, s, x, id)
    case LogAudit(x, id, pick) => StepLogAudit(h, s, x, id, pick)
    case Finish(x, acked) => StepFinish(s, x, acked)
    case Abandon(x) => StepAbandon(s, x)
    case BeginErasure(x, now) =>
      if x in s.txns then (s, Ignored)
      else (s.(txns := s.txns[x := Txn(now, Erasure(0), map[])]), Changed(0))
    case EraseNext(x) => StepEraseNext(s, x)
    case EndErasure(x) =>
      if x in s.txns && s.txns[x].kind == Erasure(10) then (CommitTxn(s, x), Changed(0)) else (s, Ignored)
    case Prune(now) => StepPrune(s, now)
  }

  // ---------------------------------------------------------------- how transactions end

  /** The others' transactions are as they were. */
  ghost predicate OnlyGone(s: State, s': State, x: Session) {
    forall y :: (y in s'.txns <==> y in s.txns && y != x) && (y in s'.txns ==> s'.txns[y] == s.txns[y])
  }

  /** COMMIT makes a transaction's changes the store's, ROLLBACK drops them; both end it, and
      nobody else's. A worker's attempt ends likewise, and an erasure after its tenth delete. */
  lemma TransactionsEnd(h: Hasher, s: State, x: Session)
    requires x in s.txns
    ensures s.txns[x].kind.Application? ==>
      var s' := Step(h, s, Commit(x)).0; s'.store == Overlay(s.store, s.txns[x].writes) && OnlyGone(s, s', x)
    ensures AtStage(s, x, Audited) ==>
      forall acked :: var s' := Step(h, s, Finish(x, acked)).0;
        s'.store == Overlay(s.store, s.txns[x].writes) && OnlyGone(s, s', x)
    ensures s.txns[x].kind == Erasure(10) ==>
      var s' := Step(h, s, EndErasure(x)).0; s'.store == Overlay(s.store, s.txns[x].writes) && OnlyGone(s, s', x)
    ensures !s.txns[x].kind.Worker? ==>
      var s' := Step(h, s, Rollback(x)).0; s'.store == s.store && s'.jobs == s.jobs && OnlyGone(s, s', x)
    ensures s.txns[x].kind.Worker? ==>
      var s' := Step(h, s, Abandon(x)).0; s'.store == s.store && OnlyGone(s, s', x)
  {
  }

  // ---------------------------------------------------------------- frames

  /** A step that leaves the committed rows and their history alone. */
  predicate Quiet(s: State, s': State) {
    s'.store == s.store && s'.pruned == s.pruned && s'.committed == s.committed
  }

  /** ... and all jobs, and all transactions but `x`. */
  ghost predicate OnlyTxn(s: State, s': State, x: Session) {
    && Quiet(s, s') && s'.jobs == s.jobs
    && forall y | y != x :: (y in s'.txns <==> y in s.txns) && (y in s'.txns ==> s'.txns[y] == s.txns[y])
  }

  lemma EraseNextFrame(s: State, x: Session)
    ensures var s' := StepEraseNext(s, x).0;
      && OnlyTxn(s, s', x)
      && (s' == s || x !in s'.txns || s'.txns[x].kind.Erasure?)
      && (x in s'.txns ==> x in s.txns && (s'.txns[x].kind.Erasure? <==> s.txns[x].kind.Erasure?))
  {
  }

  lemma SettleFrame(s: State, x: Session, e: Effect)
    requires x in s.txns
    ensures var s' := Settle(s, x, e).0;
      && OnlyTxn(s, s', x)
      && (s' == s || x !in s'.txns || s'.txns[x].kind.Application?)
  {
  }

  lemma DoFrame(h: Hasher, s: State, x: Session, stmt: Statement)
    ensures var s' := StepDo(h, s, x, stmt).0;
      && OnlyTxn(s, s', x)
      && (s' == s || x !in s'.txns || s'.txns[x].kind.Application?)
  {
    if x in s.txns { SettleFrame(s, x, EffectOf(h, s, x, stmt)); }
  }

  lemma WorkerInsertFrame(s: State, x: Session, j: JobId, e: Effect, stage: Stage)
    requires x in s.txns
    ensures var s' := WorkerInsert(s, x, j, e, stage).0;
      && Quiet(s, s') && s'.jobs.Keys == s.jobs.Keys
      && forall i | i in s.jobs :: s'.jobs[i].commits == s.jobs[i].commits
  {
  }

  lemma LogFrame(h: Hasher, s: State, x: Session, id: Uuid, pick: Option<Key>)
    ensures var s' := StepLogExecution(h, s, x, id).0;
      && Quiet(s, s') && s'.jobs.Keys == s.jobs.Keys
      && forall i | i in s.jobs :: s'.jobs[i].commits == s.jobs[i].commits
    ensures var s' := StepLogAudit(h, s, x, id, pick).0;
      && Quiet(s, s') && s'.jobs.Keys == s.jobs.Keys
      && forall i | i in s.jobs :: s'.jobs[i].commits == s.jobs[i].commits
  {
    if x in s.txns && s.txns[x].kind.Worker? && s.txns[x].kind.job in s.jobs {
      var j := s.txns[x].kind.job;
      var start := s.txns[x].start;
      WorkerInsertFrame(s, x, j, EffectOf(h, s, x, LogStatement(x, id, s.jobs[j], start)), Logged);
      WorkerInsertFrame(s, x, j, EffectOf(h, s, x, AuditStatement(x, id, s.jobs[j], start, pick)), Audited);
    }
  }

  /** Only commits, ends of erasures and prunes change what is committed. */
  lemma QuietSteps(h: Hasher, s: State, l: Label)
    requires !l.Commit? && !l.Finish? && !l.EndErasure? && !l.Prune?
    ensures Quiet(s, Step(h, s, l).0)
  {
    match l
    case Do(x, stmt) => DoFrame(h, s, x, stmt);
    case LogExecution(x, id) => LogFrame(h, s, x, id, None);
    case LogAudit(x, id, pick) => LogFrame(h, s, x, id, pick);
    case EraseNext(x) => EraseNextFrame(s, x);
    case _ =>
  }

  // ---------------------------------------------------------------- runs

  /** A label the services may produce: application transactions issue the handlers'
      statements only. */
  predicate Legal(l: Label) {
    l.Do? ==> Issued(l.x.tenant, l.stmt)
  }

  function Run(h: Hasher, s: State, ls: seq<Label>): State {
    if ls == [] then s else Step(h, Run(h, s, ls[..|ls| - 1]), ls[|ls| - 1]).0
  }

  lemma RunSnoc(h: Hasher, s: State, ls: seq<Label>, l: Label, before: State, after: State)
    requires Run(h, s, ls) == before && Step(h, before, l).0 == after
    ensures Run(h, s, ls + [l]) == after
  {
  }

  lemma RunFive(h: Hasher, s: State, a: Label, b: Label, c: Label, d: Label, e: Label)
    ensures
      var s2 := Step(h, Step(h, s, a).0, b).0;
      var s4 := Step(h, Step(h, s2, c).0, d).0;
      Run(h, s, [a, b, c, d, e]) == Step(h, s4, e).0
  {
    var (s1, s2) := (Step(h, s, a).0, Step(h, Step(h, s, a).0, b).0);
    var (s3, s4) := (Step(h, s2, c).0, Step(h, Step(h, s2, c).0, d).0);
    RunSnoc(h, s, [], a, s, s1);
    assert [] + [a] == [a];
    RunSnoc(h, s, [a], b, s1, s2);
    assert [a] + [b] == [a, b];
    RunSnoc(h, s, [a, b], c, s2, s3);
    assert [a, b] + [c] == [a, b, c];
    RunSnoc(h, s, [a, b, c], d, s3, s4);
    assert [a, b, c] + [d] == [a, b, c, d];
    RunSnoc(h, s, [a, b, c, d], e, s4, Step(h, s4, e).0);
    assert [a, b, c, d] + [e] == [a, b, c, d, e];
  }

  lemma AppendLast<T>(a: seq<T>, b: seq<T>)
    ensures a + [] == a
    ensures b != [] ==> a + b == a + b[..|b| - 1] + [b[|b| - 1]]
  {
  }

  lemma {:induction false} RunAppend(h: Hasher, s: State, a: seq<Label>, b: seq<Label>)
    ensures Run(h, s, a + b) == Run(h, Run(h, s, a), b)
  {
    AppendLast(a, b);
    if b == [] {
    } else {
      var n := |b| - 1;
      RunAppend(h, s, a, b[..n]);
      var before := Run(h, s, a + b[..n]);
      RunSnoc(h, s, a + b[..n], b[n], before, Step(h, before, b[n]).0);
    }
  }

  ghost predicate LegalRun(ls: seq<Label>) {
    forall i | 0 <= i < |ls| :: Legal(ls[i])
  }
}
