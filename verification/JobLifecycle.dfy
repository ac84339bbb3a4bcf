/**
 The life of jobs over whole runs: how often a job is tried, how often it commits, and that
 every step for it uses up something.
 */
module JobLifecycle {
  import opened Schema
  import opened AuditChain
  import opened Database
  import opened Cluster

  // ---------------------------------------------------------------- jobs

  /** What a job's counters may be. */
  predicate JobOk(job: Job) {
    && job.attempts <= MAX_ATTEMPTS
    && (job.phase.Waiting? ==> job.attempts < MAX_ATTEMPTS)
    && (job.phase.Dead? ==> job.attempts == MAX_ATTEMPTS)
    && job.commits == job.lostAcks + (if job.phase.Completed? then 1 else 0)
    && job.commits + (if job.phase.Active? then 1 else 0) <= job.attempts
  }

  ghost predicate JobsOk(s: State) {
    forall j | j in s.jobs :: JobOk(s.jobs[j])
  }

  predicate WorksOn(s: State, x: Session, j: JobId) {
    x in s.txns && s.txns[x].kind.Worker? && s.txns[x].kind.job == j
  }

  /** A worker's transaction runs an active job of its tenant, and no two run the same. */
  ghost predicate WorkersOk(s: State) {
    && (forall x | x in s.txns && s.txns[x].kind.Worker? ::
          s.txns[x].kind.job in s.jobs && s.txns[x].kind.job.tenant == x.tenant
          && s.jobs[s.txns[x].kind.job].phase.Active?)
    && (forall x, y, j | WorksOn(s, x, j) && WorksOn(s, y, j) :: x == y)
  }

  // ---------------------------------------------------------------- jobs, step by step

  /** The workers after a step that starts none, and ends none but `x`'s. */
  lemma FewerWorkers(s: State, s': State)
    requires WorkersOk(s)
    requires forall y, j | WorksOn(s', y, j) :: WorksOn(s, y, j) && j in s'.jobs && s'.jobs[j].phase.Active?
    ensures WorkersOk(s')
  {
    forall y | y in s'.txns && s'.txns[y].kind.Worker? ensures WorksOn(s', y, s'.txns[y].kind.job) {}
  }

  /** A transaction ends with its job's new record. */
  lemma EndKeepsJobs(s: State, x: Session, j: JobId, job: Job, s': State)
    requires JobsOk(s) && WorkersOk(s) && WorksOn(s, x, j) && JobOk(job)
    requires s'.txns == s.txns - {x} && s'.jobs == s.jobs[j := job]
    ensures JobsOk(s') && WorkersOk(s')
  {
    forall y, i | WorksOn(s', y, i)
      ensures WorksOn(s, y, i) && i in s'.jobs && s'.jobs[i].phase.Active?
    {
      assert y != x && WorksOn(s, y, i);
      assert i != j;
    }
    FewerWorkers(s, s');
  }

  lemma FailKeepsJobs(s: State, x: Session, j: JobId)
    requires JobsOk(s) && WorkersOk(s) && WorksOn(s, x, j)
    ensures JobsOk(FailAttempt(s, x, j)) && WorkersOk(FailAttempt(s, x, j))
  {
    var s' := FailAttempt(s, x, j);
    EndKeepsJobs(s, x, j, s'.jobs[j], s');
  }

  lemma StageKeepsJobs(s: State, x: Session, c: Writes, j: JobId, stage: Stage)
    requires JobsOk(s) && WorkersOk(s) && WorksOn(s, x, j)
    ensures JobsOk(Grow(s, x, c, Worker(j, stage))) && WorkersOk(Grow(s, x, c, Worker(j, stage)))
  {
    var s' := Grow(s, x, c, Worker(j, stage));
    forall y, i | WorksOn(s', y, i) ensures WorksOn(s, y, i) && i in s'.jobs && s'.jobs[i].phase.Active? {}
    FewerWorkers(s, s');
  }

  lemma InsertKeepsJobs(s: State, x: Session, j: JobId, e: Effect, stage: Stage)
    requires JobsOk(s) && WorkersOk(s) && WorksOn(s, x, j)
    ensures var s' := WorkerInsert(s, x, j, e, stage).0; JobsOk(s') && WorkersOk(s')
  {
    FailKeepsJobs(s, x, j);
    StageKeepsJobs(s, x, e.changes, j, stage);
  }

  lemma FinishKeepsJobs(s: State, x: Session, acked: bool)
    requires JobsOk(s) && WorkersOk(s)
    ensures JobsOk(StepFinish(s, x, acked).0) && WorkersOk(StepFinish(s, x, acked).0)
  {
    if AtStage(s, x, Audited) {
      var s' := StepFinish(s, x, acked).0;
      var j := s.txns[x].kind.job;
      assert JobOk(s.jobs[j]);
      EndKeepsJobs(s, x, j, s'.jobs[j], s');
    }
  }

  lemma StartKeepsJobs(s: State, x: Session, j: JobId, now: int)
    requires JobsOk(s) && WorkersOk(s)
    ensures JobsOk(StepStartJob(s, x, j, now).0) && WorkersOk(StepStartJob(s, x, j, now).0)
  {
    var s' := StepStartJob(s, x, j, now).0;
    if s' != s {
      assert JobOk(s.jobs[j]);
      forall y, i | WorksOn(s', y, i) && y != x ensures WorksOn(s, y, i) && i != j {}
      forall y | y in s'.txns && s'.txns[y].kind.Worker? && y != x ensures WorksOn(s, y, s'.txns[y].kind.job) {}
    }
  }

  /** A transaction that is no worker's grows, or any transaction but a worker's comes or
      goes. */
  lemma OnlyTxnKeepsJobs(s: State, s': State, x: Session)
    requires JobsOk(s) && WorkersOk(s) && OnlyTxn(s, s', x)
    requires s' == s || x !in s'.txns || !s'.txns[x].kind.Worker?
    ensures JobsOk(s') && WorkersOk(s')
  {
    forall y, j | WorksOn(s', y, j) ensures WorksOn(s, y, j) && j in s'.jobs && s'.jobs[j].phase.Active? {}
    FewerWorkers(s, s');
  }

  lemma OthersKeepJobs(h: Hasher, s: State, l: Label)
    requires JobsOk(s) && WorkersOk(s)
    requires l.Begin? || l.Commit? || l.Rollback? || l.BeginErasure? || l.EndErasure? || l.Prune?
    ensures JobsOk(Step(h, s, l).0) && WorkersOk(Step(h, s, l).0)
  {
    var s' := Step(h, s, l).0;
    forall y, j | WorksOn(s', y, j) ensures WorksOn(s, y, j) && j in s'.jobs && s'.jobs[j].phase.Active? {}
    FewerWorkers(s, s');
  }

  lemma EnqueueKeepsJobs(s: State, j: JobId, workflow: Uuid, requestedBy: Uuid)
    requires JobsOk(s) && WorkersOk(s)
    ensures JobsOk(StepEnqueue(s, j, workflow, requestedBy).0) && WorkersOk(StepEnqueue(s, j, workflow, requestedBy).0)
  {
    var s' := StepEnqueue(s, j, workflow, requestedBy).0;
    forall y, i | WorksOn(s', y, i) ensures WorksOn(s, y, i) && i in s'.jobs && s'.jobs[i].phase.Active? {}
    FewerWorkers(s, s');
  }

  /** Every step keeps the jobs' counters and the workers' exclusive hold on active jobs. */
  lemma StepKeepsJobs(h: Hasher, s: State, l: Label)
    requires JobsOk(s) && WorkersOk(s)
    ensures JobsOk(Step(h, s, l).0) && WorkersOk(Step(h, s, l).0)
  {
    match l
    case Enqueue(j, workflow, requestedBy) => EnqueueKeepsJobs(s, j, workflow, requestedBy);
    case StartJob(x, j, now) => StartKeepsJobs(s, x, j, now);
    case CheckWorkflow(x) =>
      if AtStage(s, x, Started) {
        FailKeepsJobs(s, x, s.txns[x].kind.job);
        StageKeepsJobs(s, x, map[], s.txns[x].kind.job, Checked);
      }
    case LogExecution(x, id) =>
      if AtStage(s, x, Checked) {
        var j := s.txns[x].kind.job;
        InsertKeepsJobs(s, x, j, EffectOf(h, s, x, LogStatement(x, id, s.jobs[j], s.txns[x].start)), Logged);
      }
    case LogAudit(x, id, pick) =>
      if AtStage(s, x, Logged) {
        var j := s.txns[x].kind.job;
        InsertKeepsJobs(s, x, j, EffectOf(h, s, x, AuditStatement(x, id, s.jobs[j], s.txns[x].start, pick)), Audited);
      }
    case Finish(x, acked) => FinishKeepsJobs(s, x, acked);
    case Abandon(x) =>
      if x in s.txns && s.txns[x].kind.Worker? { FailKeepsJobs(s, x, s.txns[x].kind.job); }
    case Do(x, stmt) =>
      DoFrame(h, s, x, stmt);
      OnlyTxnKeepsJobs(s, StepDo(h, s, x, stmt).0, x);
    case EraseNext(x) =>
      EraseNextFrame(s, x);
      OnlyTxnKeepsJobs(s, StepEraseNext(s, x).0, x);
    case _ => OthersKeepJobs(h, s, l);
  }

  // ---------------------------------------------------------------- attempts

  /** A job makes at most three attempts, and is given up after the third; it has exactly one
      commit if it is done and every commit was acknowledged, and none if it is not done and none
      was lost. */
  lemma {:induction false} AttemptsBounded(h: Hasher, s: State, ls: seq<Label>)
    requires JobsOk(s) && WorkersOk(s)
    ensures JobsOk(Run(h, s, ls)) && WorkersOk(Run(h, s, ls))
    ensures forall j | j in Run(h, s, ls).jobs :: var job := Run(h, s, ls).jobs[j];
      && job.attempts <= 3
      && (job.phase.Waiting? ==> job.attempts < 3) && (job.phase.Dead? ==> job.attempts == 3)
      && (job.lostAcks == 0 ==> job.commits == if job.phase.Completed? then 1 else 0)
  {
    if ls == [] {
    } else {
      var n := |ls| - 1;
      AttemptsBounded(h, s, ls[..n]);
      StepKeepsJobs(h, Run(h, s, ls[..n]), ls[n]);
    }
    var s' := Run(h, s, ls);
    forall j | j in s'.jobs ensures JobOk(s'.jobs[j]) {}
  }

  /** The steps a job can still cause: five for each attempt left, and those its running
      transaction has ahead of it. */
  ghost function StepsLeft(s: State, j: JobId): nat
    requires JobsOk(s) && j in s.jobs
  {
    if s.jobs[j].phase.Completed? then 0
    else
      assert JobOk(s.jobs[j]);
      5 * (MAX_ATTEMPTS - s.jobs[j].attempts) + (if exists x :: WorksOn(s, x, j) then Ahead(s, j) else 0)
  }

  ghost function Ahead(s: State, j: JobId): nat
    requires exists x :: WorksOn(s, x, j)
  {
    var x :| WorksOn(s, x, j);
    match s.txns[x].kind.stage
    case Started => 4
    case Checked => 3
    case Logged => 2
    case Audited => 1
  }

  /** The job a step works on: the one it starts, or the one of its worker's transaction. */
  function JobOf(s: State, l: Label): Option<JobId> {
    match l
    case StartJob(_, j, _) => Some(j)
    case CheckWorkflow(x) => JobRunBy(s, x)
    case LogExecution(x, _) => JobRunBy(s, x)
    case LogAudit(x, _, _) => JobRunBy(s, x)
    case Finish(x, _) => JobRunBy(s, x)
    case Abandon(x) => JobRunBy(s, x)
    case _ => None
  }

  function JobRunBy(s: State, x: Session): Option<JobId> {
    if x in s.txns && s.txns[x].kind.Worker? then Some(s.txns[x].kind.job) else None
  }

  lemma AheadIs(s: State, x: Session, j: JobId)
    requires WorkersOk(s) && WorksOn(s, x, j)
    ensures Ahead(s, j) ==
      match s.txns[x].kind.stage
      case Started => 4
      case Checked => 3
      case Logged => 2
      case Audited => 1
  {
  }

  lemma NobodyAhead(s: State, j: JobId)
    requires WorkersOk(s) && j in s.jobs && !s.jobs[j].phase.Active?
    ensures !exists x :: WorksOn(s, x, j)
  {
  }

  lemma StartUsesAttempt(s: State, x: Session, j: JobId, now: int)
    requires JobsOk(s) && WorkersOk(s) && StepStartJob(s, x, j, now).0 != s
    requires JobsOk(StepStartJob(s, x, j, now).0) && WorkersOk(StepStartJob(s, x, j, now).0)
    ensures StepsLeft(StepStartJob(s, x, j, now).0, j) < StepsLeft(s, j) <= 15
  {
    var s' := StepStartJob(s, x, j, now).0;
    NobodyAhead(s, j);
    assert WorksOn(s', x, j);
    AheadIs(s', x, j);
  }

  /** A worker's step that goes on to the next stage, or ends the attempt. */
  lemma StageUsesStep(s: State, s': State, x: Session, j: JobId)
    requires JobsOk(s) && WorkersOk(s) && JobsOk(s') && WorkersOk(s') && WorksOn(s, x, j)
    requires j in s'.jobs && s'.jobs[j].attempts == s.jobs[j].attempts
    requires !s'.jobs[j].phase.Active? || (WorksOn(s', x, j) && NextStage(s.txns[x].kind.stage, s'.txns[x].kind.stage))
    ensures StepsLeft(s', j) < StepsLeft(s, j) <= 15
  {
    assert JobOk(s.jobs[j]);
    AheadIs(s, x, j);
    if s'.jobs[j].phase.Active? { AheadIs(s', x, j); } else { NobodyAhead(s', j); }
  }

  predicate NextStage(a: Stage, b: Stage) {
    match a
    case Started => b == Checked
    case Checked => b == Logged
    case Logged => b == Audited
    case Audited => false
  }

  lemma WorkerMoves(h: Hasher, s: State, l: Label, j: JobId)
    requires !l.StartJob? && JobOf(s, l) == Some(j) && j in s.jobs && s.jobs[j].phase.Active?
    requires Step(h, s, l).0 != s
    ensures var s' := Step(h, s, l).0;
      && j in s'.jobs && s'.jobs[j].attempts == s.jobs[j].attempts
      && (!s'.jobs[j].phase.Active? ||
           (WorksOn(s', l.x, j) && NextStage(s.txns[l.x].kind.stage, s'.txns[l.x].kind.stage)))
  {
  }

  /** Every step of a worker that does something uses up one of its job's steps, of which there
      are fifteen at most. */
  lemma WorkerStepsAreFinite(h: Hasher, s: State, l: Label, j: JobId)
    requires JobsOk(s) && WorkersOk(s)
    requires JobOf(s, l) == Some(j) && Step(h, s, l).0 != s
    ensures j in s.jobs && JobsOk(Step(h, s, l).0)
    ensures j in Step(h, s, l).0.jobs && StepsLeft(Step(h, s, l).0, j) < StepsLeft(s, j) <= 15
  {
    StepKeepsJobs(h, s, l);
    if l.StartJob? {
      StartUsesAttempt(s, l.x, j, l.now);
    } else {
      assert WorksOn(s, l.x, j);
      WorkerMoves(h, s, l, j);
      StageUsesStep(s, Step(h, s, l).0, l.x, j);
    }
  }
}
