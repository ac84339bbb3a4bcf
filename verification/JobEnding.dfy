/**
 Jobs end: no run does more than fifteen steps for a job, and as long as it is neither
 completed nor dead there is a step that can be done for it.
 */
module JobEnding {
  import opened Schema
  import opened AuditChain
  import opened Database
  import opened Cluster
  import opened JobLifecycle

  // ---------------------------------------------------------------- one step

  ghost predicate TakesStep(h: Hasher, s: State, l: Label, j: JobId) {
    JobOf(s, l) == Some(j) && Step(h, s, l).0 != s
  }

  /** The steps of a run that did something for the job. */
  ghost function StepsTaken(h: Hasher, s: State, ls: seq<Label>, j: JobId): nat {
    if ls == [] then 0
    else
      var n := |ls| - 1;
      StepsTaken(h, s, ls[..n], j) + (if TakesStep(h, Run(h, s, ls[..n]), ls[n], j) then 1 else 0)
  }

  /** The job and whoever works on it are as they were. */
  ghost predicate SameJob(s: State, s': State, j: JobId) {
    && j in s.jobs && j in s'.jobs && s'.jobs[j] == s.jobs[j]
    && forall y :: (WorksOn(s', y, j) <==> WorksOn(s, y, j))
         && (WorksOn(s, y, j) && WorksOn(s', y, j) ==> s'.txns[y].kind == s.txns[y].kind)
  }

  lemma SameJobLeft(s: State, s': State, j: JobId)
    requires JobsOk(s) && WorkersOk(s) && JobsOk(s') && WorkersOk(s') && SameJob(s, s', j)
    ensures StepsLeft(s', j) == StepsLeft(s, j)
  {
    if x :| WorksOn(s, x, j) {
      assert WorksOn(s', x, j);
      AheadIs(s, x, j);
      AheadIs(s', x, j);
    }
  }

  lemma InsertForAnother(s: State, x: Session, i: JobId, e: Effect, stage: Stage, j: JobId)
    requires WorksOn(s, x, i) && i != j && j in s.jobs
    ensures SameJob(s, WorkerInsert(s, x, i, e, stage).0, j)
  {
  }

  lemma LogForAnother(h: Hasher, s: State, l: Label, j: JobId)
    requires j in s.jobs && JobOf(s, l) != Some(j) && (l.LogExecution? || l.LogAudit?)
    ensures SameJob(s, Step(h, s, l).0, j)
  {
    if l.x in s.txns && s.txns[l.x].kind.Worker? && s.txns[l.x].kind.job in s.jobs {
      var (i, start) := (s.txns[l.x].kind.job, s.txns[l.x].start);
      if l.LogExecution? {
        InsertForAnother(s, l.x, i, EffectOf(h, s, l.x, LogStatement(l.x, l.id, s.jobs[i], start)), Logged, j);
      } else {
        var stmt := AuditStatement(l.x, l.id, s.jobs[i], start, l.pick);
        InsertForAnother(s, l.x, i, EffectOf(h, s, l.x, stmt), Audited, j);
      }
    }
  }

  lemma StatementForNone(h: Hasher, s: State, x: Session, stmt: Statement, j: JobId)
    requires j in s.jobs
    ensures SameJob(s, StepDo(h, s, x, stmt).0, j)
  {
    if x in s.txns && s.txns[x].kind.Application? { SettleFrame(s, x, EffectOf(h, s, x, stmt)); }
  }

  lemma EraseForNone(s: State, x: Session, j: JobId)
    requires j in s.jobs
    ensures SameJob(s, StepEraseNext(s, x).0, j)
  {
  }

  lemma AttemptForAnother(h: Hasher, s: State, l: Label, j: JobId)
    requires j in s.jobs && JobOf(s, l) != Some(j)
    requires l.StartJob? || l.CheckWorkflow? || l.Finish? || l.Abandon?
    ensures SameJob(s, Step(h, s, l).0, j)
  {
  }

  /** A step for another job, or for none, is nothing to this one. */
  lemma StepForAnother(h: Hasher, s: State, l: Label, j: JobId)
    requires j in s.jobs && JobOf(s, l) != Some(j)
    ensures SameJob(s, Step(h, s, l).0, j)
  {
    match l
    case Do(x, stmt) => StatementForNone(h, s, x, stmt, j);
    case EraseNext(x) => EraseForNone(s, x, j);
    case LogExecution(_, _) => LogForAnother(h, s, l, j);
    case LogAudit(_, _, _) => LogForAnother(h, s, l, j);
    case StartJob(_, _, _) => AttemptForAnother(h, s, l, j);
    case CheckWorkflow(_) => AttemptForAnother(h, s, l, j);
    case Finish(_, _) => AttemptForAnother(h, s, l, j);
    case Abandon(_) => AttemptForAnother(h, s, l, j);
    case _ =>
  }

  lemma FullMeasure(s: State, j: JobId)
    requires JobsOk(s) && WorkersOk(s) && j in s.jobs
    ensures StepsLeft(s, j) <= 15
  {
    assert JobOk(s.jobs[j]);
    if x :| WorksOn(s, x, j) { AheadIs(s, x, j); }
  }

  lemma StepUsesMeasure(h: Hasher, s: State, l: Label, j: JobId)
    requires JobsOk(s) && WorkersOk(s) && JobsOk(Step(h, s, l).0) && WorkersOk(Step(h, s, l).0)
    ensures TakesStep(h, s, l, j) ==> j in s.jobs && j in Step(h, s, l).0.jobs
    ensures j in s.jobs ==> j in Step(h, s, l).0.jobs
    ensures j in s.jobs ==>
      StepsLeft(Step(h, s, l).0, j) + (if TakesStep(h, s, l, j) then 1 else 0) <= StepsLeft(s, j)
  {
    if TakesStep(h, s, l, j) {
      WorkerStepsAreFinite(h, s, l, j);
    } else if JobOf(s, l) != Some(j) && j in s.jobs {
      StepForAnother(h, s, l, j);
      SameJobLeft(s, Step(h, s, l).0, j);
    }
  }

  // ---------------------------------------------------------------- nobody waits for ever

  /** An active job has a transaction that works on it. */
  ghost predicate ActiveJobsRun(s: State) {
    forall j | j in s.jobs && s.jobs[j].phase.Active? :: exists x :: WorksOn(s, x, j)
  }

  lemma NewJobsWait(h: Hasher, s: State, l: Label, j: JobId)
    requires WorkersOk(s) && j !in s.jobs
    ensures j in Step(h, s, l).0.jobs ==> Step(h, s, l).0.jobs[j].phase.Waiting?
  {
    match l
    case Do(x, stmt) => DoFrame(h, s, x, stmt);
    case EraseNext(x) => EraseNextFrame(s, x);
    case LogExecution(x, id) => LogFrame(h, s, x, id, None);
    case LogAudit(x, id, pick) => LogFrame(h, s, x, id, pick);
    case _ =>
  }

  lemma OwnStepRuns(h: Hasher, s: State, l: Label, j: JobId)
    requires JobsOk(s) && WorkersOk(s) && ActiveJobsRun(s) && j in s.jobs && JobOf(s, l) == Some(j)
    ensures var s' := Step(h, s, l).0;
      j in s'.jobs && (s'.jobs[j].phase.Active? ==> exists x :: WorksOn(s', x, j))
  {
    var s' := Step(h, s, l).0;
    if s' != s {
      if l.StartJob? {
        assert WorksOn(s', l.x, j);
      } else {
        assert WorksOn(s, l.x, j);
        WorkerMoves(h, s, l, j);
      }
    }
  }

  lemma StepKeepsActive(h: Hasher, s: State, l: Label)
    requires JobsOk(s) && WorkersOk(s) && ActiveJobsRun(s)
    ensures ActiveJobsRun(Step(h, s, l).0)
  {
    var s' := Step(h, s, l).0;
    forall j | j in s'.jobs && s'.jobs[j].phase.Active? ensures exists x :: WorksOn(s', x, j) {
      if j !in s.jobs {
        NewJobsWait(h, s, l, j);
      } else if JobOf(s, l) == Some(j) {
        OwnStepRuns(h, s, l, j);
      } else {
        StepForAnother(h, s, l, j);
        var x :| WorksOn(s, x, j);
        assert WorksOn(s', x, j);
      }
    }
  }

  predicate HasEnded(job: Job) {
    job.phase.Completed? || job.phase.Dead?
  }

  /** A job has no step left exactly if it is completed or dead. */
  lemma MeasureIsZero(s: State, j: JobId)
    requires JobsOk(s) && WorkersOk(s) && ActiveJobsRun(s) && j in s.jobs
    ensures StepsLeft(s, j) == 0 <==> HasEnded(s.jobs[j])
  {
    assert JobOk(s.jobs[j]);
    if s.jobs[j].phase.Active? {
      var x :| WorksOn(s, x, j);
      AheadIs(s, x, j);
    } else {
      NobodyAhead(s, j);
    }
  }

  lemma {:induction false} NumbersBounded(xs: set<Session>) returns (n: nat)
    ensures forall x | x in xs :: x.number < n
  {
    if xs == {} {
      n := 0;
    } else {
      var x :| x in xs;
      n := NumbersBounded(xs - {x});
      n := if x.number < n then n else x.number + 1;
    }
  }

  /** A job that is neither can always go on: a waiting one can be started in a new
      transaction, and the attempt of an active one can at least be abandoned. */
  lemma JobCanGoOn(h: Hasher, s: State, j: JobId) returns (l: Label)
    requires JobsOk(s) && WorkersOk(s) && ActiveJobsRun(s) && j in s.jobs && !HasEnded(s.jobs[j])
    ensures Legal(l) && TakesStep(h, s, l, j)
  {
    if s.jobs[j].phase.Waiting? {
      var n := NumbersBounded(s.txns.Keys);
      var x := Session(j.tenant, n);
      l := StartJob(x, j, 0);
      assert x !in s.txns && x in Step(h, s, l).0.txns;
    } else {
      var x :| WorksOn(s, x, j);
      l := Abandon(x);
      assert x in s.txns && x !in Step(h, s, l).0.txns;
    }
  }

  ghost predicate Stuck(h: Hasher, s: State, j: JobId) {
    forall l | Legal(l) :: !TakesStep(h, s, l, j)
  }

  /** No step is possible for a job exactly if it is completed or dead. */
  lemma StuckIffEnded(h: Hasher, s: State, j: JobId)
    requires JobsOk(s) && WorkersOk(s) && ActiveJobsRun(s) && j in s.jobs
    ensures Stuck(h, s, j) <==> HasEnded(s.jobs[j])
  {
    MeasureIsZero(s, j);
    if HasEnded(s.jobs[j]) {
      forall l | Legal(l) ensures !TakesStep(h, s, l, j) {
        if TakesStep(h, s, l, j) { WorkerStepsAreFinite(h, s, l, j); }
      }
    } else {
      var l := JobCanGoOn(h, s, j);
    }
  }

  /** Every job comes to an end, whatever else happens: no run does more than fifteen steps for
      it, and one that can do no more for it leaves it completed or dead. */
  lemma {:induction false} JobsEnd(h: Hasher, s: State, ls: seq<Label>, j: JobId)
    requires JobsOk(s) && WorkersOk(s) && ActiveJobsRun(s)
    ensures var s' := Run(h, s, ls);
      && JobsOk(s') && WorkersOk(s') && ActiveJobsRun(s')
      && StepsTaken(h, s, ls, j) + (if j in s'.jobs then StepsLeft(s', j) else 0) <= 15
      && (j !in s'.jobs ==> StepsTaken(h, s, ls, j) == 0)
      && (j in s'.jobs ==> (Stuck(h, s', j) <==> HasEnded(s'.jobs[j])))
  {
    AttemptsBounded(h, s, ls);
    var s' := Run(h, s, ls);
    if ls == [] {
      if j in s.jobs { FullMeasure(s, j); }
    } else {
      var n := |ls| - 1;
      JobsEnd(h, s, ls[..n], j);
      StepUsesMeasure(h, Run(h, s, ls[..n]), ls[n], j);
      StepKeepsActive(h, Run(h, s, ls[..n]), ls[n]);
      if j in s'.jobs { FullMeasure(s', j); }
    }
    if j in s'.jobs { StuckIffEnded(h, s', j); }
  }
}
