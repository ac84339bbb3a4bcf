/**
 Retention of execution logs over whole runs: a log stays, unchanged, until a prune comes more
 than 30 days after its start or its tenant is erased, and such a prune takes it.
 */
module Retention {
  import opened Schema
  import opened AuditChain
  import opened Database
  import opened Cluster
  import opened ClusterInvariant
  import opened ErasureSafety
  import opened WorkflowIntegrity

  /** Nobody but an erasure holds a committed log. */
  lemma LogHeldByErasure(s: State, x: Session, k: Key)
    requires RowsOk(s) && x in s.txns && k in s.txns[x].writes
    requires k in s.store && k.table == ExecutionLogs
    ensures s.txns[x].kind.Erasure?
  {
    assert TxnRowsOk(s.store, s.jobs, x, s.txns[x]);
  }

  /** Commits only add logs. */
  lemma CommitKeepsLog(s: State, x: Session, k: Key)
    requires RowsOk(s) && x in s.txns && !s.txns[x].kind.Erasure?
    requires k in s.store && k.table == ExecutionLogs
    ensures k in ViewOf(s, x) && ViewOf(s, x)[k] == s.store[k]
  {
    if k in s.txns[x].writes { LogHeldByErasure(s, x, k); }
  }

  /** When the 30 days of a log are over. */
  predicate TermIsOver(row: Row, now: int)
    requires row.ExecutionRow?
  {
    row.startedAt + 30 * DAY < now
  }

  /** A step takes a log away exactly if it is a prune that goes through after the log's 30
      days, or the end of its tenant's erasure; otherwise the log is as it was. */
  lemma LogGoesWhen(h: Hasher, s: State, l: Label, k: Key)
    requires Safe(s) && RowsOk(s) && Legal(l) && k in s.store && k.table == ExecutionLogs
    ensures s.store[k].ExecutionRow?
    ensures var (s', outcome) := Step(h, s, l);
      && (k !in s'.store <==>
           || (l.Prune? && outcome.Changed? && TermIsOver(s.store[k], l.now))
           || (l.EndErasure? && outcome.Changed? && l.x.tenant == k.tenant))
      && (k in s'.store ==> s'.store[k] == s.store[k])
  {
    assert Fits(k, s.store[k]);
    match l
    case Commit(x) => CommitStepKeepsLog(h, s, l, k);
    case Finish(x, _) => CommitStepKeepsLog(h, s, l, k);
    case EndErasure(x) => EndErasureTakesLog(s, x, k);
    case Prune(now) => PruneTakesLog(s, now, k);
    case _ => QuietSteps(h, s, l);
  }

  lemma CommitStepKeepsLog(h: Hasher, s: State, l: Label, k: Key)
    requires Safe(s) && RowsOk(s) && k in s.store && k.table == ExecutionLogs && (l.Commit? || l.Finish?)
    ensures var store := Step(h, s, l).0.store; k in store && store[k] == s.store[k]
  {
    match l
    case Commit(x) => if x in s.txns && s.txns[x].kind.Application? { CommitKeepsLog(s, x, k); }
    case Finish(x, _) => if AtStage(s, x, Audited) { CommitKeepsLog(s, x, k); }
  }

  lemma EndErasureTakesLog(s: State, x: Session, k: Key)
    requires Safe(s) && k in s.store
    ensures x in s.txns && s.txns[x].kind == Erasure(10) ==>
      var store := CommitTxn(s, x).store;
      (k in store <==> k.tenant != x.tenant) && (k in store ==> store[k] == s.store[k])
  {
    if x in s.txns && s.txns[x].kind == Erasure(10) { EndErasureRemoves(s.store, s.txns, x); }
  }

  lemma PruneTakesLog(s: State, now: int, k: Key)
    requires RowsOk(s) && k in s.store && s.store[k].ExecutionRow?
    ensures var (s', outcome) := StepPrune(s, now);
      && (k !in s'.store <==> outcome.Changed? && TermIsOver(s.store[k], now))
      && (k in s'.store ==> s'.store[k] == s.store[k])
  {
  }

  /** No run takes a log within 30 days of its start unless it erases the tenant. */
  lemma {:induction false} LogStaysThirtyDays(h: Hasher, s: State, ls: seq<Label>, k: Key)
    requires Safe(s) && RowsOk(s) && LegalRun(ls) && k in s.store && s.store[k].ExecutionRow?
    requires forall i | 0 <= i < |ls| && ls[i].Prune? :: !TermIsOver(s.store[k], ls[i].now)
    requires forall i | 0 <= i < |ls| && ls[i].EndErasure? :: ls[i].x.tenant != k.tenant
    ensures k in Run(h, s, ls).store && Run(h, s, ls).store[k] == s.store[k]
  {
    if ls == [] {
    } else {
      var n := |ls| - 1;
      LogStaysThirtyDays(h, s, ls[..n], k);
      RunKeepsRows(h, s, ls[..n]);
      assert Fits(k, s.store[k]);
      LogGoesWhen(h, Run(h, s, ls[..n]), ls[n], k);
    }
  }

  /** An erasure under way has deleted a log that a prune would take. */
  ghost predicate ErasureHoldsExpired(s: State, now: int) {
    exists x, k :: x in s.txns && s.txns[x].kind.Erasure? && k in s.txns[x].writes && k in Expired(s.store, now)
  }

  /** A prune goes through exactly if no erasure under way has deleted an expired log. */
  lemma PruneWaitsForErasures(s: State, now: int)
    requires Safe(s) && RowsOk(s)
    ensures StepPrune(s, now).1.Changed? <==> !ErasureHoldsExpired(s, now)
    ensures !StepPrune(s, now).1.Changed? ==> StepPrune(s, now) == (s, Blocked)
  {
    if ErasureHoldsExpired(s, now) {
      var x, k :| x in s.txns && s.txns[x].kind.Erasure? && k in s.txns[x].writes && k in Expired(s.store, now);
      assert k in HeldByAny(s.txns);
    }
    if k :| k in Expired(s.store, now) && k in HeldByAny(s.txns) {
      var x :| x in s.txns && k in s.txns[x].writes;
      assert Fits(k, s.store[k]);
      LogHeldByErasure(s, x, k);
    }
  }

  /** A prune that goes through leaves no log whose 30 days are over. */
  lemma PruneTakesLogs(s: State, now: int)
    requires Safe(s) && RowsOk(s) && StepPrune(s, now).1.Changed?
    ensures var store := StepPrune(s, now).0.store;
      forall k | k in store && k.table == ExecutionLogs :: store[k].ExecutionRow? && !TermIsOver(store[k], now)
  {
    forall k | k in s.store ensures Fits(k, s.store[k]) {}
  }

  /** Whatever the run did before, the first prune after a log's 30 days takes it, unless it
      waits for an erasure under way, and then it changes nothing. */
  lemma PruneTakesOldLogs(h: Hasher, s: State, ls: seq<Label>, now: int)
    requires Initial(s) && LegalRun(ls)
    ensures
      var before := Run(h, s, ls);
      var after := StepPrune(before, now).0;
      if ErasureHoldsExpired(before, now) then after == before
      else forall k | k in after.store && k.table == ExecutionLogs ::
        after.store[k].ExecutionRow? && !TermIsOver(after.store[k], now)
  {
    InitialOk(s);
    RunKeepsRows(h, s, ls);
    var before := Run(h, s, ls);
    PruneWaitsForErasures(before, now);
    if !ErasureHoldsExpired(before, now) { PruneTakesLogs(before, now); }
  }
}
