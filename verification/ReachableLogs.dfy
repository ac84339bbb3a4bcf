/**
 The audit entries that runs commit are of the kinds whose hashed text can be read back, so
 what a chain's head says of its rows it says of the log of any database a run leads to.
 */
module ReachableLogs {
  import opened Schema
  import opened AuditPreimage
  import opened AuditChain
  import opened AuditOrder
  import opened Database
  import opened Cluster
  import opened ErasureSafety
  import opened WorkflowIntegrity
  import opened AuditCommits
  import opened TamperEvidence

  /** An audit entry has one of the four pairs of action and resource type. */
  predicate IsReadable(row: Row) {
    row.AuditEntry? ==> IsWritten(row.audit.event.action, row.audit.event.resourceType)
  }

  ghost predicate ReadableWrites(w: Writes) {
    forall k | k in w && w[k].Some? :: IsReadable(w[k].value)
  }

  ghost predicate ReadableOk(s: State) {
    && (forall k | k in s.store :: IsReadable(s.store[k]))
    && forall x | x in s.txns :: ReadableWrites(s.txns[x].writes)
  }

  lemma IssuedIsReadable(h: Hasher, view: Store, held: set<Key>, setting: Uuid, start: int, stmt: Statement)
    requires Issued(setting, stmt)
    ensures ReadableWrites(Exec(h, view, held, setting, start, stmt).changes)
  {
  }

  lemma WorkersAreReadable(h: Hasher, view: Store, held: set<Key>, x: Session, start: int, id: Uuid, job: Job,
                           pick: Option<Key>)
    ensures ReadableWrites(Exec(h, view, held, x.tenant, start, LogStatement(x, id, job, start)).changes)
    ensures ReadableWrites(Exec(h, view, held, x.tenant, start, AuditStatement(x, id, job, start, pick)).changes)
  {
  }

  lemma GrowReadable(s: State, x: Session, c: Writes, kind: Kind)
    requires ReadableOk(s) && x in s.txns && ReadableWrites(c)
    ensures ReadableOk(Grow(s, x, c, kind))
  {
    assert ReadableWrites(s.txns[x].writes);
    forall y | y in Grow(s, x, c, kind).txns ensures ReadableWrites(Grow(s, x, c, kind).txns[y].writes) {
      assert y != x ==> ReadableWrites(s.txns[y].writes);
    }
  }

  /** The store is replaced by a part of it, or by what a transaction sees; transactions go. */
  lemma FewerReadable(s: State, s': State)
    requires ReadableOk(s)
    requires forall k | k in s'.store :: k in s.store && s'.store[k] == s.store[k]
    requires forall y | y in s'.txns :: y in s.txns && s'.txns[y] == s.txns[y]
    ensures ReadableOk(s')
  {
  }

  lemma CommitReadable(s: State, s': State, x: Session)
    requires ReadableOk(s) && x in s.txns && s'.store == ViewOf(s, x) && s'.txns == s.txns - {x}
    ensures ReadableOk(s')
  {
    assert ReadableWrites(s.txns[x].writes);
  }

  lemma NewTxnReadable(s: State, s': State, x: Session)
    requires ReadableOk(s) && s'.store == s.store && x in s'.txns && s'.txns[x].writes == map[]
    requires forall y | y in s'.txns && y != x :: y in s.txns && s'.txns[y] == s.txns[y]
    ensures ReadableOk(s')
  {
  }

  lemma DoReadable(h: Hasher, s: State, x: Session, stmt: Statement)
    requires ReadableOk(s) && Issued(x.tenant, stmt)
    ensures ReadableOk(StepDo(h, s, x, stmt).0)
  {
    if x in s.txns && s.txns[x].kind.Application? {
      var e := EffectOf(h, s, x, stmt);
      IssuedIsReadable(h, ViewOf(s, x), Held(s.txns, x), x.tenant, s.txns[x].start, stmt);
      SettleReadable(s, x, e);
    }
  }

  lemma SettleReadable(s: State, x: Session, e: Effect)
    requires ReadableOk(s) && x in s.txns && ReadableWrites(e.changes)
    ensures ReadableOk(Settle(s, x, e).0)
  {
    GrowReadable(s, x, e.changes, Application);
    FewerReadable(s, DropTxn(s, x));
  }

  lemma InsertReadable(s: State, x: Session, j: JobId, e: Effect, stage: Stage)
    requires ReadableOk(s) && x in s.txns && ReadableWrites(e.changes)
    ensures ReadableOk(WorkerInsert(s, x, j, e, stage).0)
  {
    GrowReadable(s, x, e.changes, Worker(j, stage));
    FewerReadable(s, FailAttempt(s, x, j));
  }

  lemma WorkerReadable(h: Hasher, s: State, l: Label)
    requires ReadableOk(s) && (l.CheckWorkflow? || l.LogExecution? || l.LogAudit?)
    ensures ReadableOk(Step(h, s, l).0)
  {
    if l.x in s.txns && s.txns[l.x].kind.Worker? && s.txns[l.x].kind.job in s.jobs {
      var (x, j, start) := (l.x, s.txns[l.x].kind.job, s.txns[l.x].start);
      match l
      case CheckWorkflow(_) =>
        FewerReadable(s, FailAttempt(s, x, j));
        GrowReadable(s, x, map[], Worker(j, Checked));
      case LogExecution(_, id) =>
        WorkersAreReadable(h, ViewOf(s, x), Held(s.txns, x), x, start, id, s.jobs[j], None);
        InsertReadable(s, x, j, EffectOf(h, s, x, LogStatement(x, id, s.jobs[j], start)), Logged);
      case LogAudit(_, id, pick) =>
        WorkersAreReadable(h, ViewOf(s, x), Held(s.txns, x), x, start, id, s.jobs[j], pick);
        InsertReadable(s, x, j, EffectOf(h, s, x, AuditStatement(x, id, s.jobs[j], start, pick)), Audited);
    }
  }

  lemma EraseReadable(s: State, x: Session)
    requires ReadableOk(s)
    ensures ReadableOk(StepEraseNext(s, x).0)
  {
    if x in s.txns && s.txns[x].kind.Erasure? && s.txns[x].kind.done < 10 {
      var n := s.txns[x].kind.done;
      GrowReadable(s, x, map k | k in EraseTargets(ViewOf(s, x), x.tenant, n) :: None, Erasure(n + 1));
      FewerReadable(s, DropTxn(s, x));
    }
  }

  /** Transactions that end or begin, and prunes. */
  lemma EndReadable(h: Hasher, s: State, l: Label)
    requires ReadableOk(s)
    requires !l.Do? && !l.CheckWorkflow? && !l.LogExecution? && !l.LogAudit? && !l.EraseNext?
    ensures ReadableOk(Step(h, s, l).0)
  {
    var s' := Step(h, s, l).0;
    if s' != s {
      match l
      case Commit(x) => CommitReadable(s, s', x);
      case Finish(x, _) => CommitReadable(s, s', x);
      case EndErasure(x) => CommitReadable(s, s', x);
      case Begin(x, _) => NewTxnReadable(s, s', x);
      case StartJob(x, _, _) => NewTxnReadable(s, s', x);
      case BeginErasure(x, _) => NewTxnReadable(s, s', x);
      case _ => FewerReadable(s, s');
    }
  }

  lemma StepKeepsReadable(h: Hasher, s: State, l: Label)
    requires ReadableOk(s) && Legal(l)
    ensures ReadableOk(Step(h, s, l).0)
  {
    if l.Do? {
      DoReadable(h, s, l.x, l.stmt);
    } else if l.CheckWorkflow? || l.LogExecution? || l.LogAudit? {
      WorkerReadable(h, s, l);
    } else if l.EraseNext? {
      EraseReadable(s, l.x);
    } else {
      EndReadable(h, s, l);
    }
  }

  lemma {:induction false} RunKeepsReadable(h: Hasher, s: State, ls: seq<Label>)
    requires Initial(s) && LegalRun(ls)
    ensures ReadableOk(Run(h, s, ls))
  {
    if ls == [] {
      forall k | k in s.store ensures IsReadable(s.store[k]) {
        assert Fits(k, s.store[k]);
      }
    } else {
      var n := |ls| - 1;
      RunKeepsReadable(h, s, ls[..n]);
      StepKeepsReadable(h, Run(h, s, ls[..n]), ls[n]);
    }
  }

  /** Every row of every reachable log is one that the application writes. */
  lemma LogsAreWritten(h: Hasher, s: State, ls: seq<Label>, tenant: Uuid)
    requires Initial(s) && LegalRun(ls)
    ensures Safe(Run(h, s, ls)) && AllWritten(Log(Run(h, s, ls), tenant))
  {
    Reaches(h, s, ls);
    RunKeepsReadable(h, s, ls);
    var t := AuditOf(Run(h, s, ls).store);
    EntriesAreKeyed(Run(h, s, ls).store);
    var l := Ordered(t, TenantKeys(t, tenant));
    forall i | 0 <= i < |l| ensures IsWritten(t[l[i]].event.action, t[l[i]].event.resourceType) {
      assert l[i] in l;
    }
  }

  /** Whatever two databases have gone through: if a tenant's logs verify and have one head, they
      hold the same records in the same order, or two different texts have one digest. */
  lemma ReachableTamperEvidence(p: Platform, s: State, ls: seq<Label>, s': State, ls': seq<Label>, tenant: Uuid)
    requires Sound(p) && Initial(s) && LegalRun(ls) && Initial(s') && LegalRun(ls')
    ensures Safe(Run(ComputeAuditLogHash(p), s, ls)) && Safe(Run(ComputeAuditLogHash(p), s', ls'))
    ensures
      var h := ComputeAuditLogHash(p);
      var (a, b) := (Log(Run(h, s, ls), tenant), Log(Run(h, s', ls'), tenant));
      a != [] && b != [] && Verified(h, a) && Verified(h, b) && Head(a) == Head(b) ==>
        var (x, y) := Collision(p, a, b);
        SameRecords(a, b) || (x != y && p.digest(x) == p.digest(y))
  {
    var h := ComputeAuditLogHash(p);
    LogsAreWritten(h, s, ls, tenant);
    LogsAreWritten(h, s', ls', tenant);
    var (a, b) := (Log(Run(h, s, ls), tenant), Log(Run(h, s', ls'), tenant));
    if a != [] && b != [] && Verified(h, a) && Verified(h, b) && Head(a) == Head(b) {
      TamperEvidence.TamperEvidence(p, a, b);
    }
  }
}
