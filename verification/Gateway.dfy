/**
 The gateway's withTenant over its pool of one connection. A callback is a function from the
 results it has got so far to what it does next. `WithTenant` is one call; `Step` interleaves
 the steps of any number of calls; the theorem is that the interleaving does not show.
 */
module Gateway {
  import opened Schema
  import opened AuditChain
  import opened Database

  datatype Action = Query(stmt: Statement) | Return | Throw

  type Callback = seq<Outcome> -> Action

  // ---------------------------------------------------------------- a callback by itself

  /** The results and the changes of a callback's first `n` queries, run alone on `store`. */
  function Play(h: Hasher, store: Store, tenant: Uuid, start: int, next: Callback, n: nat): (seq<Outcome>, Writes) {
    if n == 0 then ([], map[])
    else
      var (seen, writes) := Play(h, store, tenant, start, next, n - 1);
      match next(seen)
      case Query(stmt) =>
        var e := Exec(h, Overlay(store, writes), {}, tenant, start, stmt);
        (seen + [e.outcome], writes + e.changes)
      case _ => (seen, writes)
  }

  /** What the callback does after `n` queries, as the connection takes it: a query that fails
      throws. */
  function ActionAfter(h: Hasher, store: Store, tenant: Uuid, start: int, next: Callback, n: nat): Action {
    var (seen, writes) := Play(h, store, tenant, start, next, n);
    match next(seen)
    case Query(stmt) =>
      if Exec(h, Overlay(store, writes), {}, tenant, start, stmt).outcome.Failed? then Throw else next(seen)
    case _ => next(seen)
  }

  /** The callback comes to its end after exactly `n` queries. */
  ghost predicate EndsAfter(h: Hasher, store: Store, tenant: Uuid, start: int, next: Callback, n: nat) {
    && !ActionAfter(h, store, tenant, start, next, n).Query?
    && forall i: nat | i < n :: ActionAfter(h, store, tenant, start, next, i).Query?
  }

  /** The store after a callback of `n` queries that returned. */
  function Served(h: Hasher, store: Store, tenant: Uuid, start: int, next: Callback, n: nat): Store {
    Overlay(store, Play(h, store, tenant, start, next, n).1)
  }

  // ---------------------------------------------------------------- one call

  /** A session of the database: the open transaction's setting, start and changes. The third
      argument of set_config makes the setting the transaction's own. */
  datatype Session = Idle | InTransaction(setting: Option<Uuid>, start: int, writes: Writes)

  /** The callback has made `i` of its `n` queries in this session. */
  ghost predicate IsPlaying(h: Hasher, store: Store, tenant: Uuid, start: int, next: Callback, n: nat, i: nat,
                            session: Session, seen: seq<Outcome>) {
    && EndsAfter(h, store, tenant, start, next, n) && i <= n
    && session == InTransaction(Some(tenant), start, Play(h, store, tenant, start, next, i).1)
    && seen == Play(h, store, tenant, start, next, i).0
  }

  lemma PlayOn(h: Hasher, store: Store, tenant: Uuid, start: int, next: Callback, n: nat, i: nat,
               session: Session, seen: seq<Outcome>)
    requires IsPlaying(h, store, tenant, start, next, n, i, session, seen) && next(seen).Query?
    ensures
      var e := Exec(h, Overlay(store, session.writes), {}, tenant, start, next(seen).stmt);
      if e.outcome.Failed? then ActionAfter(h, store, tenant, start, next, n).Throw?
      else i < n && IsPlaying(h, store, tenant, start, next, n, i + 1, session.(writes := session.writes + e.changes),
                              seen + [e.outcome])
  {
    var e := Exec(h, Overlay(store, session.writes), {}, tenant, start, next(seen).stmt);
    assert Play(h, store, tenant, start, next, i + 1) == (seen + [e.outcome], session.writes + e.changes);
    assert i < n ==> ActionAfter(h, store, tenant, start, next, i).Query?;
  }

  lemma PlayEnds(h: Hasher, store: Store, tenant: Uuid, start: int, next: Callback, n: nat, i: nat,
                 session: Session, seen: seq<Outcome>)
    requires IsPlaying(h, store, tenant, start, next, n, i, session, seen) && !next(seen).Query?
    ensures i == n && ActionAfter(h, store, tenant, start, next, n) == next(seen)
  {
    assert i < n ==> ActionAfter(h, store, tenant, start, next, i).Query?;
  }

  class Client {
    var store: Store
    var session: Session

    constructor (rows: Store)
      ensures store == rows && session == Idle
    {
      store, session := rows, Idle;
    }

    method Begin(now: int)
      modifies this`session
      ensures session == if old(session).Idle? then InTransaction(None, now, map[]) else old(session)
    {
      if session.Idle? {
        session := InTransaction(None, now, map[]);
      }
    }

    method SetTenant(tenant: Uuid)
      modifies this`session
      ensures session == if old(session).Idle? then Idle else old(session).(setting := Some(tenant))
    {
      if session.InTransaction? {
        session := session.(setting := Some(tenant));
      }
    }

    method Query(h: Hasher, stmt: Statement) returns (outcome: Outcome)
      requires session.InTransaction? && session.setting.Some?
      modifies this`session
      ensures
        var e := Exec(h, Overlay(store, old(session).writes), {}, old(session).setting.value, old(session).start, stmt);
        outcome == e.outcome && session == old(session).(writes := old(session).writes + e.changes)
    {
      var e := Exec(h, Overlay(store, session.writes), {}, session.setting.value, session.start, stmt);
      session := session.(writes := session.writes + e.changes);
      outcome := e.outcome;
    }

    method Commit()
      modifies this
      ensures session == Idle
      ensures store == if old(session).Idle? then old(store) else Overlay(old(store), old(session).writes)
    {
      if session.InTransaction? {
        store := Overlay(store, session.writes);
      }
      session := Idle;
    }

    method Rollback()
      modifies this`session
      ensures session == Idle
    {
      session := Idle;
    }

    /** withTenant: the callback's changes are committed if it returns and no query breaks, and
        dropped if it, or a query of it, throws. If the reply to COMMIT is lost they are there
        although the call throws; either way the session is idle again. BEGIN and set_config
        are the queries 0 and 1, the callback's follow, and COMMIT is the last. */
    method WithTenant(h: Hasher, tenant: Uuid, next: Callback, now: int, breaksAt: Option<nat>, acked: bool,
                      ghost n: nat)
      returns (result: Option<seq<Outcome>>)
      requires session == Idle
      requires EndsAfter(h, store, tenant, now, next, n)
      modifies this
      ensures session == Idle
      ensures
        var commits := ActionAfter(h, old(store), tenant, now, next, n).Return? && !Breaks(breaksAt, n + 3);
        && (result.Some? <==> commits && acked)
        && (result.Some? ==> result.value == Play(h, old(store), tenant, now, next, n).0)
        && store == if commits then Served(h, old(store), tenant, now, next, n) else old(store)
    {
      if Breaks(breaksAt, 1) {
        Rollback();
        return None;
      }
      Begin(now);
      if Breaks(breaksAt, 2) {
        Rollback();
        return None;
      }
      SetTenant(tenant);
      var (seen, i, failed) := ([], 0, false);
      while !failed && next(seen).Query?
        invariant store == old(store)
        invariant if failed then ActionAfter(h, store, tenant, now, next, n).Throw? || Breaks(breaksAt, n + 2)
                  else IsPlaying(h, store, tenant, now, next, n, i, session, seen) && !Breaks(breaksAt, i + 2)
        decreases n - i, !failed
      {
        PlayOn(h, store, tenant, now, next, n, i, session, seen);
        if Breaks(breaksAt, i + 3) {
          failed := true;
        } else {
          var outcome := Query(h, next(seen).stmt);
          if outcome.Failed? {
            failed := true;
          } else {
            seen, i := seen + [outcome], i + 1;
          }
        }
      }
      if !failed { PlayEnds(h, store, tenant, now, next, n, i, session, seen); }
      if failed || !next(seen).Return? || Breaks(breaksAt, i + 3) {
        Rollback();
        return None;
      }
      Commit();
      if !acked {
        Rollback();
        return None;
      }
      return Some(seen);
    }
  }

  // ---------------------------------------------------------------- many calls, one connection

  /** Where a call of withTenant is. `Closed` is after COMMIT or ROLLBACK and before the
      client's release. */
  datatype Stage =
    | Pending
    | Connected
    | Opened(start: int)
    | Playing(start: int, seen: seq<Outcome>)
    | Throwing
    | Closed(end: End)
    | Released(end: End)

  datatype End = Committed(start: int, queries: nat) | RolledBack

  datatype Call = Call(tenant: Uuid, next: Callback, stage: Stage)

  type CallId = nat

  /** `acquired` is history: the calls in the order in which they got the connection. */
  datatype Pool = Pool(
    store: Store,
    session: Session,
    owner: Option<CallId>,
    calls: map<CallId, Call>,
    acquired: seq<CallId>)

  /** `Advance` is the next thing a call does with its client; `Fault` is an error of any of
      its queries that is not the statement's doing. */
  datatype Label =
    | Arrive(c: CallId, tenant: Uuid, next: Callback)
    | Acquire(c: CallId)
    | Advance(c: CallId, now: int)
    | Fault(c: CallId)

  function SetStage(s: Pool, c: CallId, stage: Stage): Pool
    requires c in s.calls
  {
    s.(calls := s.calls[c := s.calls[c].(stage := stage)])
  }

  /** A query on the connection, whoever set its tenant. */
  function StepPlay(h: Hasher, s: Pool, c: CallId): Pool
    requires c in s.calls && s.calls[c].stage.Playing?
  {
    var (start, seen) := (s.calls[c].stage.start, s.calls[c].stage.seen);
    match s.calls[c].next(seen)
    case Query(stmt) =>
      if s.session.Idle? || s.session.setting.None? then SetStage(s, c, Throwing)
      else
        var e := Exec(h, Overlay(s.store, s.session.writes), {}, s.session.setting.value, s.session.start, stmt);
        if e.outcome.Failed? then SetStage(s, c, Throwing)
        else
          SetStage(s.(session := s.session.(writes := s.session.writes + e.changes)),
                   c, Playing(start, seen + [e.outcome]))
    case Return =>
      var store := if s.session.Idle? then s.store else Overlay(s.store, s.session.writes);
      SetStage(s.(store := store, session := Idle), c, Closed(Committed(start, |seen|)))
    case Throw => SetStage(s, c, Throwing)
  }

  function StepAdvance(h: Hasher, s: Pool, c: CallId, now: int): Pool {
    if c !in s.calls then s
    else
      match s.calls[c].stage
      case Connected =>
        SetStage(s.(session := if s.session.Idle? then InTransaction(None, now, map[]) else s.session), c, Opened(now))
      case Opened(start) =>
        SetStage(s.(session := if s.session.Idle? then Idle else s.session.(setting := Some(s.calls[c].tenant))),
                 c, Playing(start, []))
      case Playing(_, _) => StepPlay(h, s, c)
      case Throwing => SetStage(s.(session := Idle), c, Closed(RolledBack))
      case Closed(end) => SetStage(s.(owner := None), c, Released(end))
      case _ => s
  }

  function Step(h: Hasher, s: Pool, l: Label): Pool {
    match l
    case Arrive(c, tenant, next) =>
      if c in s.calls then s else s.(calls := s.calls[c := Call(tenant, next, Pending)])
    case Acquire(c) =>
      if c in s.calls && s.calls[c].stage.Pending? && s.owner.None?
      then SetStage(s.(owner := Some(c), acquired := s.acquired + [c]), c, Connected)
      else s
    case Advance(c, now) => StepAdvance(h, s, c, now)
    case Fault(c) =>
      if c in s.calls && (s.calls[c].stage.Connected? || s.calls[c].stage.Opened? || s.calls[c].stage.Playing?)
      then SetStage(s, c, Throwing)
      else s
  }

  function Run(h: Hasher, s: Pool, ls: seq<Label>): Pool {
    if ls == [] then s else Step(h, Run(h, s, ls[..|ls| - 1]), ls[|ls| - 1])
  }

  function Fresh(store: Store): Pool {
    Pool(store, Idle, None, map[], [])
  }

  // ---------------------------------------------------------------- the serial run

  predicate HasClient(stage: Stage) {
    !stage.Pending? && !stage.Released?
  }

  predicate HasCommitted(stage: Stage) {
    (stage.Closed? || stage.Released?) && stage.end.Committed?
  }

  /** The store after the committed calls, one after the other, in the order in which they got
      the connection. */
  function SerialStore(h: Hasher, store: Store, calls: map<CallId, Call>, order: seq<CallId>): Store {
    if order == [] then store
    else
      var n := |order| - 1;
      var before := SerialStore(h, store, calls, order[..n]);
      if order[n] in calls && HasCommitted(calls[order[n]].stage)
      then
        var (call, end) := (calls[order[n]], calls[order[n]].stage.end);
        Served(h, before, call.tenant, end.start, call.next, end.queries)
      else before
  }

  /** A committed call's callback, run alone in its turn, returns after as many queries. */
  ghost predicate Returned(h: Hasher, before: Store, call: Call) {
    HasCommitted(call.stage) ==>
      var end := call.stage.end;
      && EndsAfter(h, before, call.tenant, end.start, call.next, end.queries)
      && ActionAfter(h, before, call.tenant, end.start, call.next, end.queries).Return?
  }

  lemma {:induction false} SerialUntouched(h: Hasher, store: Store, calls: map<CallId, Call>, order: seq<CallId>,
                                           c: CallId, call: Call)
    requires c !in order
    ensures SerialStore(h, store, calls[c := call], order) == SerialStore(h, store, calls, order)
  {
    if order == [] {
    } else {
      SerialUntouched(h, store, calls, order[..|order| - 1], c, call);
    }
  }

  // ---------------------------------------------------------------- the invariant

  /** What the session holds while its owner is at a stage. A call that is playing has got the
      results, and made the changes, of its own queries run alone on the committed rows. */
  ghost predicate SessionFits(h: Hasher, store: Store, session: Session, call: Call) {
    match call.stage
    case Opened(start) => session == InTransaction(None, start, map[])
    case Playing(start, seen) =>
      && session == InTransaction(Some(call.tenant), start, Play(h, store, call.tenant, start, call.next, |seen|).1)
      && seen == Play(h, store, call.tenant, start, call.next, |seen|).0
      && forall i: nat | i < |seen| :: ActionAfter(h, store, call.tenant, start, call.next, i).Query?
    case Throwing => session.InTransaction? && session.setting.Some? ==> session.setting == Some(call.tenant)
    case _ => session == Idle
  }

  /** The calls that have got the connection, each once; the owner is the last of them. */
  ghost predicate OrderOk(s: Pool) {
    && (forall c :: c in s.acquired <==> c in s.calls && !s.calls[c].stage.Pending?)
    && (forall i, j | 0 <= i < j < |s.acquired| :: s.acquired[i] != s.acquired[j])
    && (forall c | c in s.calls :: HasClient(s.calls[c].stage) <==> s.owner == Some(c))
    && (s.owner.Some? ==> s.owner.value in s.calls && s.acquired != [] && s.acquired[|s.acquired| - 1] == s.owner.value)
  }

  ghost predicate Serialized(h: Hasher, store: Store, s: Pool) {
    && s.store == SerialStore(h, store, s.calls, s.acquired)
    && forall i | 0 <= i < |s.acquired| && s.acquired[i] in s.calls ::
         Returned(h, SerialStore(h, store, s.calls, s.acquired[..i]), s.calls[s.acquired[i]])
  }

  ghost predicate PoolOk(h: Hasher, store: Store, s: Pool) {
    && OrderOk(s)
    && (if s.owner.Some? && s.owner.value in s.calls then SessionFits(h, s.store, s.session, s.calls[s.owner.value])
        else s.session == Idle)
    && Serialized(h, store, s)
  }

  // ---------------------------------------------------------------- steps

  /** The calls before the last one do not change with it. */
  lemma EarlierCalls(h: Hasher, store: Store, s: Pool, c: CallId, call: Call, i: nat)
    requires OrderOk(s) && s.owner == Some(c) && i < |s.acquired|
    ensures SerialStore(h, store, s.calls[c := call], s.acquired[..i])
         == SerialStore(h, store, s.calls, s.acquired[..i])
    ensures i < |s.acquired| - 1 ==> s.acquired[i] != c
  {
    SerialUntouched(h, store, s.calls, s.acquired[..i], c, call);
  }

  /** The owner goes on, and the committed rows are what the calls before it left. */
  lemma OwnerOrder(s: Pool, s': Pool, c: CallId, call: Call)
    requires OrderOk(s) && s.owner == Some(c)
    requires s'.calls == s.calls[c := call] && s'.acquired == s.acquired
    requires if call.stage.Released? then s'.owner == None else HasClient(call.stage) && s'.owner == s.owner
    ensures OrderOk(s')
  {
  }

  lemma ReturnedKept(h: Hasher, store: Store, s: Pool, c: CallId, call: Call, i: nat)
    requires OrderOk(s) && s.owner == Some(c) && Serialized(h, store, s)
    requires i < |s.acquired| && s.acquired[i] in s.calls
    requires Returned(h, SerialStore(h, store, s.calls, s.acquired[..|s.acquired| - 1]), call)
    ensures
      var calls := s.calls[c := call];
      Returned(h, SerialStore(h, store, calls, s.acquired[..i]), calls[s.acquired[i]])
  {
    EarlierCalls(h, store, s, c, call, i);
  }

  lemma OwnerSerialized(h: Hasher, store: Store, s: Pool, s': Pool, c: CallId, call: Call)
    requires OrderOk(s) && s.owner == Some(c) && Serialized(h, store, s)
    requires s'.calls == s.calls[c := call] && s'.acquired == s.acquired
    requires var before := SerialStore(h, store, s.calls, s.acquired[..|s.acquired| - 1]);
      && Returned(h, before, call)
      && s'.store == if HasCommitted(call.stage)
                     then Served(h, before, call.tenant, call.stage.end.start, call.next, call.stage.end.queries)
                     else before
    ensures Serialized(h, store, s')
  {
    forall i | 0 <= i < |s'.acquired| && s'.acquired[i] in s'.calls
      ensures Returned(h, SerialStore(h, store, s'.calls, s'.acquired[..i]), s'.calls[s'.acquired[i]])
    {
      ReturnedKept(h, store, s, c, call, i);
    }
    EarlierCalls(h, store, s, c, call, |s.acquired| - 1);
  }

  lemma BeforeOwner(h: Hasher, store: Store, s: Pool, c: CallId)
    requires OrderOk(s) && s.owner == Some(c) && Serialized(h, store, s)
    ensures
      var before := SerialStore(h, store, s.calls, s.acquired[..|s.acquired| - 1]);
      var (call, n) := (s.calls[c], |s.acquired| - 1);
      && Returned(h, before, call)
      && s.store == if HasCommitted(call.stage)
                    then Served(h, before, call.tenant, call.stage.end.start, call.next, call.stage.end.queries)
                    else before
  {
    assert s.acquired[|s.acquired| - 1] in s.calls;
  }

  /** The owner goes on to a stage that is not after its commit. */
  lemma StageKeeps(h: Hasher, store: Store, s: Pool, s': Pool, c: CallId, stage: Stage)
    requires PoolOk(h, store, s) && s.owner == Some(c) && !HasCommitted(s.calls[c].stage)
    requires s'.calls == s.calls[c := s.calls[c].(stage := stage)] && s'.acquired == s.acquired
    requires s'.owner == s.owner && s'.store == s.store
    requires HasClient(stage) && !HasCommitted(stage) && SessionFits(h, s.store, s'.session, s'.calls[c])
    ensures PoolOk(h, store, s')
  {
    BeforeOwner(h, store, s, c);
    OwnerOrder(s, s', c, s'.calls[c]);
    OwnerSerialized(h, store, s, s', c, s'.calls[c]);
  }

  lemma CommitKeeps(h: Hasher, store: Store, s: Pool, c: CallId)
    requires PoolOk(h, store, s) && s.owner == Some(c) && s.calls[c].stage.Playing?
    requires s.calls[c].next(s.calls[c].stage.seen).Return?
    ensures PoolOk(h, store, StepPlay(h, s, c))
  {
    var s' := StepPlay(h, s, c);
    BeforeOwner(h, store, s, c);
    OwnerOrder(s, s', c, s'.calls[c]);
    OwnerSerialized(h, store, s, s', c, s'.calls[c]);
  }

  lemma QueryKeeps(h: Hasher, store: Store, s: Pool, c: CallId)
    requires PoolOk(h, store, s) && s.owner == Some(c) && s.calls[c].stage.Playing?
    requires s.calls[c].next(s.calls[c].stage.seen).Query?
    ensures PoolOk(h, store, StepPlay(h, s, c))
  {
    var s' := StepPlay(h, s, c);
    var call := s.calls[c];
    QueryFits(h, s.store, s.session, call);
    StageKeeps(h, store, s, s', c, s'.calls[c].stage);
  }

  /** One more query of the callback is one more step of it alone. */
  lemma QueryFits(h: Hasher, store: Store, session: Session, call: Call)
    requires call.stage.Playing? && SessionFits(h, store, session, call)
    requires call.next(call.stage.seen).Query?
    ensures
      var (start, seen) := (call.stage.start, call.stage.seen);
      var e := Exec(h, Overlay(store, session.writes), {}, session.setting.value, session.start, call.next(seen).stmt);
      if e.outcome.Failed? then SessionFits(h, store, session, call.(stage := Throwing))
      else SessionFits(h, store, session.(writes := session.writes + e.changes),
                       call.(stage := Playing(start, seen + [e.outcome])))
  {
  }

  lemma ReleaseReturns(h: Hasher, before: Store, call: Call)
    requires Returned(h, before, call) && call.stage.Closed?
    ensures Returned(h, before, call.(stage := Released(call.stage.end)))
  {
  }

  lemma ReleaseSerialized(h: Hasher, store: Store, s: Pool, s': Pool, c: CallId, call: Call)
    requires OrderOk(s) && Serialized(h, store, s) && s.owner == Some(c) && s.calls[c].stage.Closed?
    requires call == s.calls[c].(stage := Released(s.calls[c].stage.end))
    requires s' == s.(calls := s.calls[c := call], owner := None)
    ensures OrderOk(s') && Serialized(h, store, s')
  {
    BeforeOwner(h, store, s, c);
    OwnerOrder(s, s', c, call);
    ReleaseReturns(h, SerialStore(h, store, s.calls, s.acquired[..|s.acquired| - 1]), s.calls[c]);
    OwnerSerialized(h, store, s, s', c, call);
  }

  lemma ReleaseStep(h: Hasher, s: Pool, c: CallId, now: int)
    requires c in s.calls && s.calls[c].stage.Closed?
    ensures StepAdvance(h, s, c, now) ==
      s.(calls := s.calls[c := s.calls[c].(stage := Released(s.calls[c].stage.end))], owner := None)
  {
  }

  lemma ClosedIsIdle(h: Hasher, store: Store, s: Pool, c: CallId)
    requires PoolOk(h, store, s) && s.owner == Some(c) && s.calls[c].stage.Closed?
    ensures s.session == Idle
  {
  }

  lemma ReleaseKeeps(h: Hasher, store: Store, s: Pool, c: CallId, now: int)
    requires PoolOk(h, store, s) && s.owner == Some(c) && s.calls[c].stage.Closed?
    ensures PoolOk(h, store, StepAdvance(h, s, c, now))
  {
    var call := s.calls[c].(stage := Released(s.calls[c].stage.end));
    var s' := s.(calls := s.calls[c := call], owner := None);
    ReleaseStep(h, s, c, now);
    ClosedIsIdle(h, store, s, c);
    ReleaseSerialized(h, store, s, s', c, call);
  }

  lemma PlayKeeps(h: Hasher, store: Store, s: Pool, c: CallId)
    requires PoolOk(h, store, s) && s.owner == Some(c) && s.calls[c].stage.Playing?
    ensures PoolOk(h, store, StepPlay(h, s, c))
  {
    match s.calls[c].next(s.calls[c].stage.seen)
    case Query(_) => QueryKeeps(h, store, s, c);
    case Return => CommitKeeps(h, store, s, c);
    case Throw => StageKeeps(h, store, s, StepPlay(h, s, c), c, Throwing);
  }

  /** BEGIN, set_config and ROLLBACK. */
  lemma SessionKeeps(h: Hasher, store: Store, s: Pool, c: CallId, now: int)
    requires PoolOk(h, store, s) && s.owner == Some(c)
    requires s.calls[c].stage.Connected? || s.calls[c].stage.Opened? || s.calls[c].stage.Throwing?
    ensures PoolOk(h, store, StepAdvance(h, s, c, now))
  {
    var s' := StepAdvance(h, s, c, now);
    StageKeeps(h, store, s, s', c, s'.calls[c].stage);
  }

  lemma AdvanceKeeps(h: Hasher, store: Store, s: Pool, c: CallId, now: int)
    requires PoolOk(h, store, s)
    ensures PoolOk(h, store, StepAdvance(h, s, c, now))
  {
    if c in s.calls && HasClient(s.calls[c].stage) {
      assert s.owner == Some(c);
      if s.calls[c].stage.Playing? {
        PlayKeeps(h, store, s, c);
      } else if s.calls[c].stage.Closed? {
        ReleaseKeeps(h, store, s, c, now);
      } else {
        SessionKeeps(h, store, s, c, now);
      }
    }
  }

  /** A call without an end of its own is added or changed behind the others' backs. */
  lemma SerializedKept(h: Hasher, store: Store, s: Pool, c: CallId, call: Call)
    requires Serialized(h, store, s) && c !in s.acquired
    ensures Serialized(h, store, s.(calls := s.calls[c := call]))
  {
    SerialUntouched(h, store, s.calls, s.acquired, c, call);
    forall i | 0 <= i < |s.acquired| && s.acquired[i] in s.calls
      ensures s.acquired[i] != c
      ensures SerialStore(h, store, s.calls[c := call], s.acquired[..i])
           == SerialStore(h, store, s.calls, s.acquired[..i])
    {
      SerialUntouched(h, store, s.calls, s.acquired[..i], c, call);
    }
  }

  /** A call without an end is acquired last. */
  lemma SerializedLonger(h: Hasher, store: Store, s: Pool, s': Pool, c: CallId)
    requires Serialized(h, store, s) && c in s.calls && !HasCommitted(s.calls[c].stage)
    requires s'.calls == s.calls && s'.store == s.store && s'.acquired == s.acquired + [c]
    ensures Serialized(h, store, s')
  {
    var n := |s.acquired|;
    assert s'.acquired[..n] == s.acquired;
    forall i | 0 <= i < |s'.acquired| && s'.acquired[i] in s'.calls
      ensures Returned(h, SerialStore(h, store, s'.calls, s'.acquired[..i]), s'.calls[s'.acquired[i]])
    {
      assert i <= n ==> s'.acquired[..i] == s.acquired[..i];
    }
  }

  lemma AcquireOrder(s: Pool, s': Pool, c: CallId, call: Call)
    requires OrderOk(s) && c in s.calls && s.calls[c].stage.Pending? && s.owner.None? && call.stage == Connected
    requires s'.calls == s.calls[c := call] && s'.owner == Some(c) && s'.acquired == s.acquired + [c]
    ensures OrderOk(s')
  {
  }

  lemma ArriveOrder(s: Pool, c: CallId, call: Call)
    requires OrderOk(s) && c !in s.calls && call.stage.Pending?
    ensures OrderOk(s.(calls := s.calls[c := call])) && c !in s.acquired && s.owner != Some(c)
  {
  }

  lemma ArriveKeeps(h: Hasher, store: Store, s: Pool, c: CallId, tenant: Uuid, next: Callback)
    requires PoolOk(h, store, s) && c !in s.calls
    ensures PoolOk(h, store, s.(calls := s.calls[c := Call(tenant, next, Pending)]))
  {
    ArriveOrder(s, c, Call(tenant, next, Pending));
    SerializedKept(h, store, s, c, Call(tenant, next, Pending));
  }

  lemma AcquireKeeps(h: Hasher, store: Store, s: Pool, c: CallId)
    requires PoolOk(h, store, s) && c in s.calls && s.calls[c].stage.Pending? && s.owner.None?
    ensures PoolOk(h, store, Step(h, s, Acquire(c)))
  {
    var call := s.calls[c].(stage := Connected);
    var middle := s.(calls := s.calls[c := call]);
    var s' := Step(h, s, Acquire(c));
    assert c !in s.acquired;
    SerializedKept(h, store, s, c, call);
    SerializedLonger(h, store, middle, s', c);
    AcquireOrder(s, s', c, call);
  }

  lemma StepKeepsPool(h: Hasher, store: Store, s: Pool, l: Label)
    requires PoolOk(h, store, s)
    ensures PoolOk(h, store, Step(h, s, l))
  {
    match l
    case Arrive(c, tenant, next) => if c !in s.calls { ArriveKeeps(h, store, s, c, tenant, next); }
    case Acquire(c) =>
      if c in s.calls && s.calls[c].stage.Pending? && s.owner.None? { AcquireKeeps(h, store, s, c); }
    case Advance(c, now) => AdvanceKeeps(h, store, s, c, now);
    case Fault(c) =>
      if Step(h, s, l) != s && c in s.calls { StageKeeps(h, store, s, Step(h, s, l), c, Throwing); }
  }

  /** However the calls are interleaved: one call at most has the connection; the session is
      idle between owners, and within one it carries the owner's tenant or none; every result
      a callback has got, and in the end the store, is that of the committed callbacks run one
      after the other in the order in which they got the connection. */
  lemma {:induction false} PoolOfOneSerializes(h: Hasher, store: Store, ls: seq<Label>)
    ensures PoolOk(h, store, Run(h, Fresh(store), ls))
  {
    if ls == [] {
    } else {
      var n := |ls| - 1;
      PoolOfOneSerializes(h, store, ls[..n]);
      StepKeepsPool(h, store, Run(h, Fresh(store), ls[..n]), ls[n]);
    }
  }

  /** Two calls never hold the connection at once, and no setting outlives its owner. */
  lemma OneTenantAtATime(h: Hasher, store: Store, ls: seq<Label>)
    ensures
      var s := Run(h, Fresh(store), ls);
      && (forall c, d | c in s.calls && d in s.calls ::
            HasClient(s.calls[c].stage) && HasClient(s.calls[d].stage) ==> c == d)
      && (s.owner.None? ==> s.session == Idle)
      && (s.session.InTransaction? && s.session.setting.Some? ==>
            s.owner.Some? && s.owner.value in s.calls && s.session.setting.value == s.calls[s.owner.value].tenant)
  {
    PoolOfOneSerializes(h, store, ls);
  }
}
