/**
 The webhook receiver and its replay window: a signed delivery is accepted once, and its id
 again only when ten minutes have passed. The window is a Redis key that expires; what it is
 for is a statement about all earlier deliveries, and the two are proved to agree.
 */
module Webhook {
  import opened Schema

  const REPLAY_TTL_SECONDS: int := 10 * 60

  /** The same in the milliseconds of Redis's clock. */
  const WINDOW: int := 1000 * REPLAY_TTL_SECONDS

  /** The header, the body's JSON text and the body's id. A missing header or id is the empty
      text, which the receiver treats alike. */
  datatype Request = Request(signature: string, payload: string, id: string)

  /** What becomes of a command: an answer, no connection, or a lost answer to a command that
      was carried out. */
  datatype Redis = Up | Unreachable | ReplyLost

  datatype Delivery = Delivery(request: Request, now: int, redis: Redis)

  /** In their order: 401, 401, 400, 409, 200 and 500. */
  datatype Response =
    | MissingSignature
    | InvalidSignature
    | IdRequired
    | DuplicateRejected
    | Accepted
    | ProcessingFailed

  /** HMAC-SHA-256 under the shared secret, in hexadecimal. */
  type Mac = string -> string

  type Keys = map<string, int>

  function ReplayKey(id: string): string {
    "webhook:replay:" + id
  }

  lemma ReplayKeyInjective(a: string, b: string)
    requires ReplayKey(a) == ReplayKey(b)
    ensures a == b
  {
    assert ReplayKey(a)[15..] == a && ReplayKey(b)[15..] == b;
  }

  /** A key lives until its expiry time. */
  predicate IsAlive(keys: Keys, key: string, now: int) {
    key in keys && now < keys[key]
  }

  /** The response to a request that does not get as far as the replay check. */
  function Refusal(mac: Mac, r: Request): Option<Response> {
    if r.signature == "" then Some(MissingSignature)
    else if r.signature != mac(r.payload) then Some(InvalidSignature)
    else if r.id == "" then Some(IdRequired)
    else None
  }

  // ---------------------------------------------------------------- the receiver

  /** SET key 1 EX seconds NX */
  function SetIfAbsent(keys: Keys, key: string, seconds: int, now: int): Keys {
    if IsAlive(keys, key, now) then keys else keys[key := now + 1000 * seconds]
  }

  /** The keys whose time is not up: Redis drops the others when it likes. */
  function Living(keys: Keys, now: int): Keys {
    map key | key in keys && now < keys[key] :: keys[key]
  }

  class Receiver {
    var keys: Keys

    constructor ()
      ensures keys == map[]
    {
      keys := map[];
    }

    /** The Redis command. */
    method Set(key: string, seconds: int, now: int) returns (stored: bool)
      modifies this
      ensures stored <==> !IsAlive(old(keys), key, now)
      ensures keys == SetIfAbsent(old(keys), key, seconds, now)
    {
      stored := !IsAlive(keys, key, now);
      if stored {
        keys := keys[key := now + 1000 * seconds];
      }
    }

    method DropExpired(now: int)
      modifies this
      ensures keys == Living(old(keys), now)
      ensures forall key :: key in keys <==> key in old(keys) && now < old(keys)[key]
      ensures forall key | key in keys :: keys[key] == old(keys)[key]
    {
      keys := map key | key in keys && now < keys[key] :: keys[key];
    }

    /** POST /test: refused requests and duplicates leave the keys, and so the window, alone. */
    method Receive(mac: Mac, d: Delivery) returns (response: Response)
      modifies this
      ensures keys == After(mac, old(keys), Deliver(d))
      ensures response == Answer(mac, old(keys), d)
      ensures !response.Accepted? && !d.redis.ReplyLost? ==> keys == old(keys)
      ensures d.request.signature == "" || d.request.signature != mac(d.request.payload) ==>
        keys == old(keys) && (response.MissingSignature? || response.InvalidSignature?)
    {
      if d.request.signature == "" {
        return MissingSignature;
      }
      var expectedSignature := mac(d.request.payload);
      if d.request.signature != expectedSignature {
        return InvalidSignature;
      }
      if d.request.id == "" {
        return IdRequired;
      }
      if d.redis.Unreachable? {
        return ProcessingFailed;
      }
      var wasStored := Set(ReplayKey(d.request.id), REPLAY_TTL_SECONDS, d.now);
      if d.redis.ReplyLost? {
        return ProcessingFailed;
      }
      if !wasStored {
        return DuplicateRejected;
      }
      return Accepted;
    }
  }

  // ---------------------------------------------------------------- runs of the receiver

  datatype Step = Deliver(delivery: Delivery) | DropExpired(now: int)

  function TimeOf(step: Step): int {
    match step
    case Deliver(d) => d.now
    case DropExpired(now) => now
  }

  /** A request that gets to the replay check, and whose command gets to Redis. */
  predicate ReachesRedis(mac: Mac, d: Delivery) {
    Refusal(mac, d.request).None? && !d.redis.Unreachable?
  }

  function After(mac: Mac, keys: Keys, step: Step): Keys {
    match step
    case Deliver(d) =>
      if ReachesRedis(mac, d) then SetIfAbsent(keys, ReplayKey(d.request.id), REPLAY_TTL_SECONDS, d.now) else keys
    case DropExpired(now) => Living(keys, now)
  }

  function Answer(mac: Mac, keys: Keys, d: Delivery): Response {
    if Refusal(mac, d.request).Some? then Refusal(mac, d.request).value
    else if !d.redis.Up? then ProcessingFailed
    else if IsAlive(keys, ReplayKey(d.request.id), d.now) then DuplicateRejected
    else Accepted
  }

  /** Every answer and its condition. Only a delivery that carries the text's own signature and
      an id gets to Redis, and it stores the id's key for 600 seconds exactly if there is none
      alive; every other delivery leaves the keys alone. */
  lemma ReceiverAnswers(mac: Mac, keys: Keys, d: Delivery)
    ensures
      var (r, answer, key) := (d.request, Answer(mac, keys, d), "webhook:replay:" + d.request.id);
      var signed := r.signature != "" && r.signature == mac(r.payload);
      var known := key in keys && d.now < keys[key];
      && (answer.MissingSignature? <==> r.signature == "")
      && (answer.InvalidSignature? <==> r.signature != "" && r.signature != mac(r.payload))
      && (answer.IdRequired? <==> signed && r.id == "")
      && (answer.ProcessingFailed? <==> signed && r.id != "" && !d.redis.Up?)
      && (answer.DuplicateRejected? <==> signed && r.id != "" && d.redis.Up? && known)
      && (answer.Accepted? <==> signed && r.id != "" && d.redis.Up? && !known)
      && After(mac, keys, Deliver(d)) ==
           (if signed && r.id != "" && !d.redis.Unreachable? && !known then keys[key := d.now + 600000] else keys)
  {
  }

  function KeysAfter(mac: Mac, steps: seq<Step>): Keys {
    if steps == [] then map[]
    else After(mac, KeysAfter(mac, steps[..|steps| - 1]), steps[|steps| - 1])
  }

  // ---------------------------------------------------------------- the clock

  function Readings(steps: seq<Step>): (ts: seq<int>)
    ensures |ts| == |steps|
  {
    seq(|steps|, i requires 0 <= i < |steps| => TimeOf(steps[i]))
  }

  /** A window opens, its end is seen, and then a time before its end. */
  predicate ComesBack(ts: seq<int>, a: nat, i: nat, j: nat)
    requires a < i < j < |ts|
  {
    ts[a] + WINDOW <= ts[i] && ts[j] < ts[a] + WINDOW
  }

  /** The clock never comes back into a window whose end it has passed. */
  ghost predicate NeverComesBack(ts: seq<int>) {
    forall a: nat, i: nat, j: nat | a < i < j < |ts| :: !ComesBack(ts, a, i, j)
  }

  lemma ForwardClockNeverComesBack(ts: seq<int>)
    requires forall i, j | 0 <= i < j < |ts| :: ts[i] <= ts[j]
    ensures NeverComesBack(ts)
  {
  }

  lemma ReadingsSnoc(steps: seq<Step>, n: nat)
    requires n < |steps|
    ensures Readings(steps[..n]) == Readings(steps)[..n]
    ensures Readings(steps[..n + 1]) == Readings(steps[..n]) + [TimeOf(steps[n])]
  {
  }

  lemma NeverBefore(ts: seq<int>, n: nat)
    requires NeverComesBack(ts) && n <= |ts|
    ensures NeverComesBack(ts[..n])
  {
    forall a: nat, i: nat, j: nat | a < i < j < n ensures !ComesBack(ts[..n], a, i, j) {
      assert !ComesBack(ts, a, i, j);
    }
  }

  // ---------------------------------------------------------------- how long a key lives

  /** The delivery's command stores its key. */
  predicate Stores(mac: Mac, keys: Keys, d: Delivery) {
    ReachesRedis(mac, d) && !IsAlive(keys, ReplayKey(d.request.id), d.now)
  }

  predicate StoresAt(mac: Mac, steps: seq<Step>, a: nat) {
    a < |steps| && steps[a].Deliver? && Stores(mac, KeysAfter(mac, steps[..a]), steps[a].delivery)
  }

  lemma KeysSnoc(mac: Mac, steps: seq<Step>, n: nat)
    requires n < |steps|
    ensures KeysAfter(mac, steps[..n + 1]) == After(mac, KeysAfter(mac, steps[..n]), steps[n])
  {
    assert steps[..n + 1][..n] == steps[..n];
  }

  /** A stored key stays, with its expiry time, while the clock shows no time past it. */
  lemma {:induction false} KeyLasts(mac: Mac, steps: seq<Step>, a: nat, n: nat)
    requires StoresAt(mac, steps, a) && a < n <= |steps|
    requires forall i | a < i < n :: TimeOf(steps[i]) < TimeOf(steps[a]) + WINDOW
    ensures var (keys, key) := (KeysAfter(mac, steps[..n]), ReplayKey(steps[a].delivery.request.id));
      key in keys && keys[key] == TimeOf(steps[a]) + WINDOW
  {
    KeysSnoc(mac, steps, n - 1);
    if n == a + 1 {
    } else {
      KeyLasts(mac, steps, a, n - 1);
    }
  }

  /** Every key was stored by a delivery of its id. */
  lemma {:induction false} KeyWasStored(mac: Mac, steps: seq<Step>, id: string) returns (a: nat)
    requires ReplayKey(id) in KeysAfter(mac, steps)
    ensures StoresAt(mac, steps, a) && steps[a].delivery.request.id == id
    ensures KeysAfter(mac, steps)[ReplayKey(id)] == TimeOf(steps[a]) + WINDOW
  {
    var n := |steps| - 1;
    var (before, step) := (KeysAfter(mac, steps[..n]), steps[n]);
    if ReplayKey(id) in before && KeysAfter(mac, steps)[ReplayKey(id)] == before[ReplayKey(id)] {
      a := KeyWasStored(mac, steps[..n], id);
      assert steps[..n][..a] == steps[..a];
    } else {
      a := n;
      ReplayKeyInjective(id, step.delivery.request.id);
    }
  }

  // ---------------------------------------------------------------- the history

  /** That an id was let through at a time. */
  datatype Mark = Mark(id: string, at: int)

  /** The id was let through less than ten minutes ago. */
  ghost predicate IsRecent(marks: seq<Mark>, id: string, now: int) {
    exists i :: 0 <= i < |marks| && marks[i].id == id && now < marks[i].at + WINDOW
  }

  /** All that was ever let through, decided by looking at all of it. */
  ghost function MarksAfter(mac: Mac, steps: seq<Step>): seq<Mark> {
    if steps == [] then []
    else
      var marks := MarksAfter(mac, steps[..|steps| - 1]);
      var step := steps[|steps| - 1];
      if step.Deliver? && ReachesRedis(mac, step.delivery)
         && !IsRecent(marks, step.delivery.request.id, step.delivery.now)
      then marks + [Mark(step.delivery.request.id, step.delivery.now)]
      else marks
  }

  lemma RecentSnoc(marks: seq<Mark>, mark: Mark, id: string, t: int)
    ensures IsRecent(marks + [mark], id, t) <==> IsRecent(marks, id, t) || (mark.id == id && t < mark.at + WINDOW)
  {
    var all := marks + [mark];
    if IsRecent(marks, id, t) {
      var i :| 0 <= i < |marks| && marks[i].id == id && t < marks[i].at + WINDOW;
      assert all[i] == marks[i];
    }
    if mark.id == id && t < mark.at + WINDOW { assert all[|marks|] == mark; }
  }

  /** The receiver stored the id's key less than ten minutes before `t`. */
  ghost predicate StoredRecently(mac: Mac, steps: seq<Step>, id: string, t: int) {
    exists a: nat :: StoresAt(mac, steps, a) && steps[a].delivery.request.id == id && t < TimeOf(steps[a]) + WINDOW
  }

  lemma StoredSnoc(mac: Mac, steps: seq<Step>, id: string, t: int)
    requires steps != []
    ensures
      var n := |steps| - 1;
      StoredRecently(mac, steps, id, t) <==>
        || StoredRecently(mac, steps[..n], id, t)
        || (StoresAt(mac, steps, n) && steps[n].delivery.request.id == id && t < TimeOf(steps[n]) + WINDOW)
  {
    var n := |steps| - 1;
    forall a: nat | a < n ensures StoresAt(mac, steps[..n], a) <==> StoresAt(mac, steps, a) {
      assert steps[..n][..a] == steps[..a];
    }
  }

  /** Unless the clock has come back, a key is alive exactly if it was stored recently. */
  lemma AliveIffStored(mac: Mac, steps: seq<Step>, id: string, t: int)
    requires NeverComesBack(Readings(steps) + [t])
    ensures IsAlive(KeysAfter(mac, steps), ReplayKey(id), t) <==> StoredRecently(mac, steps, id, t)
  {
    var ts := Readings(steps) + [t];
    if IsAlive(KeysAfter(mac, steps), ReplayKey(id), t) {
      var a := KeyWasStored(mac, steps, id);
    }
    if StoredRecently(mac, steps, id, t) {
      var a: nat :|
        StoresAt(mac, steps, a) && steps[a].delivery.request.id == id && t < TimeOf(steps[a]) + WINDOW;
      forall i | a < i < |steps| ensures TimeOf(steps[i]) < TimeOf(steps[a]) + WINDOW {
        assert !ComesBack(ts, a, i, |steps|);
      }
      KeyLasts(mac, steps, a, |steps|);
      assert steps[..|steps|] == steps;
    }
  }

  lemma {:induction false} MarksAreStores(mac: Mac, steps: seq<Step>, id: string, t: int)
    requires NeverComesBack(Readings(steps))
    ensures IsRecent(MarksAfter(mac, steps), id, t) <==> StoredRecently(mac, steps, id, t)
    decreases |steps|
  {
    if steps == [] {
    } else {
      var n := |steps| - 1;
      assert steps[..n + 1] == steps;
      ReadingsSnoc(steps, n);
      NeverBefore(Readings(steps), n);
      MarksAreStores(mac, steps[..n], id, t);
      StoredSnoc(mac, steps, id, t);
      if steps[n].Deliver? {
        var d := steps[n].delivery;
        MarksAreStores(mac, steps[..n], d.request.id, d.now);
        AliveIffStored(mac, steps[..n], d.request.id, d.now);
        RecentSnoc(MarksAfter(mac, steps[..n]), Mark(d.request.id, d.now), id, t);
      }
    }
  }

  /** Unless the clock has come back, the expiring keys say of every id what the history says. */
  lemma KeysAgreeWithHistory(mac: Mac, steps: seq<Step>, id: string, t: int)
    requires NeverComesBack(Readings(steps) + [t])
    ensures IsAlive(KeysAfter(mac, steps), ReplayKey(id), t) <==> IsRecent(MarksAfter(mac, steps), id, t)
  {
    NeverBefore(Readings(steps) + [t], |steps|);
    assert (Readings(steps) + [t])[..|steps|] == Readings(steps);
    MarksAreStores(mac, steps, id, t);
    AliveIffStored(mac, steps, id, t);
  }

  /** A signed delivery is accepted exactly if its id was not let through in the ten minutes
      before; the rejected deliveries in between make no difference. */
  lemma AcceptedIffNotRecent(mac: Mac, steps: seq<Step>, d: Delivery)
    requires NeverComesBack(Readings(steps) + [d.now])
    requires Refusal(mac, d.request).None? && d.redis.Up?
    ensures Answer(mac, KeysAfter(mac, steps), d) ==
      if IsRecent(MarksAfter(mac, steps), d.request.id, d.now) then DuplicateRejected else Accepted
  {
    KeysAgreeWithHistory(mac, steps, d.request.id, d.now);
  }

  // ---------------------------------------------------------------- the window

  /** The delivery is accepted. */
  predicate AcceptsAt(mac: Mac, steps: seq<Step>, a: nat) {
    a < |steps| && steps[a].Deliver? && Answer(mac, KeysAfter(mac, steps[..a]), steps[a].delivery) == Accepted
  }

  /** It is exactly if it stores its key and the sender is told. */
  lemma AcceptedIsStored(mac: Mac, keys: Keys, d: Delivery)
    ensures Answer(mac, keys, d) == Accepted <==> Stores(mac, keys, d) && d.redis.Up?
  {
  }

  /** No id is accepted again before the window is over that its acceptance opened. */
  ghost predicate KeepsWindow(mac: Mac, steps: seq<Step>) {
    forall a: nat, j: nat | a < j && AcceptsAt(mac, steps, a) && AcceptsAt(mac, steps, j)
      && steps[a].delivery.request.id == steps[j].delivery.request.id ::
      TimeOf(steps[a]) + WINDOW <= TimeOf(steps[j])
  }

  lemma StoresAreApart(mac: Mac, steps: seq<Step>, a: nat, j: nat)
    requires NeverComesBack(Readings(steps)) && a < j && StoresAt(mac, steps, a) && StoresAt(mac, steps, j)
    requires steps[a].delivery.request.id == steps[j].delivery.request.id
    ensures TimeOf(steps[a]) + WINDOW <= TimeOf(steps[j])
  {
    if TimeOf(steps[j]) < TimeOf(steps[a]) + WINDOW {
      forall i | a < i < j ensures TimeOf(steps[i]) < TimeOf(steps[a]) + WINDOW {
        assert !ComesBack(Readings(steps), a, i, j);
      }
      KeyLasts(mac, steps, a, j);
    }
  }

  /** A run that accepts the request at `a` and again at `j`: Redis drops the key at `i`, and
      the other steps come to nothing. */
  function AcceptingTwice(r: Request, ts: seq<int>, a: nat, i: nat, j: nat): (steps: seq<Step>)
    ensures |steps| == |ts|
  {
    seq(|ts|, k requires 0 <= k < |ts| =>
      if k == i then DropExpired(ts[k])
      else Deliver(Delivery(r, ts[k], if k == a || k == j then Up else Unreachable)))
  }

  lemma {:induction false} AcceptingTwiceKeys(mac: Mac, r: Request, ts: seq<int>, a: nat, i: nat, j: nat, n: nat)
    requires Refusal(mac, r).None? && a < i < j < |ts| && ComesBack(ts, a, i, j) && n <= j
    ensures KeysAfter(mac, AcceptingTwice(r, ts, a, i, j)[..n]) ==
      if a < n <= i then map[ReplayKey(r.id) := ts[a] + WINDOW] else map[]
  {
    if n == 0 {
    } else {
      AcceptingTwiceKeys(mac, r, ts, a, i, j, n - 1);
      KeysSnoc(mac, AcceptingTwice(r, ts, a, i, j), n - 1);
    }
  }

  lemma AcceptsTwice(mac: Mac, r: Request, ts: seq<int>, a: nat, i: nat, j: nat)
    requires Refusal(mac, r).None? && a < i < j < |ts| && ComesBack(ts, a, i, j)
    ensures var steps := AcceptingTwice(r, ts, a, i, j);
      Readings(steps) == ts && AcceptsAt(mac, steps, a) && AcceptsAt(mac, steps, j) && !KeepsWindow(mac, steps)
  {
    var steps := AcceptingTwice(r, ts, a, i, j);
    AcceptingTwiceKeys(mac, r, ts, a, i, j, a);
    AcceptingTwiceKeys(mac, r, ts, a, i, j, j);
    assert steps[a].delivery.request.id == steps[j].delivery.request.id;
  }

  lemma WindowIsKept(mac: Mac, steps: seq<Step>)
    requires NeverComesBack(Readings(steps))
    ensures KeepsWindow(mac, steps)
  {
    forall a: nat, j: nat | a < j && AcceptsAt(mac, steps, a) && AcceptsAt(mac, steps, j)
      && steps[a].delivery.request.id == steps[j].delivery.request.id
      ensures TimeOf(steps[a]) + WINDOW <= TimeOf(steps[j])
    {
      AcceptedIsStored(mac, KeysAfter(mac, steps[..a]), steps[a].delivery);
      AcceptedIsStored(mac, KeysAfter(mac, steps[..j]), steps[j].delivery);
      StoresAreApart(mac, steps, a, j);
    }
  }

  /** Exactly which clocks keep the window: every run with these readings does if and only if
      they never come back into a window whose end they have passed. */
  lemma WindowKeptIff(mac: Mac, r: Request, ts: seq<int>)
    requires Refusal(mac, r).None?
    ensures (forall steps | Readings(steps) == ts :: KeepsWindow(mac, steps)) <==> NeverComesBack(ts)
  {
    if NeverComesBack(ts) {
      forall steps | Readings(steps) == ts ensures KeepsWindow(mac, steps) {
        WindowIsKept(mac, steps);
      }
    } else {
      var a: nat, i: nat, j: nat :| a < i < j < |ts| && ComesBack(ts, a, i, j);
      AcceptsTwice(mac, r, ts, a, i, j);
    }
  }

  // ---------------------------------------------------------------- how often

  /** The times, from `a` to `b`, at which the receiver stored the id's key; if `told`, those
      at which it also told the sender. */
  function TimesOf(mac: Mac, steps: seq<Step>, id: string, a: int, b: int, told: bool): (times: seq<int>)
    ensures forall i | 0 <= i < |times| :: a <= times[i] <= b
  {
    if steps == [] then []
    else
      var n := |steps| - 1;
      TimesOf(mac, steps[..n], id, a, b, told)
      + (if StoresAt(mac, steps, n) && steps[n].delivery.request.id == id && a <= TimeOf(steps[n]) <= b
            && (told ==> steps[n].delivery.redis.Up?)
         then [TimeOf(steps[n])] else [])
  }

  /** The times, from `a` to `b`, at which the receiver answered that it accepted the id. */
  function AcceptedTimes(mac: Mac, steps: seq<Step>, id: string, a: int, b: int): (times: seq<int>) {
    if steps == [] then []
    else
      var n := |steps| - 1;
      AcceptedTimes(mac, steps[..n], id, a, b)
      + (if AcceptsAt(mac, steps, n) && steps[n].delivery.request.id == id && a <= TimeOf(steps[n]) <= b
         then [TimeOf(steps[n])] else [])
  }

  ghost predicate Apart(times: seq<int>) {
    forall i, j | 0 <= i < j < |times| :: times[i] + WINDOW <= times[j]
  }

  lemma {:induction false} TimeHasStore(mac: Mac, steps: seq<Step>, id: string, a: int, b: int, told: bool, t: int)
    returns (k: nat)
    requires t in TimesOf(mac, steps, id, a, b, told)
    ensures StoresAt(mac, steps, k) && steps[k].delivery.request.id == id && TimeOf(steps[k]) == t
  {
    var n := |steps| - 1;
    if t in TimesOf(mac, steps[..n], id, a, b, told) {
      k := TimeHasStore(mac, steps[..n], id, a, b, told, t);
      assert steps[..n][..k] == steps[..k];
    } else {
      k := n;
    }
  }

  lemma LastIsApart(mac: Mac, steps: seq<Step>, id: string, a: int, b: int, told: bool, t: int)
    requires NeverComesBack(Readings(steps)) && steps != [] && StoresAt(mac, steps, |steps| - 1)
    requires steps[|steps| - 1].delivery.request.id == id
    requires t in TimesOf(mac, steps[..|steps| - 1], id, a, b, told)
    ensures t + WINDOW <= TimeOf(steps[|steps| - 1])
  {
    var n := |steps| - 1;
    var k := TimeHasStore(mac, steps[..n], id, a, b, told, t);
    assert steps[..n][..k] == steps[..k];
    StoresAreApart(mac, steps, k, n);
  }

  lemma {:induction false} TimesAreApart(mac: Mac, steps: seq<Step>, id: string, a: int, b: int, told: bool)
    requires NeverComesBack(Readings(steps))
    ensures Apart(TimesOf(mac, steps, id, a, b, told))
  {
    if steps == [] {
    } else {
      var n := |steps| - 1;
      var before := TimesOf(mac, steps[..n], id, a, b, told);
      ReadingsSnoc(steps, n);
      NeverBefore(Readings(steps), n);
      TimesAreApart(mac, steps[..n], id, a, b, told);
      if StoresAt(mac, steps, n) && steps[n].delivery.request.id == id {
        forall i | 0 <= i < |before| ensures before[i] + WINDOW <= TimeOf(steps[n]) {
          LastIsApart(mac, steps, id, a, b, told, before[i]);
        }
      }
    }
  }

  lemma {:induction false} AcceptedTimesAgree(mac: Mac, steps: seq<Step>, id: string, a: int, b: int)
    ensures AcceptedTimes(mac, steps, id, a, b) == TimesOf(mac, steps, id, a, b, true)
  {
    if steps == [] {
    } else {
      var n := |steps| - 1;
      AcceptedTimesAgree(mac, steps[..n], id, a, b);
      if steps[n].Deliver? { AcceptedIsStored(mac, KeysAfter(mac, steps[..n]), steps[n].delivery); }
    }
  }

  lemma {:induction false} ApartTakesTime(times: seq<int>)
    requires Apart(times) && times != []
    ensures times[0] + WINDOW * (|times| - 1) <= times[|times| - 1]
  {
    if |times| == 1 {
    } else {
      var n := |times| - 1;
      ApartTakesTime(times[..n]);
      assert times[..n][n - 1] + WINDOW <= times[n];
    }
  }

  /** Times ten minutes apart within a stretch of seconds are few. */
  lemma ApartAreFew(times: seq<int>, from: int, seconds: nat)
    requires Apart(times) && forall i | 0 <= i < |times| :: from <= times[i] <= from + 1000 * seconds
    ensures |times| <= seconds / 600 + 1
  {
    if times != [] {
      ApartTakesTime(times);
      assert WINDOW * (|times| - 1) <= 1000 * seconds;
      assert 600 * (|times| - 1) <= seconds;
    }
  }

  /** Unless the clock comes back, the receiver stores an id's key again ten minutes later at
      the earliest, and in any stretch of seconds at most once more than every ten minutes. */
  lemma StoresBounded(mac: Mac, steps: seq<Step>, id: string, from: int, seconds: nat)
    requires NeverComesBack(Readings(steps))
    ensures var times := TimesOf(mac, steps, id, from, from + 1000 * seconds, false);
      Apart(times) && |times| <= seconds / 600 + 1
  {
    var b := from + 1000 * seconds;
    TimesAreApart(mac, steps, id, from, b, false);
    ApartAreFew(TimesOf(mac, steps, id, from, b, false), from, seconds);
  }

  /** And so it is with what it answers: acceptances of an id are ten minutes apart. */
  lemma AcceptancesBounded(mac: Mac, steps: seq<Step>, id: string, from: int, seconds: nat)
    requires NeverComesBack(Readings(steps))
    ensures var times := AcceptedTimes(mac, steps, id, from, from + 1000 * seconds);
      Apart(times) && |times| <= seconds / 600 + 1
  {
    var b := from + 1000 * seconds;
    AcceptedTimesAgree(mac, steps, id, from, b);
    TimesAreApart(mac, steps, id, from, b, true);
    ApartAreFew(TimesOf(mac, steps, id, from, b, true), from, seconds);
  }
}
