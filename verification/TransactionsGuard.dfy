/**
 The idempotency guard and the controller as written: Redis keys and request fields updated in place,
 with any Redis call failing as a parameter. Both are proved to be runs of the lock machine.
 */
module TransactionsGuard {
  import opened Prelude
  import opened Text
  import opened TransferLock

  // ---------- what the guard reads from a request ----------

  datatype Header = Absent | Single(text: string) | Many(texts: seq<string>)

  /** The body before validation, reduced to what the guard looks at: strings or not. */
  datatype Body = Body(referenceId: Option<string>, fromAccountId: Option<string>, toAccountId: Option<string>)

  datatype HttpError = MismatchedReference | MissingReference | UnknownOperation | ConflictError

  function NonEmpty(s: string): Option<string> {
    if s == "" then None else Some(s)
  }

  function HeaderReference(header: Header): Option<string> {
    match header
    case Absent => None
    case Single(text) => NonEmpty(Trim(text))
    case Many(texts) => if |texts| == 0 then None else NonEmpty(Trim(texts[0]))
  }

  function BodyReference(body: Body): Option<string> {
    if body.referenceId.None? then None else NonEmpty(Trim(body.referenceId.value))
  }

  function ReferenceOf(header: Header, body: Body): Result<string, HttpError> {
    var h, b := HeaderReference(header), BodyReference(body);
    if h.Some? && b.Some? && h != b then Err(MismatchedReference)
    else if h.Some? then Ok(h.value)
    else if b.Some? then Ok(b.value)
    else Err(MissingReference)
  }

  function OperationOf(body: Body): Result<Operation, HttpError> {
    if body.fromAccountId.Some? && body.toAccountId.Some? then Ok(Transfer)
    else if body.fromAccountId.Some? then Ok(Withdraw)
    else if body.toAccountId.Some? then Ok(Deposit)
    else Err(UnknownOperation)
  }

  function KeyOf(user: User, header: Header, body: Body): Result<Key, HttpError> {
    var reference :- ReferenceOf(header, body);
    var operation :- OperationOf(body);
    Ok(Key(user, operation, reference))
  }

  /** The key depends on the reference only up to surrounding white space, wherever it is given. */
  lemma KeysIgnorePadding(user: User, reference: string, padded: string, body: Body)
    requires Trim(padded) == Trim(reference) && body.referenceId == Some(reference)
    ensures KeyOf(user, Single(padded), body) == KeyOf(user, Absent, body)
    ensures KeyOf(user, Absent, body.(referenceId := Some(padded))) == KeyOf(user, Absent, body)
    ensures KeyOf(user, Single(Trim(padded)), body) == KeyOf(user, Absent, body)
  {
    TrimTwice(padded);
  }

  /** There is a key exactly when some reference is not blank, two of them agree, and an account is named. */
  lemma KeyExists(user: User, text: string, body: Body)
    requires body.referenceId.Some?
    ensures KeyOf(user, Single(text), body).Ok? <==>
      && (!Blank(text) || !Blank(body.referenceId.value))
      && (!Blank(text) && !Blank(body.referenceId.value) ==> Trim(text) == Trim(body.referenceId.value))
      && (body.fromAccountId.Some? || body.toAccountId.Some?)
  {
    TrimEmptiesBlank(text);
    TrimEmptiesBlank(body.referenceId.value);
  }

  // ---------- specification ----------

  /** Which Redis call of the guard throws, if one does. */
  datatype GuardLuck = Well | KeySetFails | LockSetFails | KeyDropFails | KeyGetFails

  datatype Admission = Admission(entry: Entry, locked: bool)

  function Admit(ttlMs: nat, store: Store, key: Key, token: nat, now: Millis, luck: GuardLuck)
    : (Result<Admission, HttpError>, Store)
  {
    if luck == KeySetFails then (Ok(Admission(Unguarded, false)), store)
    else if KeyLive(store, key, now) then
      (if luck == KeyGetFails then Ok(Admission(Unguarded, false))
       else if store.keys[key].value == DoneMark then Ok(Admission(Replay, false))
       else Err(ConflictError), store)
    else
      var claimed := SetKey(store, key, InFlight, now + ttlMs);
      if key.operation != Transfer then (Ok(Admission(Claimant, false)), claimed)
      else if luck == LockSetFails then (Ok(Admission(Unguarded, false)), claimed)
      else if LockLive(store, key.user, now) then
        (if luck == KeyDropFails then (Ok(Admission(Unguarded, false)), claimed)
         else (Err(ConflictError), DeleteKey(claimed, key)))
      else (Ok(Admission(Claimant, true)), SetLock(claimed, key.user, token, now + ttlMs))
  }

  datatype EndLuck = EndLuck(markFails: bool, deleteFails: bool, releaseFails: bool)

  /** markIdempotencyKeyDone, or tryDeleteIdempotencyKey, as the answer asks for. */
  function SettleKey(store: Store, key: Option<Key>, now: Millis, answer: Answer, luck: EndLuck): Store {
    if key.None? || answer == Conflict then store
    else if answer == Fine && !luck.markFails then SetKey(store, key.value, DoneMark, now + DONE_TTL_MS)
    else if luck.deleteFails then store
    else DeleteKey(store, key.value)
  }

  /** releaseTransferUserLock. */
  function Unlock(store: Store, user: Option<User>, token: Option<nat>, now: Millis, luck: EndLuck): Store {
    if user.None? || token.None? || luck.releaseFails then store
    else ReleaseLock(store, user.value, token.value, now)
  }

  // ---------- the classes ----------

  class Redis {
    var keys: map<Key, KeyEntry>
    var locks: map<User, LockEntry>

    constructor ()
      ensures View() == Store(map[], map[])
    {
      keys, locks := map[], map[];
    }

    function View(): Store
      reads this
    {
      Store(keys, locks)
    }

    /** SET key in-flight EX ttl NX. */
    method ClaimKey(key: Key, ttlMs: nat, now: Millis) returns (ok: bool)
      modifies this`keys
      ensures ok == !KeyLive(old(View()), key, now)
      ensures View() == if ok then SetKey(old(View()), key, InFlight, now + ttlMs) else old(View())
    {
      ok := key !in keys || keys[key].expiresAt <= now;
      if ok {
        keys := keys[key := KeyEntry(InFlight, now + ttlMs)];
      }
    }

    /** SET lock token EX ttl NX. */
    method TakeLock(user: User, token: nat, ttlMs: nat, now: Millis) returns (ok: bool)
      modifies this`locks
      ensures ok == !LockLive(old(View()), user, now)
      ensures View() == if ok then SetLock(old(View()), user, token, now + ttlMs) else old(View())
    {
      ok := user !in locks || locks[user].expiresAt <= now;
      if ok {
        locks := locks[user := LockEntry(token, now + ttlMs)];
      }
    }

    /** GET key. */
    method Get(key: Key, now: Millis) returns (value: Option<KeyValue>)
      ensures value == if KeyLive(View(), key, now) then Some(keys[key].value) else None
    {
      value := if key in keys && now < keys[key].expiresAt then Some(keys[key].value) else None;
    }

    /** RELEASE_USER_LOCK_LUA. */
    method ReleaseScript(user: User, token: nat, now: Millis)
      modifies this`locks
      ensures View() == ReleaseLock(old(View()), user, token, now)
    {
      if user in locks && now < locks[user].expiresAt && locks[user].token == token {
        locks := locks - {user};
      }
    }
  }

  /** The fields the guard leaves on the request for the controller. */
  class IdempotencyRequest {
    var idempotencyKey: Option<Key>
    var transferUserLockKey: Option<User>
    var transferUserLockToken: Option<nat>

    constructor ()
      ensures idempotencyKey.None? && transferUserLockKey.None? && transferUserLockToken.None?
    {
      idempotencyKey, transferUserLockKey, transferUserLockToken := None, None, None;
    }
  }

  class TransactionsIdempotencyGuard {
    const redis: Redis
    const ttlMs: nat

    constructor (redis: Redis, ttlMs: nat)
      ensures this.redis == redis && this.ttlMs == ttlMs
    {
      this.redis, this.ttlMs := redis, ttlMs;
    }

    /** canActivate for a request whose key is known, from the first SET on. */
    method Claim(req: IdempotencyRequest, key: Key, token: nat, now: Millis, luck: GuardLuck)
      returns (r: Result<(), HttpError>)
      requires req.idempotencyKey.None? && req.transferUserLockKey.None? && req.transferUserLockToken.None?
      modifies redis, req
      ensures var (verdict, store) := Admit(ttlMs, old(redis.View()), key, token, now, luck);
        && redis.View() == store
        && (r.Ok? <==> verdict.Ok?) && (r.Err? ==> r.error == verdict.error)
        && req.idempotencyKey == (if verdict.Ok? && verdict.value.entry != Unguarded then Some(key) else None)
        && req.transferUserLockKey == (if verdict.Ok? && verdict.value.locked then Some(key.user) else None)
        && req.transferUserLockToken == (if verdict.Ok? && verdict.value.locked then Some(token) else None)
    {
      r := Ok(());
      if luck == KeySetFails {
        return;
      }
      var ok := redis.ClaimKey(key, ttlMs, now);
      if ok {
        if key.operation == Transfer {
          if luck == LockSetFails {
            return;
          }
          var lockOk := redis.TakeLock(key.user, token, ttlMs, now);
          if !lockOk {
            if luck == KeyDropFails {
              return;
            }
            redis.keys := redis.keys - {key};
            return Err(ConflictError);
          }
          req.transferUserLockKey := Some(key.user);
          req.transferUserLockToken := Some(token);
        }
        req.idempotencyKey := Some(key);
        return;
      }
      if luck == KeyGetFails {
        return;
      }
      var state := redis.Get(key, now);
      if state == Some(DoneMark) {
        req.idempotencyKey := Some(key);
        return;
      }
      r := Err(ConflictError);
    }

    /** canActivate. A missing user or a Redis that is not ready skips the guard. */
    method CanActivate(req: IdempotencyRequest, user: Option<User>, ready: bool, header: Header, body: Body,
                       token: nat, now: Millis, luck: GuardLuck) returns (r: Result<(), HttpError>)
      requires req.idempotencyKey.None? && req.transferUserLockKey.None? && req.transferUserLockToken.None?
      modifies redis, req
      ensures user.None? || !ready ==>
        r.Ok? && redis.View() == old(redis.View()) && req.idempotencyKey.None? && req.transferUserLockToken.None?
      ensures user.Some? && ready && KeyOf(user.value, header, body).Err? ==>
        r == Err(KeyOf(user.value, header, body).error) && redis.View() == old(redis.View())
      ensures user.Some? && ready && KeyOf(user.value, header, body).Ok? ==>
        var key := KeyOf(user.value, header, body).value;
        var (verdict, store) := Admit(ttlMs, old(redis.View()), key, token, now, luck);
        && redis.View() == store
        && (r.Ok? <==> verdict.Ok?)
        && req.idempotencyKey == (if verdict.Ok? && verdict.value.entry != Unguarded then Some(key) else None)
        && req.transferUserLockKey == (if verdict.Ok? && verdict.value.locked then Some(key.user) else None)
        && req.transferUserLockToken == (if verdict.Ok? && verdict.value.locked then Some(token) else None)
    {
      if user.None? || !ready {
        return Ok(());
      }
      var fromHeader, fromBody := HeaderReference(header), BodyReference(body);
      if fromHeader.Some? && fromBody.Some? && fromHeader != fromBody {
        return Err(MismatchedReference);
      }
      if fromHeader.None? && fromBody.None? {
        return Err(MissingReference);
      }
      var reference := if fromHeader.Some? then fromHeader.value else fromBody.value;
      var operation := OperationOf(body);
      if operation.Err? {
        return Err(operation.error);
      }
      r := Claim(req, Key(user.value, operation.value, reference), token, now, luck);
    }
  }

  class TransactionsController {
    const redis: Redis

    constructor (redis: Redis)
      ensures this.redis == redis
    {
      this.redis := redis;
    }

    method MarkDone(key: Option<Key>, now: Millis, luck: EndLuck)
      modifies redis`keys
      ensures redis.View() == SettleKey(old(redis.View()), key, now, Fine, luck)
    {
      if key.None? {
        return;
      }
      if !luck.markFails {
        redis.keys := redis.keys[key.value := KeyEntry(DoneMark, now + DONE_TTL_MS)];
      } else if !luck.deleteFails {
        redis.keys := redis.keys - {key.value};
      }
    }

    method TryDelete(key: Option<Key>, answer: Answer, now: Millis, luck: EndLuck)
      requires answer != Fine
      modifies redis`keys
      ensures redis.View() == SettleKey(old(redis.View()), key, now, answer, luck)
    {
      if key.None? || answer == Conflict {
        return;
      }
      if !luck.deleteFails {
        redis.keys := redis.keys - {key.value};
      }
    }

    /** createDeposit and createWithdraw, once the service call has answered. */
    method EndPayment(req: IdempotencyRequest, answer: Answer, now: Millis, luck: EndLuck)
      modifies redis
      ensures redis.View() == SettleKey(old(redis.View()), req.idempotencyKey, now, answer, luck)
    {
      if answer == Fine {
        MarkDone(req.idempotencyKey, now, luck);
      } else {
        TryDelete(req.idempotencyKey, answer, now, luck);
      }
    }

    /** createTransfer, once the service call has answered: the lock goes last, whatever happened. */
    method EndTransfer(req: IdempotencyRequest, answer: Answer, now: Millis, luck: EndLuck)
      modifies redis, req`transferUserLockKey, req`transferUserLockToken
      ensures redis.View() == Unlock(SettleKey(old(redis.View()), req.idempotencyKey, now, answer, luck),
                                     old(req.transferUserLockKey), old(req.transferUserLockToken), now, luck)
      ensures old(req.transferUserLockKey).Some? && old(req.transferUserLockToken).Some? ==>
                req.transferUserLockKey.None? && req.transferUserLockToken.None?
    {
      EndPayment(req, answer, now, luck);
      var lockKey, lockToken := req.transferUserLockKey, req.transferUserLockToken;
      if lockKey.None? || lockToken.None? {
        return;
      }
      if !luck.releaseFails {
        redis.ReleaseScript(lockKey.value, lockToken.value, now);
      }
      req.transferUserLockKey, req.transferUserLockToken := None, None;
    }
  }

  // ---------- both are runs of the machine ----------

  function StageOf(verdict: Result<Admission, HttpError>): Stage {
    if verdict.Ok? then Running(verdict.value.entry, verdict.value.locked) else Over(true)
  }

  function ActionAt(p: nat, fails: bool): Action {
    if fails then RedisFails(p) else Step(p)
  }

  /** A state with one more request, which the guard has brought to this stage. */
  function Entered(s: State, endpoint: Operation, key: Key, stage: Stage, store: Store, lockedAt: Millis): State {
    s.(sessions := s.sessions + [Session(endpoint, key, stage, lockedAt)], store := store)
  }

  lemma RunTwo(ttlMs: nat, s: State, a: Action, b: Action)
    ensures Run(ttlMs, s, [a, b]) == Next(ttlMs, Next(ttlMs, s, a), b)
  {
    var actions := [a, b];
    RunTo(ttlMs, s, actions, 1);
    RunTo(ttlMs, s, actions, 2);
    assert actions[..2] == actions && actions[..0] == [];
  }

  lemma RunOne(ttlMs: nat, s: State, a: Action)
    ensures Run(ttlMs, s, [a]) == Next(ttlMs, s, a)
  {
    assert [a][..0] == [];
    assert Run(ttlMs, s, []) == s;
  }

  /** The first SET. */
  lemma ClaimIsARun(ttlMs: nat, s: State, endpoint: Operation, key: Key, luck: GuardLuck) returns (actions: seq<Action>)
    ensures Run(ttlMs, s, actions) ==
      if luck == KeySetFails then Entered(s, endpoint, key, Running(Unguarded, false), s.store, 0)
      else if KeyLive(s.store, key, s.now) then Entered(s, endpoint, key, Reading, s.store, 0)
      else Entered(s, endpoint, key, if key.operation == Transfer then Locking else Running(Claimant, false),
                   SetKey(s.store, key, InFlight, s.now + ttlMs), 0)
  {
    var step := ActionAt(|s.sessions|, luck == KeySetFails);
    actions := [Arrive(endpoint, key), step];
    RunTwo(ttlMs, s, Arrive(endpoint, key), step);
  }

  /** The GET of a key that was taken. */
  lemma ReadIsARun(ttlMs: nat, s: State, endpoint: Operation, key: Key, luck: GuardLuck) returns (actions: seq<Action>)
    requires KeyLive(s.store, key, s.now) && luck != KeySetFails
    ensures Run(ttlMs, Entered(s, endpoint, key, Reading, s.store, 0), actions)
         == Entered(s, endpoint, key, StageOf(Admit(ttlMs, s.store, key, |s.sessions|, s.now, luck).0), s.store, 0)
  {
    var step := ActionAt(|s.sessions|, luck == KeyGetFails);
    actions := [step];
    RunOne(ttlMs, Entered(s, endpoint, key, Reading, s.store, 0), step);
  }

  /** The second SET, of a transfer, and the DEL after a conflict. */
  lemma LockIsARun(ttlMs: nat, s: State, endpoint: Operation, key: Key, claimed: Store, luck: GuardLuck)
    returns (actions: seq<Action>)
    requires !KeyLive(s.store, key, s.now) && key.operation == Transfer && luck != KeySetFails
    requires claimed == SetKey(s.store, key, InFlight, s.now + ttlMs)
    ensures var (verdict, store) := Admit(ttlMs, s.store, key, |s.sessions|, s.now, luck);
      Run(ttlMs, Entered(s, endpoint, key, Locking, claimed, 0), actions)
      == Entered(s, endpoint, key, StageOf(verdict), store, if verdict.Ok? && verdict.value.locked then s.now else 0)
  {
    var p := |s.sessions|;
    var start := Entered(s, endpoint, key, Locking, claimed, 0);
    var first := ActionAt(p, luck == LockSetFails);
    if luck != LockSetFails && LockLive(s.store, key.user, s.now) {
      var second := ActionAt(p, luck == KeyDropFails);
      actions := [first, second];
      RunTwo(ttlMs, start, first, second);
      assert Next(ttlMs, start, first) == Entered(s, endpoint, key, Dropping, claimed, 0);
    } else {
      actions := [first];
      RunOne(ttlMs, start, first);
    }
  }

  /** The guard's whole effect, on Redis and on the request, is that of some steps of the new request. */
  lemma GuardIsARun(ttlMs: nat, s: State, endpoint: Operation, key: Key, luck: GuardLuck) returns (actions: seq<Action>)
    ensures var (verdict, store) := Admit(ttlMs, s.store, key, |s.sessions|, s.now, luck);
      Run(ttlMs, s, actions)
      == Entered(s, endpoint, key, StageOf(verdict), store, if verdict.Ok? && verdict.value.locked then s.now else 0)
  {
    actions := ClaimIsARun(ttlMs, s, endpoint, key, luck);
    if luck != KeySetFails {
      if KeyLive(s.store, key, s.now) {
        var rest := ReadIsARun(ttlMs, s, endpoint, key, luck);
        RunConcat(ttlMs, s, actions, rest);
        actions := actions + rest;
      } else if key.operation == Transfer {
        var rest := LockIsARun(ttlMs, s, endpoint, key, SetKey(s.store, key, InFlight, s.now + ttlMs), luck);
        RunConcat(ttlMs, s, actions, rest);
        actions := actions + rest;
      }
    }
  }

  /** markIdempotencyKeyDone or tryDeleteIdempotencyKey, from the answer of the service on. */
  lemma SettleIsARun(ttlMs: nat, s: State, p: nat, answer: Answer, luck: EndLuck) returns (actions: seq<Action>)
    requires p < |s.sessions| && s.sessions[p].stage.Running?
    ensures var entry, locked := s.sessions[p].stage.entry, s.sessions[p].stage.locked;
      var key := if entry == Unguarded then None else Some(s.sessions[p].key);
      Run(ttlMs, s, actions) == Put(s, p, Releasing(locked), SettleKey(s.store, key, s.now, answer, luck))
  {
    var entry, locked := s.sessions[p].stage.entry, s.sessions[p].stage.locked;
    var finished := FinishSession(s, p, answer);
    if entry == Unguarded || answer == Conflict {
      actions := [Finish(p, answer)];
      RunOne(ttlMs, s, Finish(p, answer));
    } else if answer == Broken || !luck.markFails {
      var step := ActionAt(p, answer == Broken && luck.deleteFails);
      actions := [Finish(p, answer), step];
      RunTwo(ttlMs, s, Finish(p, answer), step);
      assert s.sessions[p := finished.sessions[p]][p := s.sessions[p].(stage := Releasing(locked))]
          == s.sessions[p := s.sessions[p].(stage := Releasing(locked))];
    } else {
      var step := ActionAt(p, luck.deleteFails);
      actions := [Finish(p, answer), RedisFails(p)] + [step];
      RunTwo(ttlMs, s, Finish(p, answer), RedisFails(p));
      var clearing := Put(s, p, Clearing(entry, locked), s.store);
      assert Next(ttlMs, finished, RedisFails(p)) == clearing;
      RunConcat(ttlMs, s, [Finish(p, answer), RedisFails(p)], [step]);
      RunOne(ttlMs, clearing, step);
    }
  }

  /** The controller's whole effect on Redis is that of the request's remaining steps. */
  lemma EndIsARun(ttlMs: nat, s: State, p: nat, answer: Answer, luck: EndLuck) returns (actions: seq<Action>)
    requires p < |s.sessions| && s.sessions[p].stage.Running?
    ensures var sess := s.sessions[p];
      var key := if sess.stage.entry == Unguarded then None else Some(sess.key);
      var settled := SettleKey(s.store, key, s.now, answer, luck);
      var (user, token) := if sess.stage.locked then (Some(sess.key.user), Some(p)) else (None, None);
      var after := if sess.endpoint == Transfer then Unlock(settled, user, token, s.now, luck) else settled;
      Run(ttlMs, s, actions) == Put(s, p, Over(false), after)
  {
    var sess := s.sessions[p];
    var settle := SettleIsARun(ttlMs, s, p, answer, luck);
    var releasing := Run(ttlMs, s, settle);
    var step := ActionAt(p, luck.releaseFails);
    actions := settle + [step];
    RunConcat(ttlMs, s, settle, [step]);
    RunOne(ttlMs, releasing, step);
    assert s.sessions[p := sess.(stage := Releasing(sess.stage.locked))][p := sess.(stage := Over(false))]
        == s.sessions[p := sess.(stage := Over(false))];
  }
}
