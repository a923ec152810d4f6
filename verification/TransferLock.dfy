/**
 The idempotency guard, the transfer lock and the controller's clean-up as steps on Redis keys with an
 expiry; the steps of different requests interleave freely and any Redis call may throw. An expired key
 stays in the map but counts as absent.
 */
module TransferLock {
  type Millis = nat
  type User = nat

  datatype Operation = Deposit | Withdraw | Transfer

  datatype Key = Key(user: User, operation: Operation, reference: string)

  datatype KeyValue = InFlight | DoneMark

  datatype KeyEntry = KeyEntry(value: KeyValue, expiresAt: Millis)

  /** A lock holds the token of the request that took it; tokens are request numbers here. */
  datatype LockEntry = LockEntry(token: nat, expiresAt: Millis)

  datatype Store = Store(keys: map<Key, KeyEntry>, locks: map<User, LockEntry>)

  /** How the guard let a request in: with a key it claimed, on a done mark, or without any key. */
  datatype Entry = Unguarded | Claimant | Replay

  datatype Stage =
    | Arriving                              // SET key NX
    | Locking                               // SET lock NX
    | Dropping                              // DEL key after a lock conflict
    | Reading                               // GET key
    | Running(entry: Entry, locked: bool)   // the service call
    | Marking(entry: Entry, locked: bool)   // SET key done
    | Clearing(entry: Entry, locked: bool)  // DEL key
    | Releasing(locked: bool)               // the finally block, which only the transfer handler has
    | Over(refused: bool)

  /** The guard infers the operation of the key from the body; `endpoint` is the handler that runs.
      `lockedAt` is when the request took its lock, if it did. */
  datatype Session = Session(endpoint: Operation, key: Key, stage: Stage, lockedAt: Millis)

  datatype State = State(now: Millis, store: Store, sessions: seq<Session>)

  datatype Answer = Fine | Conflict | Broken

  datatype Action =
    | Arrive(endpoint: Operation, key: Key)
    | Invalid(session: nat)                    // body validation, after the guard, throws
    | Tick(ms: nat)
    | Step(session: nat)
    | RedisFails(session: nat)                 // its next Redis call throws and changed nothing
    | ReplyLost(session: nat)                  // its next Redis call takes effect and throws all the same
    | Finish(session: nat, answer: Answer)     // the service call returns or throws

  const DONE_TTL_MS: nat := 300000

  // ---------- Redis ----------

  predicate KeyLive(store: Store, key: Key, now: Millis) {
    key in store.keys && now < store.keys[key].expiresAt
  }

  predicate LockLive(store: Store, user: User, now: Millis) {
    user in store.locks && now < store.locks[user].expiresAt
  }

  function SetKey(store: Store, key: Key, value: KeyValue, expiresAt: Millis): Store {
    store.(keys := store.keys[key := KeyEntry(value, expiresAt)])
  }

  function DeleteKey(store: Store, key: Key): Store {
    store.(keys := store.keys - {key})
  }

  function SetLock(store: Store, user: User, token: nat, expiresAt: Millis): Store {
    store.(locks := store.locks[user := LockEntry(token, expiresAt)])
  }

  /** RELEASE_USER_LOCK_LUA. */
  function ReleaseLock(store: Store, user: User, token: nat, now: Millis): Store {
    if LockLive(store, user, now) && store.locks[user].token == token
    then store.(locks := store.locks - {user}) else store
  }

  // ---------- steps ----------

  function Put(s: State, p: nat, stage: Stage, store: Store): State
    requires p < |s.sessions|
  {
    s.(sessions := s.sessions[p := s.sessions[p].(stage := stage)], store := store)
  }

  function StepSession(ttlMs: nat, s: State, p: nat): State
    requires p < |s.sessions|
  {
    var sess := s.sessions[p];
    var key, user := sess.key, sess.key.user;
    match sess.stage
    case Arriving =>
      if KeyLive(s.store, key, s.now) then Put(s, p, Reading, s.store)
      else Put(s, p, if key.operation == Transfer then Locking else Running(Claimant, false),
               SetKey(s.store, key, InFlight, s.now + ttlMs))
    case Locking =>
      if LockLive(s.store, user, s.now) then Put(s, p, Dropping, s.store)
      else s.(sessions := s.sessions[p := sess.(stage := Running(Claimant, true), lockedAt := s.now)],
              store := SetLock(s.store, user, p, s.now + ttlMs))
    case Dropping => Put(s, p, Over(true), DeleteKey(s.store, key))
    case Reading =>
      if KeyLive(s.store, key, s.now) && s.store.keys[key].value == DoneMark
      then Put(s, p, Running(Replay, false), s.store) else Put(s, p, Over(true), s.store)
    case Marking(entry, locked) => Put(s, p, Releasing(locked), SetKey(s.store, key, DoneMark, s.now + DONE_TTL_MS))
    case Clearing(entry, locked) => Put(s, p, Releasing(locked), DeleteKey(s.store, key))
    case Releasing(locked) => Put(s, p, Over(false), if locked && sess.endpoint == Transfer
                                                             then ReleaseLock(s.store, user, p, s.now) else s.store)
    case _ => s
  }

  /** A throwing call: the guard lets the request in without key or lock, the controller carries on. */
  function FailSession(s: State, p: nat): State
    requires p < |s.sessions|
  {
    match s.sessions[p].stage
    case Arriving => Put(s, p, Running(Unguarded, false), s.store)
    case Locking => Put(s, p, Running(Unguarded, false), s.store)
    case Dropping => Put(s, p, Running(Unguarded, false), s.store)
    case Reading => Put(s, p, Running(Unguarded, false), s.store)
    case Marking(entry, locked) => Put(s, p, Clearing(entry, locked), s.store)
    case Clearing(entry, locked) => Put(s, p, Releasing(locked), s.store)
    case Releasing(_) => Put(s, p, Over(false), s.store)
    case _ => s
  }

  /** The store of the call that took effect, the stage of one that threw. */
  function LoseReply(ttlMs: nat, s: State, p: nat): State
    requires p < |s.sessions|
  {
    Put(s, p, FailSession(s, p).sessions[p].stage, StepSession(ttlMs, s, p).store)
  }

  function FinishSession(s: State, p: nat, answer: Answer): State
    requires p < |s.sessions|
  {
    match s.sessions[p].stage
    case Running(entry, locked) =>
      Put(s, p, if entry == Unguarded || answer == Conflict then Releasing(locked)
                else if answer == Fine then Marking(entry, locked) else Clearing(entry, locked), s.store)
    case _ => s
  }

  function Next(ttlMs: nat, s: State, a: Action): State {
    match a
    case Arrive(endpoint, key) => s.(sessions := s.sessions + [Session(endpoint, key, Arriving, 0)])
    case Invalid(p) =>
      if p < |s.sessions| && s.sessions[p].stage.Running? then Put(s, p, Over(true), s.store) else s
    case Tick(ms) => s.(now := s.now + ms)
    case Step(p) => if p < |s.sessions| then StepSession(ttlMs, s, p) else s
    case RedisFails(p) => if p < |s.sessions| then FailSession(s, p) else s
    case ReplyLost(p) => if p < |s.sessions| then LoseReply(ttlMs, s, p) else s
    case Finish(p, answer) => if p < |s.sessions| then FinishSession(s, p, answer) else s
  }

  function Run(ttlMs: nat, s: State, actions: seq<Action>): State {
    if |actions| == 0 then s else Next(ttlMs, Run(ttlMs, s, actions[..|actions| - 1]), actions[|actions| - 1])
  }

  lemma RunTo(ttlMs: nat, s: State, actions: seq<Action>, k: nat)
    requires 0 < k <= |actions|
    ensures Run(ttlMs, s, actions[..k]) == Next(ttlMs, Run(ttlMs, s, actions[..k - 1]), actions[k - 1])
  {
    assert actions[..k][..k - 1] == actions[..k - 1];
  }

  lemma {:induction false} RunConcat(ttlMs: nat, s: State, a: seq<Action>, b: seq<Action>)
    ensures Run(ttlMs, s, a + b) == Run(ttlMs, Run(ttlMs, s, a), b)
  {
    if |b| == 0 {
      assert a + b == a;
    } else {
      RunConcat(ttlMs, s, a, b[..|b| - 1]);
      assert (a + b)[..|a + b| - 1] == a + b[..|b| - 1];
    }
  }

  const EMPTY := State(0, Store(map[], map[]), [])

  // ---------- the transfer lock ----------

  /** The request took the user's lock and has not yet come to release it. */
  predicate Guarded(stage: Stage) {
    ((stage.Running? || stage.Marking? || stage.Clearing?) && stage.locked) || stage == Releasing(true)
  }

  predicate Holds(s: State, p: nat, user: User) {
    p < |s.sessions| && Guarded(s.sessions[p].stage) && s.sessions[p].key.user == user
  }

  /** The request is still within the lifetime of the lock it took. */
  predicate Unexpired(ttlMs: nat, s: State, p: nat) {
    p < |s.sessions| && s.now < s.sessions[p].lockedAt + ttlMs
  }

  ghost predicate LockInv(ttlMs: nat, s: State) {
    && (forall u :: u in s.store.locks ==> s.store.locks[u].token < |s.sessions|)
    && (forall p: nat :: p < |s.sessions| && Guarded(s.sessions[p].stage) && Unexpired(ttlMs, s, p) ==>
          LockOf(ttlMs, s, p))
  }

  ghost predicate LockOf(ttlMs: nat, s: State, p: nat) {
    p < |s.sessions| && s.sessions[p].key.user in s.store.locks &&
    s.store.locks[s.sessions[p].key.user] == LockEntry(p, s.sessions[p].lockedAt + ttlMs)
  }

  lemma StepKeepsLockInv(ttlMs: nat, s: State, p: nat)
    requires LockInv(ttlMs, s) && p < |s.sessions|
    ensures LockInv(ttlMs, StepSession(ttlMs, s, p))
  {
    var t := StepSession(ttlMs, s, p);
    forall q: nat | q < |t.sessions| && Guarded(t.sessions[q].stage) && Unexpired(ttlMs, t, q)
      ensures LockOf(ttlMs, t, q)
    {
      if q != p {
        assert Unexpired(ttlMs, s, q) && LockOf(ttlMs, s, q);
      } else if !s.sessions[p].stage.Locking? {
        assert Unexpired(ttlMs, s, p) && LockOf(ttlMs, s, p);
      }
    }
  }

  lemma LostReplyKeepsLockInv(ttlMs: nat, s: State, p: nat)
    requires LockInv(ttlMs, s) && p < |s.sessions|
    ensures LockInv(ttlMs, LoseReply(ttlMs, s, p))
  {
    var t := LoseReply(ttlMs, s, p);
    forall q: nat | q < |t.sessions| && Guarded(t.sessions[q].stage) && Unexpired(ttlMs, t, q)
      ensures LockOf(ttlMs, t, q)
    {
      assert Unexpired(ttlMs, s, q) && LockOf(ttlMs, s, q);
    }
  }

  lemma NextKeepsLockInv(ttlMs: nat, s: State, a: Action)
    requires LockInv(ttlMs, s)
    ensures LockInv(ttlMs, Next(ttlMs, s, a))
  {
    var t := Next(ttlMs, s, a);
    if a.Step? && a.session < |s.sessions| {
      StepKeepsLockInv(ttlMs, s, a.session);
    } else if a.ReplyLost? && a.session < |s.sessions| {
      LostReplyKeepsLockInv(ttlMs, s, a.session);
    } else {
      forall q: nat | q < |t.sessions| && Guarded(t.sessions[q].stage) && Unexpired(ttlMs, t, q)
        ensures LockOf(ttlMs, t, q)
      {
        assert Unexpired(ttlMs, s, q) && LockOf(ttlMs, s, q);
      }
    }
  }

  lemma {:induction false} RunKeepsLockInv(ttlMs: nat, actions: seq<Action>)
    ensures LockInv(ttlMs, Run(ttlMs, EMPTY, actions))
  {
    if |actions| > 0 {
      RunKeepsLockInv(ttlMs, actions[..|actions| - 1]);
      NextKeepsLockInv(ttlMs, Run(ttlMs, EMPTY, actions[..|actions| - 1]), actions[|actions| - 1]);
    }
  }

  /** In every run at most one lock-holding transfer of a user is within the lifetime of its lock. */
  lemma OneGuardedTransferPerUser(ttlMs: nat, actions: seq<Action>, p: nat, q: nat, user: User)
    requires var s := Run(ttlMs, EMPTY, actions);
      Holds(s, p, user) && Holds(s, q, user) && Unexpired(ttlMs, s, p) && Unexpired(ttlMs, s, q)
    ensures p == q
  {
    RunKeepsLockInv(ttlMs, actions);
    var s := Run(ttlMs, EMPTY, actions);
    assert LockOf(ttlMs, s, p) && LockOf(ttlMs, s, q);
  }

  /** At most one request of each user holds its lock, expired or not. */
  ghost predicate OneHolder(s: State) {
    forall p: nat, q: nat, user: User :: p < q && Holds(s, p, user) ==> !Holds(s, q, user)
  }

  /** The step takes the user's lock, expired by now, while the request that took it before still runs. */
  predicate TakesExpired(s: State, a: Action) {
    a.Step? && a.session < |s.sessions| && s.sessions[a.session].stage == Locking &&
    var user := s.sessions[a.session].key.user;
    !LockLive(s.store, user, s.now) && exists q :: 0 <= q < |s.sessions| && Holds(s, q, user)
  }

  lemma NewHolders(ttlMs: nat, s: State, a: Action, p: nat, user: User)
    requires Holds(Next(ttlMs, s, a), p, user)
    ensures Holds(s, p, user) || (a == Step(p) && p < |s.sessions| && s.sessions[p].stage == Locking &&
                                  s.sessions[p].key.user == user && !LockLive(s.store, user, s.now))
  {
  }

  /** A user gets two lock-holding requests exactly by such a step. */
  lemma SecondHolderExactly(ttlMs: nat, s: State, a: Action)
    requires OneHolder(s)
    ensures OneHolder(Next(ttlMs, s, a)) <==> !TakesExpired(s, a)
  {
    var t := Next(ttlMs, s, a);
    if TakesExpired(s, a) {
      var user := s.sessions[a.session].key.user;
      var q: nat :| q < |s.sessions| && Holds(s, q, user);
      assert q != a.session && Holds(t, q, user) && Holds(t, a.session, user);
      assert q < a.session || a.session < q;
    } else {
      forall p: nat, q: nat, user: User | p < q && Holds(t, p, user) ensures !Holds(t, q, user) {
        NewHolders(ttlMs, s, a, p, user);
        if Holds(t, q, user) {
          NewHolders(ttlMs, s, a, q, user);
        }
      }
    }
  }

  ghost predicate AlwaysOneHolder(ttlMs: nat, actions: seq<Action>) {
    OneHolder(Run(ttlMs, EMPTY, actions)) && (|actions| > 0 ==> AlwaysOneHolder(ttlMs, actions[..|actions| - 1]))
  }

  ghost predicate NeverTakesExpired(ttlMs: nat, actions: seq<Action>) {
    |actions| > 0 ==>
      var front := actions[..|actions| - 1];
      NeverTakesExpired(ttlMs, front) && !TakesExpired(Run(ttlMs, EMPTY, front), actions[|actions| - 1])
  }

  /** All along a run each user has at most one lock-holding transfer exactly if no lock that expired
      under a running request is taken again. */
  lemma {:induction false} OneHolderExactly(ttlMs: nat, actions: seq<Action>)
    ensures AlwaysOneHolder(ttlMs, actions) <==> NeverTakesExpired(ttlMs, actions)
    ensures NeverTakesExpired(ttlMs, actions) ==> OneHolder(Run(ttlMs, EMPTY, actions))
  {
    if |actions| > 0 {
      var front := actions[..|actions| - 1];
      OneHolderExactly(ttlMs, front);
      if NeverTakesExpired(ttlMs, front) {
        SecondHolderExactly(ttlMs, Run(ttlMs, EMPTY, front), actions[|actions| - 1]);
      }
    }
  }

  /** In any state, a live lock goes away only by time or by the release of the request whose token it
      holds; nobody overwrites it. */
  lemma OnlyTheOwnerDeletes(ttlMs: nat, s: State, a: Action, user: User)
    requires LockLive(s.store, user, s.now)
    ensures var t := Next(ttlMs, s, a);
      || (user in t.store.locks && t.store.locks[user] == s.store.locks[user])
      || ((a == Step(s.store.locks[user].token) || a == ReplyLost(s.store.locks[user].token)) &&
          a.session < |s.sessions| && s.sessions[a.session].stage == Releasing(true) &&
          s.sessions[a.session].key.user == user &&
          user !in t.store.locks)
  {
  }

  /** What is locked, or about to be, is a claimant of a transfer key. */
  predicate LockedAsClaimant(session: Session) {
    && ((session.stage.Running? || session.stage.Marking? || session.stage.Clearing?) && session.stage.locked ==>
          session.stage.entry == Claimant && session.key.operation == Transfer)
    && (session.stage.Locking? ==> session.key.operation == Transfer)
  }

  lemma StepLocksAsClaimant(ttlMs: nat, s: State, a: Action, p: nat)
    requires p < |s.sessions| && LockedAsClaimant(s.sessions[p])
    ensures p < |Next(ttlMs, s, a).sessions| && LockedAsClaimant(Next(ttlMs, s, a).sessions[p])
  {
  }

  lemma ArrivesUnlocked(ttlMs: nat, s: State, a: Action, p: nat)
    requires |s.sessions| <= p < |Next(ttlMs, s, a).sessions|
    ensures Next(ttlMs, s, a).sessions[p].stage == Arriving
  {
  }

  /** A request admitted on a done mark, or without a key, holds no lock. */
  lemma {:induction false} ReplaysTakeNoLock(ttlMs: nat, actions: seq<Action>, p: nat)
    requires p < |Run(ttlMs, EMPTY, actions).sessions|
    ensures LockedAsClaimant(Run(ttlMs, EMPTY, actions).sessions[p])
  {
    if |actions| > 0 {
      var before, last := Run(ttlMs, EMPTY, actions[..|actions| - 1]), actions[|actions| - 1];
      if p < |before.sessions| {
        ReplaysTakeNoLock(ttlMs, actions[..|actions| - 1], p);
        StepLocksAsClaimant(ttlMs, before, last, p);
      } else {
        ArrivesUnlocked(ttlMs, before, last, p);
      }
    }
  }

  // ---------- no lock outlives its request ----------

  /** The step ends the request that owns its user's live lock without releasing it: the release call is
      lost, the body is refused after the guard, or another handler than transfer runs. */
  predicate EndsWithoutRelease(s: State, a: Action) {
    (a.RedisFails? || a.Invalid? || a.Step? || a.ReplyLost?) && a.session < |s.sessions| &&
    var sess := s.sessions[a.session];
    && LockLive(s.store, sess.key.user, s.now) && s.store.locks[sess.key.user].token == a.session
    && match a
       case RedisFails(_) => sess.stage == Releasing(true)
       case Invalid(_) => sess.stage.Running? && sess.stage.locked
       case _ => sess.stage == Releasing(true) && sess.endpoint != Transfer
  }

  /** The lock is taken, but the guard never learns of it and lets the request in without. */
  predicate TakesUnawares(ttlMs: nat, s: State, a: Action) {
    a.ReplyLost? && a.session < |s.sessions| && s.sessions[a.session].stage == Locking && ttlMs > 0 &&
    !LockLive(s.store, s.sessions[a.session].key.user, s.now)
  }

  predicate OrphansLock(ttlMs: nat, s: State, a: Action) {
    EndsWithoutRelease(s, a) || TakesUnawares(ttlMs, s, a)
  }

  ghost predicate NoOrphans(ttlMs: nat, s: State, actions: seq<Action>) {
    |actions| > 0 ==>
      var front := actions[..|actions| - 1];
      NoOrphans(ttlMs, s, front) && !OrphansLock(ttlMs, Run(ttlMs, s, front), actions[|actions| - 1])
  }

  ghost predicate LocksHaveOwners(s: State) {
    forall u :: LockLive(s.store, u, s.now) ==> Holds(s, s.store.locks[u].token, u)
  }

  /** While no step orphans a lock, every live lock belongs to a request that is still running. */
  lemma {:induction false} LocksEndWithTheirRequests(ttlMs: nat, actions: seq<Action>)
    requires NoOrphans(ttlMs, EMPTY, actions)
    ensures LocksHaveOwners(Run(ttlMs, EMPTY, actions))
  {
    if |actions| > 0 {
      LocksEndWithTheirRequests(ttlMs, actions[..|actions| - 1]);
      OwnersKept(ttlMs, Run(ttlMs, EMPTY, actions[..|actions| - 1]), actions[|actions| - 1]);
    }
  }

  /** Exactly the orphaning steps leave a live lock behind. */
  lemma OwnersKept(ttlMs: nat, s: State, a: Action)
    requires LocksHaveOwners(s)
    ensures LocksHaveOwners(Next(ttlMs, s, a)) <==> !OrphansLock(ttlMs, s, a)
  {
    if OrphansLock(ttlMs, s, a) {
      OrphanStays(ttlMs, s, a);
    } else {
      OwnersStay(ttlMs, s, a);
    }
  }

  lemma OrphanStays(ttlMs: nat, s: State, a: Action)
    requires OrphansLock(ttlMs, s, a)
    ensures !LocksHaveOwners(Next(ttlMs, s, a))
  {
    var t := Next(ttlMs, s, a);
    var user := s.sessions[a.session].key.user;
    assert LockLive(t.store, user, t.now) && t.store.locks[user].token == a.session;
  }

  /** A holder stays one through every step but the one that ends it. */
  lemma HolderStays(ttlMs: nat, s: State, a: Action, p: nat, user: User)
    requires Holds(s, p, user) && LockLive(s.store, user, s.now) && s.store.locks[user].token == p
    requires !EndsWithoutRelease(s, a)
    ensures var t := Next(ttlMs, s, a);
      LockLive(t.store, user, t.now) && t.store.locks[user].token == p ==> Holds(t, p, user)
  {
  }

  /** Whoever takes a lock knowingly holds it. */
  lemma TakerHolds(ttlMs: nat, s: State, a: Action, user: User)
    requires !LockLive(s.store, user, s.now) && !TakesUnawares(ttlMs, s, a)
    requires LockLive(Next(ttlMs, s, a).store, user, Next(ttlMs, s, a).now)
    ensures Holds(Next(ttlMs, s, a), Next(ttlMs, s, a).store.locks[user].token, user)
  {
  }

  lemma OwnersStay(ttlMs: nat, s: State, a: Action)
    requires LocksHaveOwners(s) && !OrphansLock(ttlMs, s, a)
    ensures LocksHaveOwners(Next(ttlMs, s, a))
  {
    var t := Next(ttlMs, s, a);
    forall u | LockLive(t.store, u, t.now) ensures Holds(t, t.store.locks[u].token, u) {
      if LockLive(s.store, u, s.now) {
        OnlyTheOwnerDeletes(ttlMs, s, a, u);
        HolderStays(ttlMs, s, a, s.store.locks[u].token, u);
      } else {
        TakerHolds(ttlMs, s, a, u);
      }
    }
  }

  // ---------- the idempotency key ----------

  /** The request claimed its key and has not yet given it up. */
  predicate Claims(stage: Stage) {
    stage.Locking? || stage.Dropping? ||
    ((stage.Running? || stage.Marking? || stage.Clearing?) && stage.entry == Claimant)
  }

  /** No two requests hold a claim on one key. */
  ghost predicate UniqueClaims(s: State) {
    forall p: nat, q: nat :: p < q < |s.sessions| && Claims(s.sessions[p].stage) && Claims(s.sessions[q].stage) ==>
      s.sessions[p].key != s.sessions[q].key
  }

  ghost predicate ClaimsLive(s: State) {
    forall p: nat :: p < |s.sessions| && Claims(s.sessions[p].stage) ==> KeyLive(s.store, s.sessions[p].key, s.now)
  }

  predicate ClaimedBeside(s: State, p: nat, key: Key) {
    exists q :: 0 <= q < |s.sessions| && q != p && Claims(s.sessions[q].stage) && s.sessions[q].key == key
  }

  /** The step claims a key that another request still holds a claim on, its entry being gone. */
  predicate DoubleClaims(s: State, a: Action) {
    a.Step? && a.session < |s.sessions| && s.sessions[a.session].stage == Arriving &&
    !KeyLive(s.store, s.sessions[a.session].key, s.now) && ClaimedBeside(s, a.session, s.sessions[a.session].key)
  }

  /** The step takes the entry from under a claim: time passes its expiry, or another request deletes it. */
  predicate ExposesClaim(s: State, a: Action) {
    match a
    case Tick(ms) =>
      exists p :: 0 <= p < |s.sessions| && Claims(s.sessions[p].stage) &&
                  !KeyLive(s.store, s.sessions[p].key, s.now + ms)
    case Step(p) => Deletes(s, p) && ClaimedBeside(s, p, s.sessions[p].key)
    case ReplyLost(p) => Deletes(s, p) && ClaimedBeside(s, p, s.sessions[p].key)
    case _ => false
  }

  predicate Deletes(s: State, p: nat) {
    p < |s.sessions| && (s.sessions[p].stage.Clearing? || s.sessions[p].stage == Dropping)
  }

  /** Who claims after a step claimed before it, or has just claimed a key that was free. */
  lemma NewClaims(ttlMs: nat, s: State, a: Action)
    ensures |s.sessions| <= |Next(ttlMs, s, a).sessions|
    ensures forall p :: 0 <= p < |s.sessions| ==> Next(ttlMs, s, a).sessions[p].key == s.sessions[p].key
    ensures forall p :: 0 <= p < |Next(ttlMs, s, a).sessions| && Claims(Next(ttlMs, s, a).sessions[p].stage) ==>
              p < |s.sessions| &&
              (Claims(s.sessions[p].stage) ||
               (a == Step(p) && s.sessions[p].stage == Arriving && !KeyLive(s.store, s.sessions[p].key, s.now)))
  {
  }

  lemma DoubleClaimShows(ttlMs: nat, s: State, a: Action)
    requires DoubleClaims(s, a)
    ensures !UniqueClaims(Next(ttlMs, s, a))
  {
    var t := Next(ttlMs, s, a);
    var p := a.session;
    var q: nat :| q < |s.sessions| && q != p && Claims(s.sessions[q].stage) && s.sessions[q].key == s.sessions[p].key;
    assert Claims(t.sessions[p].stage) && t.sessions[q] == s.sessions[q] && t.sessions[p].key == t.sessions[q].key;
    assert p < q || q < p;
  }

  /** Two claims on one key arise exactly by such a claim. */
  lemma DoubleClaimExactly(ttlMs: nat, s: State, a: Action)
    requires UniqueClaims(s)
    ensures UniqueClaims(Next(ttlMs, s, a)) <==> !DoubleClaims(s, a)
  {
    if DoubleClaims(s, a) {
      DoubleClaimShows(ttlMs, s, a);
    } else {
      NewClaims(ttlMs, s, a);
      var t := Next(ttlMs, s, a);
      forall p: nat, q: nat | p < q < |t.sessions| && Claims(t.sessions[p].stage) && Claims(t.sessions[q].stage)
        ensures t.sessions[p].key != t.sessions[q].key
      {
        if Claims(s.sessions[p].stage) && !Claims(s.sessions[q].stage) {
          assert !ClaimedBeside(s, q, s.sessions[q].key);
        } else if Claims(s.sessions[q].stage) && !Claims(s.sessions[p].stage) {
          assert !ClaimedBeside(s, p, s.sessions[p].key);
        }
      }
    }
  }

  /** Live claims make double claims impossible. */
  lemma LiveClaimsAreSafe(s: State, a: Action)
    requires ClaimsLive(s)
    ensures !DoubleClaims(s, a)
  {
  }

  lemma ExposureShows(ttlMs: nat, s: State, a: Action)
    requires ExposesClaim(s, a)
    ensures !ClaimsLive(Next(ttlMs, s, a))
  {
    var t := Next(ttlMs, s, a);
    if a.Tick? {
      var p: nat :| p < |s.sessions| && Claims(s.sessions[p].stage) &&
                    !KeyLive(s.store, s.sessions[p].key, s.now + a.ms);
      assert t.sessions[p] == s.sessions[p] && !KeyLive(t.store, t.sessions[p].key, t.now);
    } else {
      var q: nat :| q < |s.sessions| && q != a.session && Claims(s.sessions[q].stage) &&
                    s.sessions[q].key == s.sessions[a.session].key;
      assert t.sessions[q] == s.sessions[q] && !KeyLive(t.store, t.sessions[q].key, t.now);
    }
  }

  /** A key live before a step of session p is live after it, unless p deletes it. */
  lemma KeysStayLive(ttlMs: nat, s: State, a: Action, key: Key)
    requires ttlMs > 0 && !a.Tick? && KeyLive(s.store, key, s.now)
    requires (a.Step? || a.ReplyLost?) && Deletes(s, a.session) ==> s.sessions[a.session].key != key
    ensures KeyLive(Next(ttlMs, s, a).store, key, Next(ttlMs, s, a).now)
  {
  }

  lemma CoveredClaimsStayLive(ttlMs: nat, s: State, a: Action)
    requires ttlMs > 0 && ClaimsLive(s) && !ExposesClaim(s, a)
    ensures ClaimsLive(Next(ttlMs, s, a))
  {
    var t := Next(ttlMs, s, a);
    NewClaims(ttlMs, s, a);
    forall p: nat | p < |t.sessions| && Claims(t.sessions[p].stage) ensures KeyLive(t.store, t.sessions[p].key, t.now) {
      if !a.Tick? && Claims(s.sessions[p].stage) {
        KeysStayLive(ttlMs, s, a, s.sessions[p].key);
      }
    }
  }

  /** The entry goes from under a claim exactly by such a step. */
  lemma ExposedExactly(ttlMs: nat, s: State, a: Action)
    requires ttlMs > 0 && ClaimsLive(s)
    ensures ClaimsLive(Next(ttlMs, s, a)) <==> !ExposesClaim(s, a)
  {
    if ExposesClaim(s, a) {
      ExposureShows(ttlMs, s, a);
    } else {
      CoveredClaimsStayLive(ttlMs, s, a);
    }
  }

  ghost predicate AlwaysUnique(ttlMs: nat, actions: seq<Action>) {
    UniqueClaims(Run(ttlMs, EMPTY, actions)) && (|actions| > 0 ==> AlwaysUnique(ttlMs, actions[..|actions| - 1]))
  }

  ghost predicate NeverDoubleClaims(ttlMs: nat, actions: seq<Action>) {
    |actions| > 0 ==>
      var front := actions[..|actions| - 1];
      NeverDoubleClaims(ttlMs, front) && !DoubleClaims(Run(ttlMs, EMPTY, front), actions[|actions| - 1])
  }

  ghost predicate NeverExposes(ttlMs: nat, actions: seq<Action>) {
    |actions| > 0 ==>
      var front := actions[..|actions| - 1];
      NeverExposes(ttlMs, front) && !ExposesClaim(Run(ttlMs, EMPTY, front), actions[|actions| - 1])
  }

  lemma {:induction false} NoDoubleClaimKeepsUnique(ttlMs: nat, actions: seq<Action>)
    requires NeverDoubleClaims(ttlMs, actions)
    ensures UniqueClaims(Run(ttlMs, EMPTY, actions))
  {
    if |actions| > 0 {
      NoDoubleClaimKeepsUnique(ttlMs, actions[..|actions| - 1]);
      DoubleClaimExactly(ttlMs, Run(ttlMs, EMPTY, actions[..|actions| - 1]), actions[|actions| - 1]);
    }
  }

  /** All along a run no key has two claimants exactly if no step claims a key that is still claimed. */
  lemma {:induction false} OneClaimantExactly(ttlMs: nat, actions: seq<Action>)
    ensures AlwaysUnique(ttlMs, actions) <==> NeverDoubleClaims(ttlMs, actions)
  {
    if |actions| > 0 {
      var front := actions[..|actions| - 1];
      OneClaimantExactly(ttlMs, front);
      if NeverDoubleClaims(ttlMs, front) {
        NoDoubleClaimKeepsUnique(ttlMs, front);
        DoubleClaimExactly(ttlMs, Run(ttlMs, EMPTY, front), actions[|actions| - 1]);
      }
    }
  }

  /** That needs an exposed claim first: while no claimed key expires and none is deleted from under its
      claim, every claim is live and no key has two. */
  lemma {:induction false} OneClaimantPerKey(ttlMs: nat, actions: seq<Action>)
    requires ttlMs > 0 && NeverExposes(ttlMs, actions)
    ensures ClaimsLive(Run(ttlMs, EMPTY, actions)) && UniqueClaims(Run(ttlMs, EMPTY, actions))
    ensures NeverDoubleClaims(ttlMs, actions)
  {
    if |actions| > 0 {
      var front, last := actions[..|actions| - 1], actions[|actions| - 1];
      OneClaimantPerKey(ttlMs, front);
      ExposedExactly(ttlMs, Run(ttlMs, EMPTY, front), last);
      LiveClaimsAreSafe(Run(ttlMs, EMPTY, front), last);
      DoubleClaimExactly(ttlMs, Run(ttlMs, EMPTY, front), last);
    }
  }

  // ---------- what the conditions are for ----------

  const FIRST := Key(7, Transfer, "a")
  const SECOND := Key(7, Transfer, "b")

  const SLOW := [Arrive(Transfer, FIRST), Step(0), Step(0), Tick(100), Arrive(Transfer, SECOND), Step(1), Step(1)]

  lemma LockTaken()
    ensures Run(100, EMPTY, SLOW[..4])
         == State(100, Store(map[FIRST := KeyEntry(InFlight, 100)], map[7 := LockEntry(0, 100)]),
                  [Session(Transfer, FIRST, Running(Claimant, true), 0)])
  {
    RunTo(100, EMPTY, SLOW, 1);
    RunTo(100, EMPTY, SLOW, 2);
    RunTo(100, EMPTY, SLOW, 3);
    RunTo(100, EMPTY, SLOW, 4);
    var s2 := State(0, Store(map[FIRST := KeyEntry(InFlight, 100)], map[]), [Session(Transfer, FIRST, Locking, 0)]);
    assert Run(100, EMPTY, SLOW[..2]) == s2;
  }

  /** Once a lock has expired a second transfer of the user takes it while the first still runs. */
  lemma ExpiredLockLetsASecondIn()
    ensures Holds(Run(100, EMPTY, SLOW), 0, 7) && Holds(Run(100, EMPTY, SLOW), 1, 7)
  {
    LockTaken();
    RunTo(100, EMPTY, SLOW, 5);
    RunTo(100, EMPTY, SLOW, 6);
    RunTo(100, EMPTY, SLOW, 7);
    assert SLOW[..7] == SLOW;
    var s6 := Run(100, EMPTY, SLOW[..6]);
    assert s6.sessions == [Session(Transfer, FIRST, Running(Claimant, true), 0), Session(Transfer, SECOND, Locking, 0)];
    assert s6.store.locks == map[7 := LockEntry(0, 100)];
  }

  const DEPOSIT := Key(7, Deposit, "a")

  function Visit(stage: Stage): Session {
    Session(Deposit, DEPOSIT, stage, 0)
  }

  function KeyAt(value: KeyValue, expiresAt: Millis): Store {
    Store(map[DEPOSIT := KeyEntry(value, expiresAt)], map[])
  }

  const ENDED := Visit(Releasing(false))
  const REPLAYING := Visit(Running(Replay, false))
  const CLAIMING := Visit(Running(Claimant, false))

  /** Request n claims the free key. */
  function ClaimSteps(n: nat): seq<Action> {
    [Arrive(Deposit, DEPOSIT), Step(n)]
  }

  /** Request n is let in on the done mark. */
  function ReplaySteps(n: nat): seq<Action> {
    [Arrive(Deposit, DEPOSIT), Step(n), Step(n)]
  }

  /** The service answers request n, which then marks or deletes the key. */
  function EndSteps(n: nat, answer: Answer): seq<Action> {
    [Finish(n, answer), Step(n)]
  }

  lemma RunJoined(s: State, a: seq<Action>, m: State, b: seq<Action>, t: State)
    requires Run(100, s, a) == m && Run(100, m, b) == t
    ensures Run(100, s, a + b) == t
  {
    RunConcat(100, s, a, b);
  }

  lemma Claiming(s: State)
    requires s.store == Store(map[], map[]) && s.now == 0
    ensures Run(100, s, ClaimSteps(|s.sessions|)) ==
            s.(sessions := s.sessions + [CLAIMING], store := KeyAt(InFlight, 100))
  {
    var actions := ClaimSteps(|s.sessions|);
    RunTo(100, s, actions, 1);
    RunTo(100, s, actions, 2);
    assert actions[..2] == actions && actions[..0] == [];
  }

  lemma Replaying(s: State)
    requires s.store == KeyAt(DoneMark, 300000) && s.now == 0
    ensures Run(100, s, ReplaySteps(|s.sessions|)) == s.(sessions := s.sessions + [REPLAYING])
  {
    var actions := ReplaySteps(|s.sessions|);
    RunTo(100, s, actions, 1);
    RunTo(100, s, actions, 2);
    RunTo(100, s, actions, 3);
    assert actions[..3] == actions && actions[..0] == [];
    var reading := s.(sessions := s.sessions + [Visit(Reading)]);
    assert Run(100, s, actions[..2]) == reading;
    assert Next(100, reading, Step(|s.sessions|)) == s.(sessions := s.sessions + [REPLAYING]);
  }

  /** The stage in which an answered request settles its key. */
  function Settling(entry: Entry, answer: Answer): Stage {
    if answer == Fine then Marking(entry, false) else Clearing(entry, false)
  }

  /** What that leaves of the store. */
  function Settled(store: Store, answer: Answer): Store {
    if answer == Fine then SetKey(store, DEPOSIT, DoneMark, 300000) else DeleteKey(store, DEPOSIT)
  }

  lemma SettleStep(s: State, n: nat, entry: Entry, answer: Answer)
    requires n < |s.sessions| && s.sessions[n] == Visit(Settling(entry, answer)) && s.now == 0
    ensures Next(100, s, Step(n)) == s.(sessions := s.sessions[n := ENDED], store := Settled(s.store, answer))
  {
  }

  lemma Ending(s: State, n: nat, answer: Answer)
    requires n < |s.sessions| && answer != Conflict && s.now == 0
    requires s.sessions[n] == CLAIMING || s.sessions[n] == REPLAYING
    ensures Run(100, s, EndSteps(n, answer)) ==
            s.(sessions := s.sessions[n := ENDED], store := Settled(s.store, answer))
  {
    var actions := EndSteps(n, answer);
    var entry := s.sessions[n].stage.entry;
    var mid := s.(sessions := s.sessions[n := Visit(Settling(entry, answer))]);
    RunTo(100, s, actions, 1);
    RunTo(100, s, actions, 2);
    assert actions[..2] == actions && actions[..0] == [];
    assert Next(100, s, Finish(n, answer)) == mid;
    SettleStep(mid, n, entry, answer);
    assert mid.sessions[n := ENDED] == s.sessions[n := ENDED];
  }

  lemma KeyGone(value: KeyValue, expiresAt: Millis)
    ensures DeleteKey(KeyAt(value, expiresAt), DEPOSIT) == Store(map[], map[])
    ensures SetKey(KeyAt(value, expiresAt), DEPOSIT, DoneMark, 300000) == KeyAt(DoneMark, 300000)
  {
  }

  lemma DepositIsDone()
    ensures Run(100, EMPTY, ClaimSteps(0) + EndSteps(0, Fine)) == State(0, KeyAt(DoneMark, 300000), [ENDED])
  {
    var claimed := State(0, KeyAt(InFlight, 100), [CLAIMING]);
    Claiming(EMPTY);
    Ending(claimed, 0, Fine);
    KeyGone(InFlight, 100);
    assert claimed.sessions[0 := ENDED] == [ENDED];
    RunJoined(EMPTY, ClaimSteps(0), claimed, EndSteps(0, Fine), State(0, KeyAt(DoneMark, 300000), [ENDED]));
  }

  lemma TwoReplaysEnter(s: State)
    requires s == State(0, KeyAt(DoneMark, 300000), [ENDED])
    ensures Run(100, s, ReplaySteps(1) + ReplaySteps(2)) == s.(sessions := [ENDED, REPLAYING, REPLAYING])
  {
    var one := s.(sessions := [ENDED, REPLAYING]);
    Replaying(s);
    Replaying(one);
    RunJoined(s, ReplaySteps(1), one, ReplaySteps(2), s.(sessions := [ENDED, REPLAYING, REPLAYING]));
  }

  /** A deposit is done and two replays of it are let in. */
  const TWO_REPLAYS := (ClaimSteps(0) + EndSteps(0, Fine)) + (ReplaySteps(1) + ReplaySteps(2))

  lemma TwoReplaysRun()
    ensures Run(100, EMPTY, TWO_REPLAYS) == State(0, KeyAt(DoneMark, 300000), [ENDED, REPLAYING, REPLAYING])
  {
    var done := State(0, KeyAt(DoneMark, 300000), [ENDED]);
    DepositIsDone();
    TwoReplaysEnter(done);
    RunJoined(EMPTY, ClaimSteps(0) + EndSteps(0, Fine), done, ReplaySteps(1) + ReplaySteps(2),
              done.(sessions := [ENDED, REPLAYING, REPLAYING]));
  }

  /** Replay n fails and frees the key, which request m claims. */
  function Turnover(n: nat, m: nat): seq<Action> {
    EndSteps(n, Broken) + ClaimSteps(m)
  }

  lemma TurnoverRuns(s: State, n: nat, value: KeyValue, expiresAt: Millis)
    requires n < |s.sessions| && s.sessions[n] == REPLAYING && s.now == 0 && s.store == KeyAt(value, expiresAt)
    ensures Run(100, s, Turnover(n, |s.sessions|))
         == State(0, KeyAt(InFlight, 100), s.sessions[n := ENDED] + [CLAIMING])
  {
    var freed := State(0, Store(map[], map[]), s.sessions[n := ENDED]);
    Ending(s, n, Broken);
    KeyGone(value, expiresAt);
    Claiming(freed);
    RunJoined(s, EndSteps(n, Broken), freed, ClaimSteps(|s.sessions|),
              State(0, KeyAt(InFlight, 100), s.sessions[n := ENDED] + [CLAIMING]));
  }

  const REPLAYS_FAIL := TWO_REPLAYS + Turnover(1, 3) + Turnover(2, 4)

  /** The key is deleted without looking whose it is: two replays that fail free it, the second under a
      claimant, and two claimants of one key run at once although no time has passed. */
  lemma FailingReplayFreesAnothersKey()
    ensures Run(100, EMPTY, REPLAYS_FAIL) == State(0, KeyAt(InFlight, 100), [ENDED, ENDED, ENDED, CLAIMING, CLAIMING])
    ensures !UniqueClaims(Run(100, EMPTY, REPLAYS_FAIL))
  {
    TwoReplaysRun();
    var s1 := State(0, KeyAt(DoneMark, 300000), [ENDED, REPLAYING, REPLAYING]);
    var s2 := State(0, KeyAt(InFlight, 100), [ENDED, ENDED, REPLAYING, CLAIMING]);
    TurnoverRuns(s1, 1, DoneMark, 300000);
    assert s1.sessions[1 := ENDED] + [CLAIMING] == s2.sessions;
    RunJoined(EMPTY, TWO_REPLAYS, s1, Turnover(1, 3), s2);
    TurnoverRuns(s2, 2, InFlight, 100);
    var s := State(0, KeyAt(InFlight, 100), [ENDED, ENDED, ENDED, CLAIMING, CLAIMING]);
    assert s2.sessions[2 := ENDED] + [CLAIMING] == s.sessions;
    RunJoined(EMPTY, TWO_REPLAYS + Turnover(1, 3), s2, Turnover(2, 4), s);
    assert Claims(s.sessions[3].stage) && Claims(s.sessions[4].stage);
  }
}
