/**
 What the idempotency guard and the controller do to Redis, case by case: which key and which lock a request
 gets, who is refused, and what later requests find.
 */
module GuardAnswers {
  import opened Prelude
  import opened Text
  import opened TransferLock
  import opened TransactionsGuard

  // ---------- which key ----------

  /** The text a header gives: the first of several. */
  function Given(header: Header): string {
    match header
    case Absent => ""
    case Single(text) => text
    case Many(texts) => if |texts| == 0 then "" else texts[0]
  }

  function GivenInBody(body: Body): string {
    if body.referenceId.Some? then body.referenceId.value else ""
  }

  /** The key names the user, the operation the accounts of the body tell, and the reference given, trimmed, in
      the header before the body; each way of having none is its own refusal. */
  lemma KeyExactly(user: User, header: Header, body: Body)
    ensures var inHeader, inBody := Given(header), GivenInBody(body);
      var key := KeyOf(user, header, body);
      if !Blank(inHeader) && !Blank(inBody) && Trim(inHeader) != Trim(inBody) then key == Err(MismatchedReference)
      else if Blank(inHeader) && Blank(inBody) then key == Err(MissingReference)
      else
        var reference := Trim(if Blank(inHeader) then inBody else inHeader);
        match (body.fromAccountId.Some?, body.toAccountId.Some?)
        case (true, true) => key == Ok(Key(user, Transfer, reference))
        case (true, false) => key == Ok(Key(user, Withdraw, reference))
        case (false, true) => key == Ok(Key(user, Deposit, reference))
        case (false, false) => key == Err(UnknownOperation)
  {
    TrimEmptiesBlank(Given(header));
    TrimEmptiesBlank(GivenInBody(body));
    TrimEmptiesBlank("");
  }

  /** Requests of different users, of different references or with other accounts named have different keys. */
  lemma KeysApart(user: User, header: Header, body: Body, other: User, otherHeader: Header, otherBody: Body)
    requires KeyOf(user, header, body).Ok? && KeyOf(other, otherHeader, otherBody).Ok?
    ensures KeyOf(user, header, body) == KeyOf(other, otherHeader, otherBody) <==>
      && user == other
      && (body.fromAccountId.Some? <==> otherBody.fromAccountId.Some?)
      && (body.toAccountId.Some? <==> otherBody.toAccountId.Some?)
      && Trim(if Blank(Given(header)) then GivenInBody(body) else Given(header)) ==
         Trim(if Blank(Given(otherHeader)) then GivenInBody(otherBody) else Given(otherHeader))
  {
    KeyExactly(user, header, body);
    KeyExactly(other, otherHeader, otherBody);
  }

  // ---------- what the guard does ----------

  /** The whole guard for a known user with Redis ready. */
  function Guard(ttlMs: nat, store: Store, user: User, header: Header, body: Body, token: nat, now: Millis,
                 luck: GuardLuck): (Result<Admission, HttpError>, Store)
  {
    match KeyOf(user, header, body)
    case Err(err) => (Err(err), store)
    case Ok(key) => Admit(ttlMs, store, key, token, now, luck)
  }

  /** A request whose key is in Redis is a replay if the key is done, and a conflict if not; nothing changes. */
  lemma TakenKeyAnswers(ttlMs: nat, store: Store, user: User, header: Header, body: Body, token: nat, now: Millis)
    requires KeyOf(user, header, body).Ok?
    requires var key := KeyOf(user, header, body).value; key in store.keys && now < store.keys[key].expiresAt
    ensures var done := store.keys[KeyOf(user, header, body).value].value == DoneMark;
      Guard(ttlMs, store, user, header, body, token, now, Well) ==
      (if done then Ok(Admission(Replay, false)) else Err(ConflictError), store)
  {
  }

  /** A free key is claimed. A request naming one account takes no lock; one naming both takes its user's lock,
      or, while that is held, is refused and leaves no key behind. */
  lemma FreeKeyAnswers(ttlMs: nat, store: Store, user: User, header: Header, body: Body, token: nat, now: Millis)
    requires KeyOf(user, header, body).Ok?
    requires var key := KeyOf(user, header, body).value; key !in store.keys || now >= store.keys[key].expiresAt
    ensures var key := KeyOf(user, header, body).value;
      var (verdict, after) := Guard(ttlMs, store, user, header, body, token, now, Well);
      var claimed := store.keys[key := KeyEntry(InFlight, now + ttlMs)];
      if body.fromAccountId.None? || body.toAccountId.None?
      then verdict == Ok(Admission(Claimant, false)) && after == Store(claimed, store.locks)
      else if user in store.locks && now < store.locks[user].expiresAt
      then verdict == Err(ConflictError) && after == Store(store.keys - {key}, store.locks)
      else verdict == Ok(Admission(Claimant, true)) &&
           after == Store(claimed, store.locks[user := LockEntry(token, now + ttlMs)])
  {
    KeyExactly(user, header, body);
    var key := KeyOf(user, header, body).value;
    assert store.keys[key := KeyEntry(InFlight, now + ttlMs)] - {key} == store.keys - {key};
  }

  /** A Redis call that throws lets the request in with neither key nor lock; what the calls before it set stays. */
  lemma FailedCallAnswers(ttlMs: nat, store: Store, user: User, header: Header, body: Body, token: nat, now: Millis,
                          luck: GuardLuck)
    requires KeyOf(user, header, body).Ok?
    ensures var key := KeyOf(user, header, body).value;
      var free := key !in store.keys || now >= store.keys[key].expiresAt;
      var both := body.fromAccountId.Some? && body.toAccountId.Some?;
      var held := user in store.locks && now < store.locks[user].expiresAt;
      var claimed := store.(keys := store.keys[key := KeyEntry(InFlight, now + ttlMs)]);
      var reply := Guard(ttlMs, store, user, header, body, token, now, luck);
      match luck
      case KeySetFails => reply == (Ok(Admission(Unguarded, false)), store)
      case KeyGetFails => !free ==> reply == (Ok(Admission(Unguarded, false)), store)
      case LockSetFails => free && both ==> reply == (Ok(Admission(Unguarded, false)), claimed)
      case KeyDropFails => free && both && held ==> reply == (Ok(Admission(Unguarded, false)), claimed)
      case Well => true
  {
    KeyExactly(user, header, body);
  }

  // ---------- what the controller does ----------

  /** A result marks the key done for five minutes, and an error deletes it, except a conflict, which leaves it.
      A mark that fails deletes it too, and a deletion that fails leaves it. */
  lemma KeyAfterAnswer(store: Store, key: Key, now: Millis, answer: Answer, luck: EndLuck)
    ensures var after := SettleKey(store, Some(key), now, answer, luck);
      && after.locks == store.locks
      && after.keys == if answer == Conflict then store.keys
                       else if answer == Fine && !luck.markFails
                       then store.keys[key := KeyEntry(DoneMark, now + 300000)]
                       else if luck.deleteFails then store.keys
                       else store.keys - {key}
  {
  }

  /** The lock goes exactly if it is still this request's: a lock that expired, or that another request has taken
      since, stays as it is. */
  lemma LockAfterAnswer(store: Store, user: User, token: nat, now: Millis, luck: EndLuck)
    ensures var after := Unlock(store, Some(user), Some(token), now, luck);
      && after.keys == store.keys
      && after.locks == if !luck.releaseFails && user in store.locks && now < store.locks[user].expiresAt &&
                           store.locks[user].token == token
                        then store.locks - {user} else store.locks
  {
  }

  const SMOOTH := EndLuck(false, false, false)

  /** The store after a transfer that the guard let in was answered. */
  function AfterTransfer(store: Store, key: Key, token: nat, now: Millis, answer: Answer): Store {
    Unlock(SettleKey(store, Some(key), now, answer, SMOOTH), Some(key.user), Some(token), now, SMOOTH)
  }

  /** A transfer from the guard to its answer, within the lifetime of its key. While it runs, the same request and
      every other transfer of its user are refused. Afterwards the lock is free; the same request is a replay for
      five minutes if it succeeded, and starts anew if it failed. */
  lemma TransferLifeCycle(ttlMs: nat, store: Store, user: User, header: Header, body: Body, token: nat, start: Millis,
                          during: Millis, end: Millis, later: Millis, other: Header, otherToken: nat)
    requires KeyOf(user, header, body).Ok? && KeyOf(user, other, body).Ok?
    requires body.fromAccountId.Some? && body.toAccountId.Some?
    requires Guard(ttlMs, store, user, header, body, token, start, Well).0 == Ok(Admission(Claimant, true))
    requires start <= during <= end < start + ttlMs && end <= later
    requires KeyOf(user, other, body) != KeyOf(user, header, body) && KeyOf(user, other, body).value !in store.keys
    ensures var running := Guard(ttlMs, store, user, header, body, token, start, Well).1;
      var key := KeyOf(user, header, body).value;
      var succeeded := AfterTransfer(running, key, token, end, Fine);
      var failed := AfterTransfer(running, key, token, end, Broken);
      && Guard(ttlMs, running, user, header, body, otherToken, during, Well).0 == Err(ConflictError)
      && Guard(ttlMs, running, user, other, body, otherToken, during, Well).0 == Err(ConflictError)
      && Guard(ttlMs, succeeded, user, header, body, otherToken, later, Well).0 ==
         Ok(if later < end + 300000 then Admission(Replay, false) else Admission(Claimant, true))
      && Guard(ttlMs, failed, user, header, body, otherToken, later, Well).0 == Ok(Admission(Claimant, true))
      && Guard(ttlMs, succeeded, user, other, body, otherToken, later, Well).0 == Ok(Admission(Claimant, true))
  {
    KeyExactly(user, header, body);
    KeyExactly(user, other, body);
  }
}
