/**
 What login, refresh, logout and a password change answer and leave behind, case by case and row by row; whose
 rows they leave alone; and that their token transactions are runs of the token machine.
 */
module AuthAnswers {
  import opened Prelude
  import opened TokenMachine
  import opened AuthSpecification

  /** Token i of a customer whose tokens are all revoked at this time. */
  function Revoked(token: Token, id: CustomerId, at: Millis): Token {
    if token.customer == id && token.revokedAt.None? then token.(revokedAt := Some(at)) else token
  }

  /** A login of an unknown or locked customer changes nothing. A wrong password counts one failure, locks from the
      threshold on, and touches no token. A right one resets the counter, revokes that customer's live tokens and
      issues a new one. Whatever throws, what came before it stays, and other customers' rows are as before. */
  lemma LogInAnswers(cfg: Config, s: AuthState, id: CustomerId, password: string, checkedAt: Millis, settledAt: Millis,
                     trouble: Trouble)
    ensures var (r, t) := LogIn(cfg, s, id, password, checkedAt, settledAt, trouble);
      if id !in s.customers then (r, t) == (Err(InvalidCredentials), s)
      else
        var Customer(known, lock) := s.customers[id];
        if lock.lockUntil.Some? && lock.lockUntil.value > checkedAt then (r, t) == (Err(AccountLocked), s)
        else if trouble == CounterFails then (r, t) == (Err(TechnicalError), s)
        else if password != known then
          && r == Err(if trouble == AuditFails then TechnicalError else InvalidCredentials)
          && t.tokens == s.tokens
          && t.customers == s.customers[id := Customer(known, L.Lock(lock.failed + 1,
               if lock.failed + 1 >= cfg.lock.threshold then Some(settledAt + cfg.lock.durationMs) else None))]
        else
          && t.customers == s.customers[id := Customer(known, L.Lock(0, None))]
          && (trouble == TokensFail ==> r == Err(TechnicalError) && t.tokens == s.tokens)
          && (trouble != TokensFail ==>
                && r == (if trouble == AuditFails then Err(TechnicalError) else Ok(|s.tokens|))
                && |t.tokens| == |s.tokens| + 1
                && t.tokens[|s.tokens|] == Token(id, settledAt + cfg.refreshTtlMs, None, None)
                && (forall i :: 0 <= i < |s.tokens| ==> t.tokens[i] == Revoked(s.tokens[i], id, settledAt)))
  {
  }

  /** A refresh of a token that is unknown, revoked, replaced or expired, or whose transaction throws, changes
      nothing. Any other revokes that one token, points it to its successor, and issues that to the same customer. */
  lemma RefreshAnswers(cfg: Config, s: AuthState, cookie: Option<nat>, startedAt: Millis, guardAt: Millis,
                       trouble: Trouble)
    ensures var (r, t) := RefreshToken(cfg, s, cookie, startedAt, guardAt, trouble);
      if cookie.None? || cookie.value >= |s.tokens| then (r, t) == (Err(InvalidRefreshToken), s)
      else
        var i := cookie.value;
        var Token(customer, expiresAt, revokedAt, replacedBy) := s.tokens[i];
        if trouble == TokensFail then (r, t) == (Err(TechnicalError), s)
        else if revokedAt.Some? || replacedBy.Some? || expiresAt <= guardAt then (r, t) == (Err(InvalidRefreshToken), s)
        else
          && r == (if trouble == AuditFails then Err(TechnicalError) else Ok(|s.tokens|))
          && t.customers == s.customers && |t.tokens| == |s.tokens| + 1
          && t.tokens[i] == Token(customer, expiresAt, Some(guardAt), Some(|s.tokens|))
          && t.tokens[|s.tokens|] == Token(customer, startedAt + cfg.refreshTtlMs, None, None)
          && (forall j :: 0 <= j < |s.tokens| && j != i ==> t.tokens[j] == s.tokens[j])
  {
  }

  /** A logout revokes the live token of its cookie and nothing else; without one it changes nothing and succeeds. */
  lemma LogOutAnswers(s: AuthState, cookie: Option<nat>, at: Millis, trouble: Trouble)
    ensures var (r, t) := LogOut(s, cookie, at, trouble);
      if cookie.None? || cookie.value >= |s.tokens| || s.tokens[cookie.value].revokedAt.Some? then (r, t) == (Ok(()), s)
      else if trouble == TokensFail then (r, t) == (Err(TechnicalError), s)
      else
        && r == (if trouble == AuditFails then Err(TechnicalError) else Ok(()))
        && t == s.(tokens := s.tokens[cookie.value := s.tokens[cookie.value].(revokedAt := Some(at))])
  {
  }

  /** A password change of an unknown customer, from a wrong or to the same password, or whose transaction throws,
      changes nothing. Any other sets that customer's password, leaves the lock, and revokes that customer's live
      tokens. */
  lemma PasswordAnswers(s: AuthState, id: CustomerId, oldPassword: string, newPassword: string, at: Millis,
                        trouble: Trouble)
    ensures var (r, t) := PatchPassword(s, id, oldPassword, newPassword, at, trouble);
      if id !in s.customers then (r, t) == (Err(UserNotFound), s)
      else if oldPassword != s.customers[id].password then (r, t) == (Err(InvalidCredentials), s)
      else if oldPassword == newPassword then (r, t) == (Err(SamePassword), s)
      else if trouble == TokensFail then (r, t) == (Err(TechnicalError), s)
      else
        && r == (if trouble == AuditFails then Err(TechnicalError) else Ok(()))
        && t.customers == s.customers[id := Customer(newPassword, s.customers[id].lock)]
        && |t.tokens| == |s.tokens|
        && (forall i :: 0 <= i < |s.tokens| ==> t.tokens[i] == Revoked(s.tokens[i], id, at))
  {
  }

  // ---------- whose rows ----------

  /** Whose call it is: the customer it names, or the one its cookie's token belongs to. */
  predicate CallOf(s: AuthState, call: Call, id: CustomerId) {
    match call
    case LogInCall(customer, _, _, _, _) => customer == id
    case RefreshCall(cookie, _, _, _) =>
      cookie.Some? && cookie.value < |s.tokens| && s.tokens[cookie.value].customer == id
    case LogOutCall(cookie, _, _) =>
      cookie.Some? && cookie.value < |s.tokens| && s.tokens[cookie.value].customer == id
    case PatchPasswordCall(customer, _, _, _, _) => customer == id
  }

  function ApplyAll(cfg: Config, s: AuthState, calls: seq<Call>): AuthState {
    if |calls| == 0 then s else Apply(cfg, ApplyAll(cfg, s, calls[..|calls| - 1]), calls[|calls| - 1])
  }

  /** None of the calls is this customer's. */
  ghost predicate NoneOf(cfg: Config, s: AuthState, calls: seq<Call>, id: CustomerId) {
    |calls| > 0 ==>
      var front := calls[..|calls| - 1];
      NoneOf(cfg, s, front, id) && !CallOf(ApplyAll(cfg, s, front), calls[|calls| - 1], id)
  }

  /** A customer's own part of the state: the row, and the tokens by their number. */
  ghost predicate SameFor(s: AuthState, t: AuthState, id: CustomerId) {
    && (id in t.customers <==> id in s.customers) && (id in s.customers ==> t.customers[id] == s.customers[id])
    && |s.tokens| <= |t.tokens|
    && (forall i :: 0 <= i < |s.tokens| ==>
          t.tokens[i].customer == s.tokens[i].customer && (s.tokens[i].customer == id ==> t.tokens[i] == s.tokens[i]))
    && (forall i :: |s.tokens| <= i < |t.tokens| ==> t.tokens[i].customer != id)
  }

  lemma CallLeavesOthers(cfg: Config, s: AuthState, call: Call, id: CustomerId)
    requires !CallOf(s, call, id)
    ensures SameFor(s, Apply(cfg, s, call), id)
  {
    match call
    case LogInCall(customer, password, checkedAt, settledAt, trouble) =>
      LogInAnswers(cfg, s, customer, password, checkedAt, settledAt, trouble);
    case RefreshCall(cookie, startedAt, guardAt, trouble) =>
      RefreshAnswers(cfg, s, cookie, startedAt, guardAt, trouble);
    case LogOutCall(cookie, at, trouble) => LogOutAnswers(s, cookie, at, trouble);
    case PatchPasswordCall(customer, before, after, at, trouble) =>
      PasswordAnswers(s, customer, before, after, at, trouble);
  }

  /** Whatever the others do, and whatever throws: a customer's password, lock and tokens stay as they are. */
  lemma {:induction false} OthersAreLeftAlone(cfg: Config, s: AuthState, calls: seq<Call>, id: CustomerId)
    requires NoneOf(cfg, s, calls, id)
    ensures SameFor(s, ApplyAll(cfg, s, calls), id)
  {
    if |calls| > 0 {
      OthersAreLeftAlone(cfg, s, calls[..|calls| - 1], id);
      CallLeavesOthers(cfg, ApplyAll(cfg, s, calls[..|calls| - 1]), calls[|calls| - 1], id);
    }
  }

  // ---------- logins and password changes are runs ----------

  /** Undisturbed, a login does to the tokens what its specification says: nothing when it is refused, and the
      machine's login when it is not. */
  lemma LogInIsARun(cfg: Config, s: State, customers: map<CustomerId, Customer>, id: CustomerId, password: string,
                    checkedAt: Millis) returns (actions: seq<Action>)
    requires Quiet(s)
    ensures var t := Run(cfg.refreshTtlMs, s, actions);
      var (r, after) := LogIn(cfg, AuthState(customers, s.tokens), id, password, checkedAt, s.now, Smooth);
      && t.tokens == after.tokens
      && (r.Err? ==> actions == [])
      && (r.Ok? ==> |t.sessions| == |s.sessions| + 1 && t.sessions[|s.sessions|].req == Login(id) &&
                    t.sessions[|s.sessions|].stage == Done(Issued(r.value)))
  {
    actions := [];
    if LogIn(cfg, AuthState(customers, s.tokens), id, password, checkedAt, s.now, Smooth).0.Ok? {
      actions := RevokeAllIsARun(cfg.refreshTtlMs, s, Login(id));
    }
  }

  /** And so does a password change. */
  lemma PatchPasswordIsARun(ttlMs: nat, s: State, customers: map<CustomerId, Customer>, id: CustomerId,
                            oldPassword: string, newPassword: string) returns (actions: seq<Action>)
    requires Quiet(s)
    ensures var t := Run(ttlMs, s, actions);
      var (r, after) := PatchPassword(AuthState(customers, s.tokens), id, oldPassword, newPassword, s.now, Smooth);
      && t.tokens == after.tokens
      && (r.Err? ==> actions == [])
      && (r.Ok? ==> |t.sessions| == |s.sessions| + 1 && t.sessions[|s.sessions|].req == ChangePassword(id) &&
                    t.sessions[|s.sessions|].stage == Done(PasswordChanged))
  {
    actions := [];
    if PatchPassword(AuthState(customers, s.tokens), id, oldPassword, newPassword, s.now, Smooth).0.Ok? {
      actions := RevokeAllIsARun(ttlMs, s, ChangePassword(id));
    }
  }
}
