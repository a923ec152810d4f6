/**
 What login, refresh, logout and a password change do when nothing runs beside them: the specification
 of the service methods, what it promises across calls, and that each is a run of the token machine.
 */
module AuthSpecification {
  import opened Prelude
  import opened TokenMachine
  import opened TokenTheorems
  import L = LoginLock

  /** bcrypt and SHA-256 are taken as injective, so passwords stand for their hashes and tokens for theirs. */
  datatype Customer = Customer(password: string, lock: L.Lock)

  datatype AuthState = AuthState(customers: map<CustomerId, Customer>, tokens: seq<Token>)

  datatype AuthError =
    | InvalidCredentials
    | AccountLocked
    | InvalidRefreshToken
    | UserNotFound
    | SamePassword
    | TechnicalError

  /** What throws: the update of the login counter, the token transaction, or the audit insert after it. */
  datatype Trouble = Smooth | CounterFails | TokensFail | AuditFails

  datatype Config = Config(lock: L.Settings, refreshTtlMs: nat)

  function RevokeAll(tokens: seq<Token>, customer: CustomerId, at: Millis): seq<Token> {
    seq(|tokens|, i requires 0 <= i < |tokens| =>
      if Live(tokens[i]) && tokens[i].customer == customer then tokens[i].(revokedAt := Some(at)) else tokens[i])
  }

  /** The password check reads the clock at `checkedAt`; the counter or the tokens are written at `settledAt`.
      The counter is reset outside the token transaction, so it stays reset when that one fails, and the
      audit insert comes last, so it fails with everything written. */
  function LogIn(cfg: Config, s: AuthState, id: CustomerId, password: string, checkedAt: Millis, settledAt: Millis,
                 trouble: Trouble): (Result<nat, AuthError>, AuthState)
  {
    if id !in s.customers then (Err(InvalidCredentials), s)
    else
      var customer := s.customers[id];
      if L.Blocks(customer.lock, checkedAt) then (Err(AccountLocked), s)
      else if trouble == CounterFails then (Err(TechnicalError), s)
      else
        var valid := password == customer.password;
        var after := customer.(lock := L.Settle(cfg.lock, customer.lock, valid, settledAt));
        var settled := s.(customers := s.customers[id := after]);
        if !valid then (Err(if trouble == AuditFails then TechnicalError else InvalidCredentials), settled)
        else if trouble == TokensFail then (Err(TechnicalError), settled)
        else
          (if trouble == AuditFails then Err(TechnicalError) else Ok(|s.tokens|),
           settled.(tokens := RevokeAll(s.tokens, id, settledAt) +
                              [Token(id, settledAt + cfg.refreshTtlMs, None, None)]))
  }

  function Rotate(tokens: seq<Token>, i: nat, at: Millis, expiresAt: Millis): seq<Token>
    requires i < |tokens|
  {
    tokens[i := tokens[i].(revokedAt := Some(at), replacedBy := Some(|tokens|))] +
    [Token(tokens[i].customer, expiresAt, None, None)]
  }

  function RefreshToken(cfg: Config, s: AuthState, cookie: Option<nat>, startedAt: Millis, guardAt: Millis,
                        trouble: Trouble): (Result<nat, AuthError>, AuthState)
  {
    if cookie.None? || cookie.value >= |s.tokens| then (Err(InvalidRefreshToken), s)
    else if trouble == TokensFail then (Err(TechnicalError), s)
    else
      var i := cookie.value;
      if !Rotatable(s.tokens, i, guardAt) then (Err(InvalidRefreshToken), s)
      else
        (if trouble == AuditFails then Err(TechnicalError) else Ok(|s.tokens|),
         s.(tokens := Rotate(s.tokens, i, guardAt, startedAt + cfg.refreshTtlMs)))
  }

  function LogOut(s: AuthState, cookie: Option<nat>, at: Millis, trouble: Trouble): (Result<(), AuthError>, AuthState) {
    if !(cookie.Some? && cookie.value < |s.tokens| && Live(s.tokens[cookie.value])) then (Ok(()), s)
    else if trouble == TokensFail then (Err(TechnicalError), s)
    else
      (if trouble == AuditFails then Err(TechnicalError) else Ok(()),
       s.(tokens := RevokeOne(s.tokens, cookie.value, at)))
  }

  function PatchPassword(s: AuthState, id: CustomerId, oldPassword: string, newPassword: string, at: Millis,
                         trouble: Trouble): (Result<(), AuthError>, AuthState)
  {
    if id !in s.customers then (Err(UserNotFound), s)
    else if oldPassword != s.customers[id].password then (Err(InvalidCredentials), s)
    else if oldPassword == newPassword then (Err(SamePassword), s)
    else if trouble == TokensFail then (Err(TechnicalError), s)
    else
      (if trouble == AuditFails then Err(TechnicalError) else Ok(()),
       AuthState(s.customers[id := s.customers[id].(password := newPassword)], RevokeAll(s.tokens, id, at)))
  }

  // ---------- what an error answer means ----------

  /** A refresh that answers with an error has changed nothing, except exactly when its rotation committed
      and the audit insert then failed: the caller keeps a token that is now revoked. */
  lemma RefreshErrors(cfg: Config, s: AuthState, cookie: Option<nat>, startedAt: Millis, guardAt: Millis,
                      trouble: Trouble)
    requires RefreshToken(cfg, s, cookie, startedAt, guardAt, trouble).0.Err?
    ensures var t := RefreshToken(cfg, s, cookie, startedAt, guardAt, trouble).1;
      var rotated := trouble == AuditFails && cookie.Some? && Rotatable(s.tokens, cookie.value, guardAt);
      && (t == s <==> !rotated)
      && (rotated ==> RefreshToken(cfg, t, cookie, startedAt, guardAt, Smooth) == (Err(InvalidRefreshToken), t))
  {
    var t := RefreshToken(cfg, s, cookie, startedAt, guardAt, trouble).1;
    if trouble == AuditFails && cookie.Some? && Rotatable(s.tokens, cookie.value, guardAt) {
      assert t.tokens[cookie.value].revokedAt.Some?;
    }
  }

  /** A password change that answers with an error has changed nothing, except exactly when it committed
      and the audit insert then failed: the new password is in force all the same. */
  lemma PatchPasswordErrors(s: AuthState, id: CustomerId, oldPassword: string, newPassword: string, at: Millis,
                            trouble: Trouble)
    requires PatchPassword(s, id, oldPassword, newPassword, at, trouble).0.Err?
    ensures var t := PatchPassword(s, id, oldPassword, newPassword, at, trouble).1;
      var changed := trouble == AuditFails && id in s.customers &&
                     oldPassword == s.customers[id].password && oldPassword != newPassword;
      && (t == s <==> !changed)
      && (changed ==> t == PatchPassword(s, id, oldPassword, newPassword, at, Smooth).1 &&
                      id in t.customers && t.customers[id].password == newPassword)
  {
    var t := PatchPassword(s, id, oldPassword, newPassword, at, trouble).1;
    if trouble == AuditFails && id in s.customers && oldPassword == s.customers[id].password &&
       oldPassword != newPassword {
      assert t.customers[id].password != s.customers[id].password;
    }
  }

  /** A logout answers with an error only for a live token; that one is revoked exactly when it was the
      audit insert that failed. */
  lemma LogOutErrors(s: AuthState, cookie: Option<nat>, at: Millis, trouble: Trouble)
    requires LogOut(s, cookie, at, trouble).0.Err?
    ensures cookie.Some? && cookie.value < |s.tokens| && Live(s.tokens[cookie.value])
    ensures var t := LogOut(s, cookie, at, trouble).1;
      && (t == s <==> trouble == TokensFail)
      && (t != s ==> t.tokens == RevokeOne(s.tokens, cookie.value, at))
  {
    var t := LogOut(s, cookie, at, trouble).1;
    assert trouble == AuditFails ==> t.tokens[cookie.value].revokedAt.Some?;
  }

  /** A login that answers with an error has left the tokens alone except exactly when the password was
      right and the audit insert failed; it has left everything alone exactly when it was refused before
      the check, its counter update failed, or it would have reset a counter already at zero and its token
      transaction failed. */
  lemma LogInErrors(cfg: Config, s: AuthState, id: CustomerId, password: string, checkedAt: Millis, settledAt: Millis,
                    trouble: Trouble)
    requires LogIn(cfg, s, id, password, checkedAt, settledAt, trouble).0.Err?
    ensures var t := LogIn(cfg, s, id, password, checkedAt, settledAt, trouble).1;
      var checked := id in s.customers && !L.Blocks(s.customers[id].lock, checkedAt) && trouble != CounterFails;
      && (t.tokens == s.tokens <==> !(checked && password == s.customers[id].password && trouble == AuditFails))
      && (t == s <==> !checked ||
                      (password == s.customers[id].password && trouble == TokensFail && s.customers[id].lock == L.OPEN))
  {
    var t := LogIn(cfg, s, id, password, checkedAt, settledAt, trouble).1;
    if id in s.customers && !L.Blocks(s.customers[id].lock, checkedAt) && trouble != CounterFails {
      assert t.customers[id].lock ==
             L.Settle(cfg.lock, s.customers[id].lock, password == s.customers[id].password, settledAt);
      if s.customers[id].lock == L.OPEN && password == s.customers[id].password {
        assert s.customers[id := s.customers[id]] == s.customers;
      }
      if password == s.customers[id].password && trouble == AuditFails {
        assert |t.tokens| == |s.tokens| + 1;
      }
    }
  }

  // ---------- across calls ----------

  /** A token from a login can be refreshed until it expires, exactly once; the token it is traded for
      can be refreshed in its turn. */
  lemma LoginThenRefresh(cfg: Config, s: AuthState, id: CustomerId, password: string, checkedAt: Millis,
                         settledAt: Millis, startedAt: Millis, guardAt: Millis)
    requires LogIn(cfg, s, id, password, checkedAt, settledAt, Smooth).0.Ok?
    ensures var (first, s1) := LogIn(cfg, s, id, password, checkedAt, settledAt, Smooth);
      var (second, s2) := RefreshToken(cfg, s1, Some(first.value), startedAt, guardAt, Smooth);
      && (second.Ok? <==> guardAt < settledAt + cfg.refreshTtlMs)
      && (second.Ok? ==>
            && RefreshToken(cfg, s2, Some(first.value), startedAt, guardAt, Smooth) == (Err(InvalidRefreshToken), s2)
            && (RefreshToken(cfg, s2, Some(second.value), guardAt, guardAt, Smooth).0.Ok? <==>
                guardAt < startedAt + cfg.refreshTtlMs))
  {
    var (first, s1) := LogIn(cfg, s, id, password, checkedAt, settledAt, Smooth);
    assert s1.tokens[first.value] == Token(id, settledAt + cfg.refreshTtlMs, None, None);
    var (second, s2) := RefreshToken(cfg, s1, Some(first.value), startedAt, guardAt, Smooth);
    if second.Ok? {
      assert s2.tokens[first.value].revokedAt.Some?;
      assert s2.tokens[second.value] == Token(id, startedAt + cfg.refreshTtlMs, None, None);
    }
  }

  /** After a password change no token of the customer can be refreshed, the old password does not log in,
      and the new one does exactly when the customer is not locked out. Other customers' tokens are as before. */
  lemma PasswordChangeEndsSessions(cfg: Config, s: AuthState, id: CustomerId, oldPassword: string, newPassword: string,
                                   at: Millis, later: Millis)
    requires PatchPassword(s, id, oldPassword, newPassword, at, Smooth).0.Ok?
    ensures var t := PatchPassword(s, id, oldPassword, newPassword, at, Smooth).1;
      && (forall i: nat :: i < |s.tokens| && s.tokens[i].customer == id ==>
            RefreshToken(cfg, t, Some(i), later, later, Smooth) == (Err(InvalidRefreshToken), t))
      && (forall i: nat :: i < |s.tokens| && s.tokens[i].customer != id ==> t.tokens[i] == s.tokens[i])
      && LogIn(cfg, t, id, oldPassword, later, later, Smooth).0.Err?
      && (LogIn(cfg, t, id, newPassword, later, later, Smooth).0.Ok? <==> !L.Blocks(s.customers[id].lock, later))
  {
    var t := PatchPassword(s, id, oldPassword, newPassword, at, Smooth).1;
    forall i: nat | i < |s.tokens| && s.tokens[i].customer == id ensures !Live(t.tokens[i]) {
      assert t.tokens[i].revokedAt == if Live(s.tokens[i]) then Some(at) else s.tokens[i].revokedAt;
    }
  }

  /** The table moved on soundly: chains intact, one live token per customer, nothing undone. */
  ghost predicate Sound(before: seq<Token>, after: seq<Token>) {
    Chained(after) && OneLive(after) && Kept(before, after)
  }

  lemma RevokeAllSound(tokens: seq<Token>, id: CustomerId, at: Millis)
    requires Chained(tokens) && OneLive(tokens)
    ensures Sound(tokens, RevokeAll(tokens, id, at))
  {
  }

  lemma LoginSound(tokens: seq<Token>, id: CustomerId, at: Millis, expiresAt: Millis)
    requires Chained(tokens) && OneLive(tokens)
    ensures Sound(tokens, RevokeAll(tokens, id, at) + [Token(id, expiresAt, None, None)])
  {
    var t := RevokeAll(tokens, id, at) + [Token(id, expiresAt, None, None)];
    assert forall i: nat :: i < |tokens| ==> t[i].replacedBy == tokens[i].replacedBy;
  }

  lemma RefreshSound(tokens: seq<Token>, i: nat, at: Millis, expiresAt: Millis)
    requires Chained(tokens) && OneLive(tokens) && Rotatable(tokens, i, at)
    ensures Sound(tokens, Rotate(tokens, i, at, expiresAt))
  {
    var t := Rotate(tokens, i, at, expiresAt);
    assert forall j: nat :: j < |tokens| && j != i ==> t[j] == tokens[j];
    assert t[i].replacedBy == Some(|tokens|) && !Live(t[i]);
    forall j: nat | j < |tokens| && j != i && Live(t[j]) ensures t[j].customer != tokens[i].customer {
      assert Live(tokens[i]) && Live(tokens[j]);
    }
  }

  lemma RevokeOneSound(tokens: seq<Token>, i: nat, at: Millis)
    requires Chained(tokens) && OneLive(tokens) && i < |tokens|
    ensures Sound(tokens, RevokeOne(tokens, i, at))
  {
  }

  datatype Call =
    | LogInCall(id: CustomerId, password: string, checkedAt: Millis, settledAt: Millis, trouble: Trouble)
    | RefreshCall(cookie: Option<nat>, startedAt: Millis, guardAt: Millis, trouble: Trouble)
    | LogOutCall(cookie: Option<nat>, at: Millis, trouble: Trouble)
    | PatchPasswordCall(id: CustomerId, oldPassword: string, newPassword: string, at: Millis, trouble: Trouble)

  function Apply(cfg: Config, s: AuthState, call: Call): AuthState {
    match call
    case LogInCall(id, password, checkedAt, settledAt, trouble) =>
      LogIn(cfg, s, id, password, checkedAt, settledAt, trouble).1
    case RefreshCall(cookie, startedAt, guardAt, trouble) => RefreshToken(cfg, s, cookie, startedAt, guardAt, trouble).1
    case LogOutCall(cookie, at, trouble) => LogOut(s, cookie, at, trouble).1
    case PatchPasswordCall(id, before, after, at, trouble) => PatchPassword(s, id, before, after, at, trouble).1
  }

  lemma NothingChanged(tokens: seq<Token>)
    requires Chained(tokens) && OneLive(tokens)
    ensures Sound(tokens, tokens)
  {
  }

  lemma LogInSound(cfg: Config, s: AuthState, id: CustomerId, password: string, checkedAt: Millis,
                   settledAt: Millis, trouble: Trouble)
    requires Chained(s.tokens) && OneLive(s.tokens)
    ensures Sound(s.tokens, LogIn(cfg, s, id, password, checkedAt, settledAt, trouble).1.tokens)
  {
    NothingChanged(s.tokens);
    LoginSound(s.tokens, id, settledAt, settledAt + cfg.refreshTtlMs);
  }

  lemma RefreshTokenSound(cfg: Config, s: AuthState, cookie: Option<nat>, startedAt: Millis, guardAt: Millis,
                          trouble: Trouble)
    requires Chained(s.tokens) && OneLive(s.tokens)
    ensures Sound(s.tokens, RefreshToken(cfg, s, cookie, startedAt, guardAt, trouble).1.tokens)
  {
    if trouble != TokensFail && cookie.Some? && Rotatable(s.tokens, cookie.value, guardAt) {
      RefreshSound(s.tokens, cookie.value, guardAt, startedAt + cfg.refreshTtlMs);
    } else {
      NothingChanged(s.tokens);
    }
  }

  lemma LogOutSound(s: AuthState, cookie: Option<nat>, at: Millis, trouble: Trouble)
    requires Chained(s.tokens) && OneLive(s.tokens)
    ensures Sound(s.tokens, LogOut(s, cookie, at, trouble).1.tokens)
  {
    NothingChanged(s.tokens);
    if cookie.Some? && cookie.value < |s.tokens| {
      RevokeOneSound(s.tokens, cookie.value, at);
    }
  }

  lemma PatchPasswordSound(s: AuthState, id: CustomerId, oldPassword: string, newPassword: string,
                           at: Millis, trouble: Trouble)
    requires Chained(s.tokens) && OneLive(s.tokens)
    ensures Sound(s.tokens, PatchPassword(s, id, oldPassword, newPassword, at, trouble).1.tokens)
  {
    NothingChanged(s.tokens);
    RevokeAllSound(s.tokens, id, at);
  }

  /** One call at a time, any call, whatever throws, keeps chains and the single live token. */
  lemma CallsAreSound(cfg: Config, s: AuthState, call: Call)
    requires Chained(s.tokens) && OneLive(s.tokens)
    ensures Sound(s.tokens, Apply(cfg, s, call).tokens)
  {
    match call
    case LogInCall(id, password, checkedAt, settledAt, trouble) =>
      LogInSound(cfg, s, id, password, checkedAt, settledAt, trouble);
    case RefreshCall(cookie, startedAt, guardAt, trouble) =>
      RefreshTokenSound(cfg, s, cookie, startedAt, guardAt, trouble);
    case LogOutCall(cookie, at, trouble) => LogOutSound(s, cookie, at, trouble);
    case PatchPasswordCall(id, before, after, at, trouble) => PatchPasswordSound(s, id, before, after, at, trouble);
  }

  // ---------- each call is a run of the machine ----------

  /** No open transaction holds a row. */
  ghost predicate Quiet(s: State) {
    forall q :: 0 <= q < |s.sessions| ==> s.sessions[q].work.revokes == map[]
  }

  function Again(p: nat, n: nat): seq<Action> {
    if n == 0 then [] else Again(p, n - 1) + [Advance(p)]
  }

  function Marked(targets: seq<nat>, at: Millis): map<nat, Millis> {
    map i | i in targets :: at
  }

  ghost predicate QuietBut(s: State, p: nat) {
    forall q :: 0 <= q < |s.sessions| && q != p ==> s.sessions[q].work.revokes == map[]
  }

  lemma MarkOne(ttlMs: nat, s: State, p: nat, at: Millis, targets: seq<nat>, k: nat)
    requires p < |s.sessions| && QuietBut(s, p) && k < |targets|
    requires targets[k] < |s.tokens| && Live(s.tokens[targets[k]])
    requires s.sessions[p].stage == Revoking(at, targets, k)
    requires s.sessions[p].work == Work(Marked(targets[..k], at), None, None)
    ensures Next(ttlMs, s, Advance(p)) == Put(s, p, s.sessions[p].(
              stage := Revoking(at, targets, k + 1), work := Work(Marked(targets[..k + 1], at), None, None)))
  {
    assert !Locked(s, p, targets[k]);
    assert targets[..k + 1] == targets[..k] + [targets[k]];
    assert Marked(targets[..k], at)[targets[k] := at] == Marked(targets[..k + 1], at);
  }

  /** Undisturbed, a revoke-all marks its targets one by one. */
  lemma {:induction false} MarkTargets(ttlMs: nat, s: State, p: nat, at: Millis, targets: seq<nat>, k: nat)
    requires p < |s.sessions| && QuietBut(s, p) && k <= |targets|
    requires forall i :: i in targets ==> i < |s.tokens| && Live(s.tokens[i])
    requires s.sessions[p].stage == Revoking(at, targets, 0) && s.sessions[p].work == NO_WORK
    ensures Run(ttlMs, s, Again(p, k)) == Put(s, p, s.sessions[p].(
              stage := Revoking(at, targets, k), work := Work(Marked(targets[..k], at), None, None)))
  {
    if k == 0 {
      assert Marked(targets[..0], at) == map[];
      assert s.sessions[p := s.sessions[p]] == s.sessions;
    } else {
      MarkTargets(ttlMs, s, p, at, targets, k - 1);
      assert Again(p, k)[..|Again(p, k)| - 1] == Again(p, k - 1);
      assert targets[k - 1] in targets;
      MarkOne(ttlMs, Run(ttlMs, s, Again(p, k - 1)), p, at, targets, k - 1);
    }
  }

  lemma CommitRevokesAll(tokens: seq<Token>, customer: CustomerId, at: Millis, created: Option<Token>)
    ensures CommitTokens(tokens, Work(Marked(LiveOf(tokens, customer), at), created, None))
         == RevokeAll(tokens, customer, at) + (if created.Some? then [created.value] else [])
  {
    forall i: nat | i < |tokens|
      ensures i in LiveOf(tokens, customer) <==> Live(tokens[i]) && tokens[i].customer == customer
    {
      LiveOfFinds(tokens, customer, i);
    }
  }

  /** Arrival, lookup and snapshot of a revoke-all, then its rows. */
  lemma RevokeAllRuns(ttlMs: nat, s: State, req: Request)
    requires Quiet(s) && RevokesAll(req)
    ensures var targets := LiveOf(s.tokens, req.customer);
      var actions := [Arrive(req), Advance(|s.sessions|), Advance(|s.sessions|)] + Again(|s.sessions|, |targets|);
      var expiry := if req.Login? then s.now + ttlMs else 0;
      var last := Session(req, Revoking(s.now, targets, |targets|), req.customer, expiry,
                          Work(Marked(targets, s.now), None, None), |s.tokens|);
      Run(ttlMs, s, actions) == s.(sessions := s.sessions + [last])
  {
    var p := |s.sessions|;
    var targets := LiveOf(s.tokens, req.customer);
    var start := [Arrive(req), Advance(p), Advance(p)];
    var expiry := if req.Login? then s.now + ttlMs else 0;
    RunTo(ttlMs, s, start, 1);
    RunTo(ttlMs, s, start, 2);
    RunTo(ttlMs, s, start, 3);
    assert start[..3] == start;
    var marking := Session(req, Revoking(s.now, targets, 0), req.customer, expiry, NO_WORK, |s.tokens|);
    var s3 := s.(sessions := s.sessions + [marking]);
    assert Run(ttlMs, s, start) == s3;
    forall i | i in targets ensures i < |s.tokens| && Live(s.tokens[i]) {
      LiveOfFinds(s.tokens, req.customer, i);
    }
    MarkTargets(ttlMs, s3, p, s.now, targets, |targets|);
    assert targets[..|targets|] == targets;
    RunConcat(ttlMs, s, start, Again(p, |targets|));
  }

  /** Undisturbed, the transactions of a login and of a password change revoke every live token of the
      customer, and the login's adds a new one. */
  lemma RevokeAllIsARun(ttlMs: nat, s: State, req: Request) returns (actions: seq<Action>)
    requires Quiet(s) && RevokesAll(req)
    ensures var t := Run(ttlMs, s, actions);
      && t.tokens == RevokeAll(s.tokens, req.customer, s.now) +
                     (if req.Login? then [Token(req.customer, s.now + ttlMs, None, None)] else [])
      && |t.sessions| == |s.sessions| + 1 && t.sessions[|s.sessions|].req == req
      && t.sessions[|s.sessions|].stage == Done(if req.Login? then Issued(|s.tokens|) else PasswordChanged)
  {
    var p := |s.sessions|;
    var targets := LiveOf(s.tokens, req.customer);
    var front := [Arrive(req), Advance(p), Advance(p)] + Again(p, |targets|);
    RevokeAllRuns(ttlMs, s, req);
    var s1 := Run(ttlMs, s, front);
    var created := if req.Login? then Some(Token(req.customer, s.now + ttlMs, None, None)) else None;
    CommitRevokesAll(s.tokens, req.customer, s.now, created);
    if req.Login? {
      actions := front + [Advance(p), Advance(p), Advance(p)];
      RunThree(ttlMs, s1, p);
    } else {
      actions := front + [Advance(p), Advance(p)];
      RunTwo(ttlMs, s1, p);
    }
    RunConcat(ttlMs, s, front, actions[|front|..]);
    assert actions == front + actions[|front|..];
  }

  lemma RunTwo(ttlMs: nat, s: State, p: nat)
    ensures Run(ttlMs, s, [Advance(p), Advance(p)]) == Next(ttlMs, Next(ttlMs, s, Advance(p)), Advance(p))
  {
    var actions := [Advance(p), Advance(p)];
    RunTo(ttlMs, s, actions, 1);
    RunTo(ttlMs, s, actions, 2);
    assert actions[..2] == actions && actions[..0] == [];
  }

  lemma RunThree(ttlMs: nat, s: State, p: nat)
    ensures Run(ttlMs, s, [Advance(p), Advance(p), Advance(p)])
         == Next(ttlMs, Next(ttlMs, Next(ttlMs, s, Advance(p)), Advance(p)), Advance(p))
  {
    var actions := [Advance(p), Advance(p), Advance(p)];
    RunTo(ttlMs, s, actions, 3);
    RunTwo(ttlMs, s, p);
    assert actions[..3] == actions && actions[..2] == [Advance(p), Advance(p)];
  }

  function Refreshing(s: State, i: nat, stage: Stage, ttlMs: nat, created: bool): State
    requires i < |s.tokens|
  {
    var token := Token(s.tokens[i].customer, s.now + ttlMs, None, None);
    s.(sessions := s.sessions + [Session(Refresh(i), stage, token.customer, token.expiresAt,
                                         if created then Work(map[], Some(token), None) else NO_WORK, 0)])
  }

  lemma RefreshCreates(ttlMs: nat, s: State, i: nat) returns (actions: seq<Action>)
    requires i < |s.tokens|
    ensures Run(ttlMs, s, actions) == Refreshing(s, i, Preparing, ttlMs, true)
  {
    var p := |s.sessions|;
    actions := [Arrive(Refresh(i)), Advance(p), Advance(p)];
    RunTo(ttlMs, s, actions, 1);
    RunTo(ttlMs, s, actions, 2);
    RunTo(ttlMs, s, actions, 3);
    assert actions[..3] == actions && actions[..0] == [];
    var s2 := Refreshing(s, i, Creating, ttlMs, false);
    assert Run(ttlMs, s, actions[..2]) == s2;
    assert Next(ttlMs, s2, Advance(p)) == Refreshing(s, i, Preparing, ttlMs, true);
  }

  lemma RefreshPreparesGuard(ttlMs: nat, s: State, i: nat, wait: nat) returns (actions: seq<Action>)
    requires i < |s.tokens|
    ensures Run(ttlMs, Refreshing(s, i, Preparing, ttlMs, true), actions)
         == Refreshing(s, i, Rotating(s.now + wait), ttlMs, true).(now := s.now + wait)
  {
    actions := [Tick(wait), Advance(|s.sessions|)];
    var s0 := Refreshing(s, i, Preparing, ttlMs, true);
    RunTo(ttlMs, s0, actions, 1);
    RunTo(ttlMs, s0, actions, 2);
    assert actions[..2] == actions && actions[..0] == [];
  }

  lemma RotationCommits(tokens: seq<Token>, i: nat, at: Millis, expiresAt: Millis)
    requires i < |tokens|
    ensures CommitTokens(tokens, Work(map[i := at], Some(Token(tokens[i].customer, expiresAt, None, None)), Some(i)))
         == Rotate(tokens, i, at, expiresAt)
  {
  }

  /** How a refresh of token i ends: rotated and committed, or refused and rolled back. */
  ghost predicate RefreshEnded(s: State, i: nat, at: Millis, ttlMs: nat, t: State)
    requires i < |s.tokens|
  {
    var rotates := Rotatable(s.tokens, i, at);
    && t.tokens == (if rotates then Rotate(s.tokens, i, at, s.now + ttlMs) else s.tokens)
    && |t.sessions| == |s.sessions| + 1
    && t.sessions[|s.sessions|].stage == Done(if rotates then Rotated(i, |s.tokens|) else Unauthorized)
  }

  /** From the guarded update on. */
  lemma RefreshEnds(ttlMs: nat, s: State, i: nat, at: Millis) returns (actions: seq<Action>, t: State)
    requires i < |s.tokens| && Quiet(s)
    ensures t == Run(ttlMs, Refreshing(s, i, Rotating(at), ttlMs, true).(now := at), actions)
    ensures RefreshEnded(s, i, at, ttlMs, t)
  {
    var p := |s.sessions|;
    var start := Refreshing(s, i, Rotating(at), ttlMs, true).(now := at);
    assert !Locked(start, p, i);
    if Rotatable(s.tokens, i, at) {
      actions := [Advance(p), Advance(p)];
      RunTwo(ttlMs, start, p);
      RotationCommits(s.tokens, i, at, s.now + ttlMs);
    } else {
      actions := [Advance(p)];
      RunOne(ttlMs, start, Advance(p));
    }
    t := Run(ttlMs, start, actions);
  }

  lemma UnknownCookieIsARun(ttlMs: nat, s: State, i: nat)
    requires i >= |s.tokens|
    ensures Run(ttlMs, s, [Arrive(Refresh(i)), Advance(|s.sessions|)])
         == s.(sessions := s.sessions + [Session(Refresh(i), Done(Unauthorized), 0, 0, NO_WORK, 0)])
  {
    var actions := [Arrive(Refresh(i)), Advance(|s.sessions|)];
    RunTo(ttlMs, s, actions, 1);
    RunTo(ttlMs, s, actions, 2);
    assert actions[..2] == actions && actions[..0] == [];
  }

  lemma RefreshReachesGuard(ttlMs: nat, s: State, i: nat, wait: nat) returns (actions: seq<Action>)
    requires i < |s.tokens|
    ensures Run(ttlMs, s, actions) == Refreshing(s, i, Rotating(s.now + wait), ttlMs, true).(now := s.now + wait)
  {
    var create := RefreshCreates(ttlMs, s, i);
    var prepare := RefreshPreparesGuard(ttlMs, s, i, wait);
    actions := create + prepare;
    RunConcat(ttlMs, s, create, prepare);
  }

  lemma RunJoined(ttlMs: nat, s: State, a: seq<Action>, m: State, b: seq<Action>, t: State)
    requires Run(ttlMs, s, a) == m && Run(ttlMs, m, b) == t
    ensures Run(ttlMs, s, a + b) == t
  {
    RunConcat(ttlMs, s, a, b);
  }

  lemma KnownCookieIsARun(ttlMs: nat, s: State, i: nat, wait: nat) returns (actions: seq<Action>, t: State)
    requires i < |s.tokens| && Quiet(s)
    ensures Run(ttlMs, s, actions) == t
    ensures RefreshEnded(s, i, s.now + wait, ttlMs, t)
  {
    var front := RefreshReachesGuard(ttlMs, s, i, wait);
    var end;
    end, t := RefreshEnds(ttlMs, s, i, s.now + wait);
    actions := front + end;
    RunJoined(ttlMs, s, front, Refreshing(s, i, Rotating(s.now + wait), ttlMs, true).(now := s.now + wait), end, t);
  }

  /** Undisturbed, a refresh does what its specification says, with the guard's clock read later. */
  lemma RefreshIsARun(cfg: Config, s: State, customers: map<CustomerId, Customer>, i: nat, wait: nat)
    returns (actions: seq<Action>)
    requires Quiet(s)
    ensures var t := Run(cfg.refreshTtlMs, s, actions);
      var (result, after) := RefreshToken(cfg, AuthState(customers, s.tokens), Some(i), s.now, s.now + wait, Smooth);
      && t.tokens == after.tokens
      && |t.sessions| == |s.sessions| + 1
      && t.sessions[|s.sessions|].stage == Done(if result.Ok? then Rotated(i, result.value) else Unauthorized)
  {
    if i >= |s.tokens| {
      actions := [Arrive(Refresh(i)), Advance(|s.sessions|)];
      UnknownCookieIsARun(cfg.refreshTtlMs, s, i);
    } else {
      var t: State;
      actions, t := KnownCookieIsARun(cfg.refreshTtlMs, s, i, wait);
    }
  }

  /** Undisturbed, a logout does what its specification says. */
  lemma LogoutIsARun(ttlMs: nat, s: State, customers: map<CustomerId, Customer>, i: nat)
    requires Quiet(s)
    ensures var p := |s.sessions|;
      var t := Run(ttlMs, s, [Arrive(Logout(i)), Advance(p), Advance(p)]);
      && t.tokens == LogOut(AuthState(customers, s.tokens), Some(i), s.now, Smooth).1.tokens
      && |t.sessions| == p + 1 && t.sessions[p].stage == Done(LoggedOut)
  {
    var p := |s.sessions|;
    var actions := [Arrive(Logout(i)), Advance(p), Advance(p)];
    RunTo(ttlMs, s, actions, 1);
    RunTo(ttlMs, s, actions, 2);
    RunTo(ttlMs, s, actions, 3);
    assert actions[..3] == actions && actions[..0] == [];
    var s2 := Run(ttlMs, s, actions[..2]);
    assert !Locked(s2, p, i);
  }
}
