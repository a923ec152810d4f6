/**
 The refresh_tokens table and any number of logins, refreshes, password changes and logouts, each
 advancing one statement at a time. A revoke-all takes its snapshot when it starts and then locks and
 rechecks one row after the other; writes stay private, and their rows locked, until commit.
 */
module TokenMachine {
  import opened Prelude

  type Millis = nat
  type CustomerId = nat

  /** Tokens are known by their place in commit order. */
  datatype Token = Token(customer: CustomerId, expiresAt: Millis, revokedAt: Option<Millis>, replacedBy: Option<nat>)

  datatype Request =
    | Login(customer: CustomerId)            // from the end of the password check on
    | Refresh(token: nat)                    // an unknown cookie is a token that does not exist
    | ChangePassword(customer: CustomerId)
    | Logout(token: nat)

  datatype Outcome =
    | Issued(token: nat)
    | Rotated(presented: nat, token: nat)
    | PasswordChanged
    | LoggedOut
    | Unauthorized
    | Technical

  datatype Stage =
    | Looking                                                   // findUnique, clock reads
    | Snapshot                                                  // updateMany starts
    | Revoking(at: Millis, targets: seq<nat>, done: nat)        // updateMany goes through its rows
    | Creating
    | Preparing                                                 // new Date() of the guarded update
    | Rotating(at: Millis)
    | Committing
    | Updating                                                  // the single update of a logout
    | Done(outcome: Outcome)

  /** Uncommitted writes: revocations with their time, the new token, and the token being replaced. */
  datatype Work = Work(revokes: map<nat, Millis>, created: Option<Token>, retires: Option<nat>)

  const NO_WORK := Work(map[], None, None)

  /** `seen` is how many tokens the snapshot of a revoke-all had. */
  datatype Session = Session(req: Request, stage: Stage, customer: CustomerId, expiresAt: Millis, work: Work, seen: nat)

  datatype State = State(now: Millis, tokens: seq<Token>, sessions: seq<Session>)

  datatype Action =
    | Arrive(req: Request)
    | Tick(ms: nat)
    | Advance(session: nat)
    | Fault(session: nat)          // the next call throws; an open transaction rolls back

  predicate InTransaction(stage: Stage) {
    stage.Snapshot? || stage.Revoking? || stage.Creating? || stage.Preparing? || stage.Rotating? || stage.Committing?
  }

  predicate Live(token: Token) {
    token.revokedAt.None?
  }

  predicate Locked(s: State, p: nat, i: nat) {
    exists q :: 0 <= q < |s.sessions| && q != p && i in s.sessions[q].work.revokes
  }

  /** The tokens a revoke-all of this customer finds. */
  function LiveOf(tokens: seq<Token>, customer: CustomerId): seq<nat> {
    if |tokens| == 0 then []
    else
      var last := |tokens| - 1;
      LiveOf(tokens[..last], customer) +
      (if Live(tokens[last]) && tokens[last].customer == customer then [last] else [])
  }

  /** The guard of the rotating update. */
  predicate Rotatable(tokens: seq<Token>, i: nat, at: Millis) {
    i < |tokens| && Live(tokens[i]) && tokens[i].replacedBy.None? && at < tokens[i].expiresAt
  }

  function CommitToken(tokens: seq<Token>, work: Work, i: nat): Token
    requires i < |tokens|
  {
    if i !in work.revokes then tokens[i]
    else tokens[i].(revokedAt := Some(work.revokes[i]),
                    replacedBy := if work.retires == Some(i) then Some(|tokens|) else tokens[i].replacedBy)
  }

  function CommitTokens(tokens: seq<Token>, work: Work): seq<Token> {
    seq(|tokens|, i requires 0 <= i < |tokens| => CommitToken(tokens, work, i)) +
    (if work.created.Some? then [work.created.value] else [])
  }

  function End(sess: Session, outcome: Outcome): Session {
    sess.(stage := Done(outcome), work := NO_WORK)
  }

  function Look(ttlMs: nat, s: State, sess: Session): Session {
    match sess.req
    case Login(c) => sess.(stage := Snapshot, customer := c, expiresAt := s.now + ttlMs)
    case ChangePassword(c) => sess.(stage := Snapshot, customer := c)
    case Refresh(t) =>
      if t < |s.tokens| then sess.(stage := Creating, customer := s.tokens[t].customer, expiresAt := s.now + ttlMs)
      else End(sess, Unauthorized)
    case Logout(t) =>
      if t < |s.tokens| && Live(s.tokens[t]) then sess.(stage := Updating) else End(sess, LoggedOut)
  }

  function CommitOutcome(s: State, sess: Session): Outcome {
    match sess.req
    case Login(_) => Issued(|s.tokens|)
    case Refresh(t) => Rotated(t, |s.tokens|)
    case _ => PasswordChanged
  }

  /** The session after its next statement, the commit and the logout's update aside; a blocked one waits. */
  function StepSession(ttlMs: nat, s: State, p: nat): Session
    requires p < |s.sessions|
  {
    var sess := s.sessions[p];
    match sess.stage
    case Looking => Look(ttlMs, s, sess)
    case Snapshot => sess.(stage := Revoking(s.now, LiveOf(s.tokens, sess.customer), 0), seen := |s.tokens|)
    case Revoking(at, targets, k) =>
      if k >= |targets| then sess.(stage := if sess.req.Login? then Creating else Committing)
      else if Locked(s, p, targets[k]) then sess
      else if targets[k] < |s.tokens| && Live(s.tokens[targets[k]])
      then sess.(stage := Revoking(at, targets, k + 1),
                 work := sess.work.(revokes := sess.work.revokes[targets[k] := at]))
      else sess.(stage := Revoking(at, targets, k + 1))
    case Creating =>
      sess.(stage := if sess.req.Refresh? then Preparing else Committing,
            work := sess.work.(created := Some(Token(sess.customer, sess.expiresAt, None, None))))
    case Preparing => sess.(stage := Rotating(s.now))
    case Rotating(at) =>
      if !sess.req.Refresh? || Locked(s, p, sess.req.token) then sess
      else if Rotatable(s.tokens, sess.req.token, at)
      then sess.(stage := Committing,
                 work := sess.work.(revokes := sess.work.revokes[sess.req.token := at],
                                    retires := Some(sess.req.token)))
      else End(sess, Unauthorized)
    case _ => sess
  }

  function Put(s: State, p: nat, sess: Session): State
    requires p < |s.sessions|
  {
    s.(sessions := s.sessions[p := sess])
  }

  function StepCommit(s: State, p: nat): State
    requires p < |s.sessions|
  {
    var sess := s.sessions[p];
    Put(s, p, End(sess, CommitOutcome(s, sess))).(tokens := CommitTokens(s.tokens, sess.work))
  }

  function RevokeOne(tokens: seq<Token>, i: nat, at: Millis): seq<Token>
    requires i < |tokens|
  {
    tokens[i := tokens[i].(revokedAt := Some(at))]
  }

  function StepUpdate(s: State, p: nat): State
    requires p < |s.sessions|
  {
    var sess := s.sessions[p];
    if !sess.req.Logout? || sess.req.token >= |s.tokens| || Locked(s, p, sess.req.token) then s
    else Put(s, p, End(sess, LoggedOut)).(tokens := RevokeOne(s.tokens, sess.req.token, s.now))
  }

  function Next(ttlMs: nat, s: State, a: Action): State {
    match a
    case Arrive(req) => s.(sessions := s.sessions + [Session(req, Looking, 0, 0, NO_WORK, 0)])
    case Tick(ms) => s.(now := s.now + ms)
    case Advance(p) =>
      if p >= |s.sessions| then s
      else if s.sessions[p].stage == Committing then StepCommit(s, p)
      else if s.sessions[p].stage == Updating then StepUpdate(s, p)
      else Put(s, p, StepSession(ttlMs, s, p))
    case Fault(p) =>
      if p < |s.sessions| && !s.sessions[p].stage.Done? then Put(s, p, End(s.sessions[p], Technical)) else s
  }

  function Run(ttlMs: nat, s: State, actions: seq<Action>): State {
    if |actions| == 0 then s else Next(ttlMs, Run(ttlMs, s, actions[..|actions| - 1]), actions[|actions| - 1])
  }

  lemma {:induction false} RunConcat(ttlMs: nat, s: State, a: seq<Action>, b: seq<Action>)
    ensures Run(ttlMs, s, a + b) == Run(ttlMs, Run(ttlMs, s, a), b)
  {
    if |b| == 0 {
      assert a + b == a;
    } else {
      RunConcat(ttlMs, s, a, b[..|b| - 1]);
      assert (a + b)[..|a + b| - 1] == a + b[..|b| - 1];
    }
  }

  lemma RunOne(ttlMs: nat, s: State, a: Action)
    ensures Run(ttlMs, s, [a]) == Next(ttlMs, s, a)
  {
    assert [a][..0] == [];
    assert Run(ttlMs, s, []) == s;
  }

  lemma RunTo(ttlMs: nat, s: State, actions: seq<Action>, k: nat)
    requires 0 < k <= |actions|
    ensures Run(ttlMs, s, actions[..k]) == Next(ttlMs, Run(ttlMs, s, actions[..k - 1]), actions[k - 1])
  {
    assert actions[..k][..k - 1] == actions[..k - 1];
  }

  const EMPTY := State(0, [], [])
}
