/** Rotation, revocation and chains of refresh tokens under every interleaving, and one live token
    per customer when transactions are serial. */
module TokenTheorems {
  import opened Prelude
  import opened TokenMachine

  // ---------- the invariant ----------

  /** A replaced token is revoked, and its replacement is a later token of the same customer. */
  ghost predicate Forward(tokens: seq<Token>) {
    forall i: nat :: i < |tokens| && tokens[i].replacedBy.Some? ==>
      && i < tokens[i].replacedBy.value < |tokens|
      && tokens[i].revokedAt.Some?
      && tokens[tokens[i].replacedBy.value].customer == tokens[i].customer
  }

  /** No token replaces two. */
  ghost predicate Injective(tokens: seq<Token>) {
    forall i: nat, j: nat :: i < j < |tokens| && tokens[i].replacedBy.Some? ==>
      tokens[i].replacedBy != tokens[j].replacedBy
  }

  ghost predicate Chained(tokens: seq<Token>) {
    Forward(tokens) && Injective(tokens)
  }

  ghost predicate WorkInv(tokens: seq<Token>, sess: Session) {
    && (forall i :: i in sess.work.revokes ==> (i < |tokens| && Live(tokens[i])))
    && (sess.work.created.Some? ==>
          sess.work.created.value == Token(sess.customer, sess.expiresAt, None, None))
    && (sess.work.retires.Some? ==>
          && sess.req == Refresh(sess.work.retires.value)
          && sess.work.retires.value in sess.work.revokes
          && sess.work.created.Some?)
  }

  /** Every token the snapshot had for this customer is revoked, about to be, or still to come. */
  ghost predicate Covered(tokens: seq<Token>, sess: Session, rest: seq<nat>) {
    && sess.seen <= |tokens|
    && (forall i: nat :: i < sess.seen && tokens[i].customer == sess.customer ==>
          tokens[i].revokedAt.Some? || i in sess.work.revokes || i in rest)
  }

  predicate RevokesAll(req: Request) {
    req.Login? || req.ChangePassword?
  }

  ghost predicate StageInv(tokens: seq<Token>, sess: Session) {
    match sess.stage
    case Looking => sess.work == NO_WORK
    case Snapshot => sess.work == NO_WORK && RevokesAll(sess.req) && sess.customer == sess.req.customer
    case Revoking(_, targets, k) =>
      && RevokesAll(sess.req) && sess.customer == sess.req.customer
      && sess.work.created.None? && k <= |targets| && Covered(tokens, sess, targets[k..])
    case Creating =>
      if sess.req.Login? then sess.work.created.None? && sess.customer == sess.req.customer && Covered(tokens, sess, [])
      else sess.req.Refresh? && sess.work == NO_WORK && OwnToken(tokens, sess)
    case Preparing => sess.req.Refresh? && OwnToken(tokens, sess) && Prepared(sess)
    case Rotating(_) => sess.req.Refresh? && OwnToken(tokens, sess) && Prepared(sess)
    case Committing =>
      if sess.req.Refresh? then OwnToken(tokens, sess) && sess.work.retires.Some?
      else RevokesAll(sess.req) && sess.customer == sess.req.customer && Covered(tokens, sess, []) &&
           (sess.req.Login? <==> sess.work.created.Some?)
    case Updating => sess.req.Logout? && sess.work == NO_WORK
    case Done(outcome) => sess.work == NO_WORK && OutcomeInv(tokens, sess, outcome)
  }

  ghost predicate OwnToken(tokens: seq<Token>, sess: Session)
    requires sess.req.Refresh?
  {
    sess.req.token < |tokens| && tokens[sess.req.token].customer == sess.customer
  }

  ghost predicate Prepared(sess: Session) {
    sess.work.created.Some? && sess.work.revokes == map[] && sess.work.retires.None?
  }

  ghost predicate OutcomeInv(tokens: seq<Token>, sess: Session, outcome: Outcome) {
    match outcome
    case Issued(j) => sess.req.Login? && sess.customer == sess.req.customer && Covered(tokens, sess, []) &&
                      sess.seen <= j < |tokens| && tokens[j].customer == sess.customer
    case Rotated(i, j) => sess.req == Refresh(i) && i < j < |tokens| && tokens[i].replacedBy == Some(j)
    case PasswordChanged => sess.req.ChangePassword? && sess.customer == sess.req.customer && Covered(tokens, sess, [])
    case _ => true
  }

  ghost predicate Exclusive(sessions: seq<Session>) {
    forall p: nat, q: nat, i: nat :: p < q < |sessions| && i in sessions[p].work.revokes ==>
      i !in sessions[q].work.revokes
  }

  predicate Issues(stage: Stage, j: nat) {
    stage == Done(Issued(j)) || (stage.Done? && stage.outcome.Rotated? && stage.outcome.token == j)
  }

  /** No two sessions hand out the same token. */
  ghost predicate HandedOnce(sessions: seq<Session>) {
    forall p: nat, q: nat, j: nat :: p < q < |sessions| && Issues(sessions[p].stage, j) ==>
      !Issues(sessions[q].stage, j)
  }

  ghost predicate SessionInv(tokens: seq<Token>, sess: Session) {
    WorkInv(tokens, sess) && StageInv(tokens, sess)
  }

  ghost predicate Inv(s: State) {
    && Chained(s.tokens)
    && (forall p :: 0 <= p < |s.sessions| ==> SessionInv(s.tokens, s.sessions[p]))
    && Exclusive(s.sessions)
    && HandedOnce(s.sessions)
  }

  // ---------- what a later table keeps of an earlier one ----------

  /** Owners and expiry never change, a revoked token stays revoked, a replaced one keeps its replacement. */
  ghost predicate Kept(before: seq<Token>, after: seq<Token>) {
    && |before| <= |after|
    && (forall i: nat :: i < |before| ==>
          && after[i].customer == before[i].customer && after[i].expiresAt == before[i].expiresAt
          && (before[i].revokedAt.Some? ==> after[i].revokedAt.Some?)
          && (before[i].replacedBy.Some? ==> after[i].replacedBy == before[i].replacedBy))
  }

  /** A session not touched keeps its invariant when the table moves on and leaves its locked rows live. */
  lemma OthersKeepInv(before: seq<Token>, after: seq<Token>, sess: Session)
    requires SessionInv(before, sess) && Kept(before, after)
    requires forall i :: i in sess.work.revokes && i < |before| ==> Live(after[i])
    ensures SessionInv(after, sess)
  {
  }

  lemma LiveOfFinds(tokens: seq<Token>, customer: CustomerId, i: nat)
    ensures i in LiveOf(tokens, customer) <==> i < |tokens| && Live(tokens[i]) && tokens[i].customer == customer
  {
    if |tokens| > 0 {
      LiveOfFinds(tokens[..|tokens| - 1], customer, i);
    }
  }

  lemma SnapshotCovers(tokens: seq<Token>, sess: Session)
    requires sess.seen == |tokens|
    ensures Covered(tokens, sess, LiveOf(tokens, sess.customer))
  {
    forall i: nat | i < sess.seen && tokens[i].customer == sess.customer
      ensures tokens[i].revokedAt.Some? || i in LiveOf(tokens, sess.customer)
    {
      LiveOfFinds(tokens, sess.customer, i);
    }
  }

  // ---------- every step keeps it ----------

  lemma StepSessionInv(ttlMs: nat, s: State, p: nat)
    requires Inv(s) && p < |s.sessions|
    ensures SessionInv(s.tokens, StepSession(ttlMs, s, p))
    ensures forall i :: i in StepSession(ttlMs, s, p).work.revokes ==>
              i in s.sessions[p].work.revokes || !Locked(s, p, i)
    ensures forall j :: !Issues(s.sessions[p].stage, j) ==> !Issues(StepSession(ttlMs, s, p).stage, j)
  {
    var sess := s.sessions[p];
    var next := StepSession(ttlMs, s, p);
    assert SessionInv(s.tokens, sess);
    match sess.stage
    case Snapshot =>
      SnapshotCovers(s.tokens, next);
      assert next.stage.targets[0..] == next.stage.targets;
    case Revoking(at, targets, k) =>
      if k < |targets| {
        assert targets[k..] == [targets[k]] + targets[k + 1..];
      } else {
        assert targets[k..] == [];
      }
    case _ =>
  }

  lemma PutInv(s: State, p: nat, sess: Session)
    requires Inv(s) && p < |s.sessions|
    requires SessionInv(s.tokens, sess)
    requires forall i :: i in sess.work.revokes ==> i in s.sessions[p].work.revokes || !Locked(s, p, i)
    requires forall j :: !Issues(s.sessions[p].stage, j) ==> !Issues(sess.stage, j)
    ensures Inv(Put(s, p, sess))
  {
  }

  lemma CommitKeeps(tokens: seq<Token>, sess: Session)
    requires Chained(tokens) && SessionInv(tokens, sess)
    ensures Kept(tokens, CommitTokens(tokens, sess.work))
  {
  }

  lemma ReplacedByCommit(tokens: seq<Token>, work: Work, i: nat)
    requires i < |tokens| && (work.retires.Some? ==> work.retires.value in work.revokes)
    ensures var after := CommitTokens(tokens, work);
      && i < |after|
      && after[i].replacedBy == (if work.retires == Some(i) then Some(|tokens|) else tokens[i].replacedBy)
      && (after[i].revokedAt.Some? <==> i in work.revokes || tokens[i].revokedAt.Some?)
  {
  }

  lemma CommitForward(tokens: seq<Token>, sess: Session)
    requires Forward(tokens) && SessionInv(tokens, sess) && sess.stage == Committing
    ensures Forward(CommitTokens(tokens, sess.work))
  {
    var after := CommitTokens(tokens, sess.work);
    forall i: nat | i < |after| && after[i].replacedBy.Some?
      ensures i < after[i].replacedBy.value < |after| && after[i].revokedAt.Some?
      ensures after[after[i].replacedBy.value].customer == after[i].customer
    {
      if i < |tokens| {
        ReplacedByCommit(tokens, sess.work, i);
      }
    }
  }

  lemma CommitChains(tokens: seq<Token>, sess: Session)
    requires Chained(tokens) && SessionInv(tokens, sess) && sess.stage == Committing
    ensures Chained(CommitTokens(tokens, sess.work))
  {
    var after := CommitTokens(tokens, sess.work);
    CommitForward(tokens, sess);
    forall i: nat, j: nat | i < j < |after| && after[i].replacedBy.Some?
      ensures after[i].replacedBy != after[j].replacedBy
    {
      ReplacedByCommit(tokens, sess.work, i);
      if j < |tokens| {
        ReplacedByCommit(tokens, sess.work, j);
      }
    }
  }

  lemma CommitInv(s: State, p: nat)
    requires Inv(s) && p < |s.sessions| && s.sessions[p].stage == Committing
    ensures Inv(StepCommit(s, p))
  {
    var sess := s.sessions[p];
    var t := StepCommit(s, p);
    assert SessionInv(s.tokens, sess);
    CommitKeeps(s.tokens, sess);
    CommitChains(s.tokens, sess);
    forall q | 0 <= q < |t.sessions| ensures SessionInv(t.tokens, t.sessions[q]) {
      if q != p {
        assert SessionInv(s.tokens, s.sessions[q]);
        OthersKeepInv(s.tokens, t.tokens, s.sessions[q]);
      }
    }
    CommitHandsOutANewToken(s, p);
  }

  lemma CommitHandsOutANewToken(s: State, p: nat)
    requires Inv(s) && p < |s.sessions| && s.sessions[p].stage == Committing
    ensures HandedOnce(StepCommit(s, p).sessions)
  {
    forall q: nat, j: nat | q < |s.sessions| && q != p && Issues(s.sessions[q].stage, j) ensures j < |s.tokens| {
      assert SessionInv(s.tokens, s.sessions[q]);
    }
  }

  lemma UpdateInv(s: State, p: nat)
    requires Inv(s) && p < |s.sessions| && s.sessions[p].stage == Updating
    ensures Inv(StepUpdate(s, p))
  {
    var t := StepUpdate(s, p);
    if t != s {
      forall q | 0 <= q < |t.sessions| ensures SessionInv(t.tokens, t.sessions[q]) {
        assert SessionInv(s.tokens, s.sessions[q]);
        if q != p {
          OthersKeepInv(s.tokens, t.tokens, s.sessions[q]);
        }
      }
    }
  }

  lemma NextInv(ttlMs: nat, s: State, a: Action)
    requires Inv(s)
    ensures Inv(Next(ttlMs, s, a))
  {
    match a
    case Advance(p) =>
      if p < |s.sessions| {
        if s.sessions[p].stage == Committing {
          CommitInv(s, p);
        } else if s.sessions[p].stage == Updating {
          UpdateInv(s, p);
        } else {
          StepSessionInv(ttlMs, s, p);
          PutInv(s, p, StepSession(ttlMs, s, p));
        }
      }
    case Fault(p) =>
      if p < |s.sessions| && !s.sessions[p].stage.Done? {
        PutInv(s, p, End(s.sessions[p], Technical));
      }
    case _ =>
  }

  lemma NextKeeps(ttlMs: nat, s: State, a: Action)
    requires Inv(s)
    ensures Kept(s.tokens, Next(ttlMs, s, a).tokens)
  {
    if a.Advance? && a.session < |s.sessions| && s.sessions[a.session].stage == Committing {
      CommitKeeps(s.tokens, s.sessions[a.session]);
    }
  }

  lemma {:induction false} RunInv(ttlMs: nat, s: State, actions: seq<Action>)
    requires Inv(s)
    ensures Inv(Run(ttlMs, s, actions))
  {
    if |actions| > 0 {
      RunInv(ttlMs, s, actions[..|actions| - 1]);
      NextInv(ttlMs, Run(ttlMs, s, actions[..|actions| - 1]), actions[|actions| - 1]);
    }
  }

  // ---------- rotation and revocation ----------

  /** Revocation is permanent, and a token once replaced is never replaced again. */
  lemma {:induction false} TokensAreKept(ttlMs: nat, s: State, actions: seq<Action>)
    requires Inv(s)
    ensures Kept(s.tokens, Run(ttlMs, s, actions).tokens)
  {
    if |actions| > 0 {
      TokensAreKept(ttlMs, s, actions[..|actions| - 1]);
      RunInv(ttlMs, s, actions[..|actions| - 1]);
      NextKeeps(ttlMs, Run(ttlMs, s, actions[..|actions| - 1]), actions[|actions| - 1]);
    }
  }

  /** However many refreshes present one token, at most one of them gets a new token for it. */
  lemma RotatedAtMostOnce(ttlMs: nat, actions: seq<Action>, p: nat, q: nat, i: nat, j: nat, k: nat)
    requires var s := Run(ttlMs, EMPTY, actions);
      && p < |s.sessions| && q < |s.sessions|
      && s.sessions[p].stage == Done(Rotated(i, j)) && s.sessions[q].stage == Done(Rotated(i, k))
    ensures p == q && j == k
  {
    RunInv(ttlMs, EMPTY, actions);
    var s := Run(ttlMs, EMPTY, actions);
    assert SessionInv(s.tokens, s.sessions[p]) && SessionInv(s.tokens, s.sessions[q]);
    assert Issues(s.sessions[p].stage, j) && Issues(s.sessions[q].stage, k);
  }

  /** In every reachable table a replaced token is revoked and points to a later token of its customer,
      and no two tokens share a replacement. */
  lemma ReachableTablesAreChained(ttlMs: nat, actions: seq<Action>)
    ensures Chained(Run(ttlMs, EMPTY, actions).tokens)
  {
    RunInv(ttlMs, EMPTY, actions);
  }

  /** A login or password change that committed has revoked every token its customer had when its
      revoke-all began, whatever ran beside it. */
  lemma RevokeAllCovers(ttlMs: nat, actions: seq<Action>, p: nat, i: nat)
    requires var s := Run(ttlMs, EMPTY, actions);
      && p < |s.sessions| && s.sessions[p].stage.Done? && RevokesAll(s.sessions[p].req)
      && (s.sessions[p].stage.outcome.Issued? || s.sessions[p].stage.outcome.PasswordChanged?)
      && i < s.sessions[p].seen
    ensures var s := Run(ttlMs, EMPTY, actions);
      i < |s.tokens| && (s.tokens[i].customer == s.sessions[p].req.customer ==> s.tokens[i].revokedAt.Some?)
  {
    RunInv(ttlMs, EMPTY, actions);
    var s := Run(ttlMs, EMPTY, actions);
    assert SessionInv(s.tokens, s.sessions[p]);
  }

  // ---------- chains ----------

  /** The token and everything that replaced it, in turn; Forward makes the walk end. */
  ghost function Chain(tokens: seq<Token>, i: nat): (chain: seq<nat>)
    requires Forward(tokens) && i < |tokens|
    ensures |chain| > 0 && chain[0] == i
    ensures forall k :: 0 <= k < |chain| ==> i <= chain[k] < |tokens|
    decreases |tokens| - i
  {
    [i] + (if tokens[i].replacedBy.Some? then Chain(tokens, tokens[i].replacedBy.value) else [])
  }

  /** A chain climbs, so it has no cycle; all its tokens are one customer's, all but the last are
      revoked and replaced, and the last is not replaced. */
  lemma {:induction false} ChainsClimb(tokens: seq<Token>, i: nat)
    requires Forward(tokens) && i < |tokens|
    ensures var chain := Chain(tokens, i);
      && (forall k :: 0 <= k < |chain| - 1 ==>
            chain[k] < chain[k + 1] && tokens[chain[k]].replacedBy == Some(chain[k + 1]) && !Live(tokens[chain[k]]))
      && (forall k :: 0 <= k < |chain| ==> tokens[chain[k]].customer == tokens[i].customer)
      && tokens[chain[|chain| - 1]].replacedBy.None?
    decreases |tokens| - i
  {
    if tokens[i].replacedBy.Some? {
      var next := tokens[i].replacedBy.value;
      var chain, rest := Chain(tokens, i), Chain(tokens, next);
      ChainsClimb(tokens, next);
      assert chain == [i] + rest;
      forall k | 0 <= k < |chain| - 1
        ensures chain[k] < chain[k + 1] && tokens[chain[k]].replacedBy == Some(chain[k + 1]) && !Live(tokens[chain[k]])
      {
        if k > 0 {
          assert chain[k] == rest[k - 1] && chain[k + 1] == rest[k];
        }
      }
      forall k | 0 <= k < |chain| ensures tokens[chain[k]].customer == tokens[i].customer {
        if k > 0 {
          assert chain[k] == rest[k - 1];
        }
      }
    }
  }

  /** Two chains that share a token are one inside the other: whichever starts later starts on the other. */
  lemma {:induction false} ChainsNeverMerge(tokens: seq<Token>, i: nat, j: nat, shared: nat)
    requires Chained(tokens) && i < |tokens| && j < |tokens|
    requires shared in Chain(tokens, i) && shared in Chain(tokens, j)
    ensures j in Chain(tokens, i) || i in Chain(tokens, j)
    decreases shared - i + shared - j
  {
    if shared != i && shared != j {
      var before := Predecessor(tokens, i, shared);
      var other := Predecessor(tokens, j, shared);
      assert before == other;
      ChainsNeverMerge(tokens, i, j, before);
    }
  }

  lemma {:induction false} Predecessor(tokens: seq<Token>, i: nat, k: nat) returns (before: nat)
    requires Forward(tokens) && i < |tokens| && k in Chain(tokens, i) && k != i
    ensures before < |tokens| && before in Chain(tokens, i) && i <= before < k
    ensures tokens[before].replacedBy == Some(k)
    decreases |tokens| - i
  {
    var next := tokens[i].replacedBy.value;
    if next == k {
      before := i;
    } else {
      before := Predecessor(tokens, next, k);
    }
  }

  // ---------- serial transactions ----------

  /** At most one transaction is open. */
  ghost predicate Serial(s: State) {
    forall p: nat, q: nat :: p < q < |s.sessions| && InTransaction(s.sessions[p].stage) ==>
      !InTransaction(s.sessions[q].stage)
  }

  ghost predicate SerialRun(ttlMs: nat, s: State, actions: seq<Action>) {
    Serial(Run(ttlMs, s, actions)) && (|actions| > 0 ==> SerialRun(ttlMs, s, actions[..|actions| - 1]))
  }

  ghost predicate OneLive(tokens: seq<Token>) {
    forall i: nat, j: nat :: i < j < |tokens| && Live(tokens[i]) && Live(tokens[j]) ==>
      tokens[i].customer != tokens[j].customer
  }

  /** A revoke-all under way misses no token. */
  ghost predicate UpToDate(s: State) {
    forall p: nat ::
      (p < |s.sessions| && RevokesAll(s.sessions[p].req) && InTransaction(s.sessions[p].stage) &&
       !s.sessions[p].stage.Snapshot?) ==> s.sessions[p].seen == |s.tokens|
  }

  lemma CommitOneLive(s: State, p: nat)
    requires Inv(s) && OneLive(s.tokens) && UpToDate(s) && p < |s.sessions| && s.sessions[p].stage == Committing
    ensures OneLive(StepCommit(s, p).tokens)
  {
    var sess := s.sessions[p];
    var after := StepCommit(s, p).tokens;
    assert SessionInv(s.tokens, sess);
    forall i: nat | i < |s.tokens| && Live(after[i]) && sess.work.created.Some?
      ensures after[i].customer != sess.customer
    {
    }
  }

  lemma NextOneLive(ttlMs: nat, s: State, a: Action)
    requires Inv(s) && OneLive(s.tokens) && UpToDate(s) && Serial(s)
    ensures OneLive(Next(ttlMs, s, a).tokens) && UpToDate(Next(ttlMs, s, a))
  {
    var t := Next(ttlMs, s, a);
    if a.Advance? && a.session < |s.sessions| && s.sessions[a.session].stage == Committing {
      CommitOneLive(s, a.session);
    }
  }

  /** When at most one transaction is open at any time, no customer ever has two unrevoked tokens. */
  lemma {:induction false} OneLiveTokenPerCustomer(ttlMs: nat, actions: seq<Action>)
    requires SerialRun(ttlMs, EMPTY, actions)
    ensures OneLive(Run(ttlMs, EMPTY, actions).tokens) && UpToDate(Run(ttlMs, EMPTY, actions))
  {
    if |actions| > 0 {
      var before := Run(ttlMs, EMPTY, actions[..|actions| - 1]);
      OneLiveTokenPerCustomer(ttlMs, actions[..|actions| - 1]);
      RunInv(ttlMs, EMPTY, actions[..|actions| - 1]);
      assert SerialRun(ttlMs, EMPTY, actions[..|actions| - 1]);
      assert Serial(before);
      NextOneLive(ttlMs, before, actions[|actions| - 1]);
    }
  }

  // ---------- exactly when a customer gets two live tokens ----------

  /** A login revokes only tokens its snapshot had. */
  ghost predicate SnapshotBounds(sess: Session) {
    sess.req.Login? ==>
      && (forall i :: i in sess.work.revokes ==> i < sess.seen)
      && (sess.stage.Revoking? ==> forall i :: i in sess.stage.targets ==> i < sess.seen)
      && (sess.stage.Looking? || sess.stage.Snapshot? ==> sess.work == NO_WORK)
  }

  ghost predicate Bounded(s: State) {
    forall p :: 0 <= p < |s.sessions| ==> SnapshotBounds(s.sessions[p])
  }

  lemma StepKeepsBounds(ttlMs: nat, s: State, p: nat)
    requires p < |s.sessions| && SnapshotBounds(s.sessions[p])
    ensures SnapshotBounds(StepSession(ttlMs, s, p))
  {
    var sess := s.sessions[p];
    if sess.stage.Snapshot? {
      forall i | i in LiveOf(s.tokens, sess.customer) ensures i < |s.tokens| {
        LiveOfFinds(s.tokens, sess.customer, i);
      }
    } else if sess.stage.Revoking? && sess.stage.done < |sess.stage.targets| {
      assert sess.stage.targets[sess.stage.done] in sess.stage.targets;
    }
  }

  lemma NextKeepsBounds(ttlMs: nat, s: State, a: Action)
    requires Bounded(s)
    ensures Bounded(Next(ttlMs, s, a))
  {
    if a.Advance? && a.session < |s.sessions| {
      StepKeepsBounds(ttlMs, s, a.session);
    }
  }

  lemma {:induction false} RunBounded(ttlMs: nat, actions: seq<Action>)
    ensures Bounded(Run(ttlMs, EMPTY, actions))
  {
    if |actions| > 0 {
      RunBounded(ttlMs, actions[..|actions| - 1]);
      NextKeepsBounds(ttlMs, Run(ttlMs, EMPTY, actions[..|actions| - 1]), actions[|actions| - 1]);
    }
  }

  ghost predicate LiveSince(tokens: seq<Token>, customer: CustomerId, seen: nat) {
    exists i: nat :: seen <= i < |tokens| && Live(tokens[i]) && tokens[i].customer == customer
  }

  /** The step commits a login while its customer has a live token that the login's snapshot did not see. */
  ghost predicate MissesOne(s: State, a: Action) {
    && a.Advance? && a.session < |s.sessions| && s.sessions[a.session].stage == Committing
    && s.sessions[a.session].req.Login?
    && LiveSince(s.tokens, s.sessions[a.session].customer, s.sessions[a.session].seen)
  }

  lemma MissedOneStays(s: State, p: nat)
    requires Inv(s) && Bounded(s) && MissesOne(s, Advance(p))
    ensures !OneLive(StepCommit(s, p).tokens)
  {
    var sess := s.sessions[p];
    var after := StepCommit(s, p).tokens;
    assert SessionInv(s.tokens, sess) && SnapshotBounds(sess);
    var i: nat :| sess.seen <= i < |s.tokens| && Live(s.tokens[i]) && s.tokens[i].customer == sess.customer;
    assert i !in sess.work.revokes;
    assert Live(after[i]) && Live(after[|s.tokens|]) && after[i].customer == after[|s.tokens|].customer;
  }

  lemma CommitKeepsOneLive(s: State, p: nat)
    requires Inv(s) && OneLive(s.tokens) && p < |s.sessions| && s.sessions[p].stage == Committing
    requires !MissesOne(s, Advance(p))
    ensures OneLive(StepCommit(s, p).tokens)
  {
    var sess := s.sessions[p];
    var after := StepCommit(s, p).tokens;
    assert SessionInv(s.tokens, sess);
    forall i: nat | i < |s.tokens| && Live(after[i]) && sess.work.created.Some?
      ensures after[i].customer != sess.customer
    {
    }
  }

  /** A step gives a customer a second live token exactly if it commits such a login. */
  lemma SecondLiveExactly(ttlMs: nat, s: State, a: Action)
    requires Inv(s) && Bounded(s) && OneLive(s.tokens)
    ensures OneLive(Next(ttlMs, s, a).tokens) <==> !MissesOne(s, a)
  {
    if MissesOne(s, a) {
      MissedOneStays(s, a.session);
    } else if a.Advance? && a.session < |s.sessions| && s.sessions[a.session].stage == Committing {
      CommitKeepsOneLive(s, a.session);
    }
  }

  ghost predicate AlwaysOneLive(ttlMs: nat, actions: seq<Action>) {
    OneLive(Run(ttlMs, EMPTY, actions).tokens) && (|actions| > 0 ==> AlwaysOneLive(ttlMs, actions[..|actions| - 1]))
  }

  ghost predicate NeverMisses(ttlMs: nat, actions: seq<Action>) {
    |actions| > 0 ==>
      var front := actions[..|actions| - 1];
      NeverMisses(ttlMs, front) && !MissesOne(Run(ttlMs, EMPTY, front), actions[|actions| - 1])
  }

  /** All along a run every customer has at most one live token exactly if no login commits beside a live
      token its snapshot did not see. */
  lemma {:induction false} OneLiveExactly(ttlMs: nat, actions: seq<Action>)
    ensures AlwaysOneLive(ttlMs, actions) <==> NeverMisses(ttlMs, actions)
  {
    if |actions| > 0 {
      var front := actions[..|actions| - 1];
      OneLiveExactly(ttlMs, front);
      RunInv(ttlMs, EMPTY, front);
      RunBounded(ttlMs, front);
      if AlwaysOneLive(ttlMs, front) {
        OneLiveNow(ttlMs, front);
        SecondLiveExactly(ttlMs, Run(ttlMs, EMPTY, front), actions[|actions| - 1]);
      }
    }
  }

  lemma OneLiveNow(ttlMs: nat, actions: seq<Action>)
    requires AlwaysOneLive(ttlMs, actions)
    ensures OneLive(Run(ttlMs, EMPTY, actions).tokens)
  {
  }

  // ---------- what concurrency breaks ----------

  const FIRST := Token(7, 1000, None, None)
  const LOGGED_IN := Session(Login(7), Done(Issued(0)), 7, 1000, NO_WORK, 0)
  const BEFORE := State(0, [FIRST], [LOGGED_IN])

  const FIRST_LOGIN := [Arrive(Login(7)), Advance(0), Advance(0), Advance(0), Advance(0), Advance(0)]

  lemma FirstLoginRevokesNothing()
    ensures Run(1000, EMPTY, FIRST_LOGIN[..3])
         == State(0, [], [Session(Login(7), Revoking(0, [], 0), 7, 1000, NO_WORK, 0)])
  {
    RunTo(1000, EMPTY, FIRST_LOGIN, 1);
    RunTo(1000, EMPTY, FIRST_LOGIN, 2);
    RunTo(1000, EMPTY, FIRST_LOGIN, 3);
    assert FIRST_LOGIN[..0] == [];
    var s2 := State(0, [], [Session(Login(7), Snapshot, 7, 1000, NO_WORK, 0)]);
    assert Run(1000, EMPTY, FIRST_LOGIN[..2]) == s2;
  }

  lemma FirstLoginCreates()
    ensures Run(1000, EMPTY, FIRST_LOGIN[..5])
         == State(0, [], [Session(Login(7), Committing, 7, 1000, Work(map[], Some(FIRST), None), 0)])
  {
    FirstLoginRevokesNothing();
    RunTo(1000, EMPTY, FIRST_LOGIN, 4);
    RunTo(1000, EMPTY, FIRST_LOGIN, 5);
    var s4 := State(0, [], [Session(Login(7), Creating, 7, 1000, NO_WORK, 0)]);
    assert Run(1000, EMPTY, FIRST_LOGIN[..4]) == s4;
  }

  /** The very first login. */
  lemma FirstLogin()
    ensures Run(1000, EMPTY, FIRST_LOGIN) == BEFORE
  {
    FirstLoginCreates();
    RunTo(1000, EMPTY, FIRST_LOGIN, 6);
    assert FIRST_LOGIN[..6] == FIRST_LOGIN;
    assert CommitTokens([], Work(map[], Some(FIRST), None)) == [FIRST];
  }

  /** A refresh that commits between the snapshot of a login's revoke-all and the login's own commit. */
  const INTERLEAVED := [
    Arrive(Refresh(0)), Advance(1), Advance(1), Advance(1), Advance(1),
    Arrive(Login(7)), Advance(2), Advance(2),
    Advance(1),
    Advance(2), Advance(2), Advance(2), Advance(2)]

  function Waiting(req: Request): Session {
    Session(req, Looking, 0, 0, NO_WORK, 0)
  }

  const REFRESHED := Session(Refresh(0), Committing, 7, 1000, Work(map[0 := 0], Some(FIRST), Some(0)), 0)

  /** The refresh has locked and rotated the token, privately. */
  lemma RefreshPrepares()
    ensures Run(1000, BEFORE, INTERLEAVED[..5]) == State(0, [FIRST], [LOGGED_IN, REFRESHED])
  {
    var s1 := State(0, [FIRST], [LOGGED_IN, Waiting(Refresh(0))]);
    assert INTERLEAVED[..1] == [Arrive(Refresh(0))];
    RunOne(1000, BEFORE, Arrive(Refresh(0)));
    RunTo(1000, BEFORE, INTERLEAVED, 2);
    RunTo(1000, BEFORE, INTERLEAVED, 3);
    RunTo(1000, BEFORE, INTERLEAVED, 4);
    RunTo(1000, BEFORE, INTERLEAVED, 5);
    assert Next(1000, BEFORE, Arrive(Refresh(0))) == s1;
    var s2 := State(0, [FIRST], [LOGGED_IN, Session(Refresh(0), Creating, 7, 1000, NO_WORK, 0)]);
    assert Next(1000, s1, Advance(1)) == s2;
    var s3 := State(0, [FIRST],
                    [LOGGED_IN, Session(Refresh(0), Preparing, 7, 1000, Work(map[], Some(FIRST), None), 0)]);
    assert Next(1000, s2, Advance(1)) == s3;
    var s4 := State(0, [FIRST],
                    [LOGGED_IN, Session(Refresh(0), Rotating(0), 7, 1000, Work(map[], Some(FIRST), None), 0)]);
    assert Next(1000, s3, Advance(1)) == s4;
    assert !Locked(s4, 1, 0) && Rotatable(s4.tokens, 0, 0);
    assert map[][0 := 0] == map[0 := 0];
  }

  const ROTATED := [Token(7, 1000, Some(0), Some(1)), FIRST]
  const REFRESH_DONE := Session(Refresh(0), Done(Rotated(0, 1)), 7, 1000, NO_WORK, 0)

  const SNAPSHOT_TAKEN := Session(Login(7), Revoking(0, [0], 0), 7, 1000, NO_WORK, 1)

  /** The login's snapshot sees only the old token. */
  lemma SnapshotBeforeRotation()
    ensures Run(1000, BEFORE, INTERLEAVED[..8]) == State(0, [FIRST], [LOGGED_IN, REFRESHED, SNAPSHOT_TAKEN])
  {
    RefreshPrepares();
    RunTo(1000, BEFORE, INTERLEAVED, 6);
    RunTo(1000, BEFORE, INTERLEAVED, 7);
    RunTo(1000, BEFORE, INTERLEAVED, 8);
    var s6 := State(0, [FIRST], [LOGGED_IN, REFRESHED, Waiting(Login(7))]);
    assert Run(1000, BEFORE, INTERLEAVED[..6]) == s6;
    var s7 := State(0, [FIRST], [LOGGED_IN, REFRESHED, Session(Login(7), Snapshot, 7, 1000, NO_WORK, 0)]);
    assert Next(1000, s6, Advance(2)) == s7;
    assert [FIRST][..0] == [];
    assert LiveOf([FIRST], 7) == [0];
  }

  /** Then the refresh commits. */
  lemma RotationAfterSnapshot()
    ensures Run(1000, BEFORE, INTERLEAVED[..9]) == State(0, ROTATED, [LOGGED_IN, REFRESH_DONE, SNAPSHOT_TAKEN])
  {
    SnapshotBeforeRotation();
    RunTo(1000, BEFORE, INTERLEAVED, 9);
    assert CommitTokens([FIRST], REFRESHED.work) == ROTATED;
  }

  const LOGIN_READY := Session(Login(7), Committing, 7, 1000, Work(map[], Some(FIRST), None), 1)

  /** The login goes on with the one row of its snapshot, which is revoked by now. */
  lemma LoginGoesOn()
    ensures Run(1000, BEFORE, INTERLEAVED[..12]) == State(0, ROTATED, [LOGGED_IN, REFRESH_DONE, LOGIN_READY])
  {
    RotationAfterSnapshot();
    RunTo(1000, BEFORE, INTERLEAVED, 10);
    RunTo(1000, BEFORE, INTERLEAVED, 11);
    RunTo(1000, BEFORE, INTERLEAVED, 12);
    var s9 := Run(1000, BEFORE, INTERLEAVED[..9]);
    assert !Locked(s9, 2, 0);
    var s11 := State(0, ROTATED, [LOGGED_IN, REFRESH_DONE, Session(Login(7), Creating, 7, 1000, NO_WORK, 1)]);
    assert Run(1000, BEFORE, INTERLEAVED[..11]) == s11;
  }

  /** Without serial transactions one customer can end with two unrevoked tokens. */
  lemma ConcurrentLoginLeavesTwoLive()
    ensures !OneLive(Run(1000, EMPTY, FIRST_LOGIN + INTERLEAVED).tokens)
  {
    FirstLogin();
    RunConcat(1000, EMPTY, FIRST_LOGIN, INTERLEAVED);
    LoginGoesOn();
    RunTo(1000, BEFORE, INTERLEAVED, 13);
    assert INTERLEAVED[..13] == INTERLEAVED;
    var after := ROTATED + [FIRST];
    assert CommitTokens(ROTATED, LOGIN_READY.work) == after;
    assert Live(after[1]) && Live(after[2]) && after[1].customer == after[2].customer;
  }
}
