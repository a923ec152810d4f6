/**
 Any number of requests served at once. Each request advances one statement at a time and the
 statements of different requests interleave freely. A row lock or a claimed unique key is held
 until its transaction commits or rolls back; a statement that needs one held by another request
 waits, which here means that scheduling it changes nothing.
 */
module LedgerMachine {
  import opened Prelude
  import opened LedgerStatements

  const TRANSFER_ATTEMPTS: nat := 3

  /** Where an open transaction stands. A body transaction reads, checks, inserts the pending row,
      moves balances, completes the row, writes the event and commits; a rejection transaction
      inserts the rejected row, writes the event and commits. */
  datatype Stage =
    | Reading(next: nat)
    | Checking
    | Inserting
    | Moving(done: nat)
    | Marking
    | Emitting
    | Committing

  datatype Purpose = Body | Rejection(reason: Option<string>)

  datatype Phase =
    | Looking                                             // findExisting before anything else
    | Screening                                           // fraud rules
    | InTransaction(purpose: Purpose, stage: Stage, work: Work)
    | Releasing(error: Error)                             // catch block, before the reservation release
    | Resolving(error: Error)                             // catch block, P2002 fallback
    | Done(outcome: Outcome)

  /** `attempt` counts the transfer loop; `commits` records how often this request committed. */
  datatype Session = Session(req: Request, attempt: nat, phase: Phase, commits: nat)

  datatype State = State(db: Tables, sessions: seq<Session>, nextId: nat)

  datatype Action =
    | Advance(session: nat)                                      // the next step of this request
    | Screen(session: nat, verdicts: seq<Option<string>>)        // fraud verdicts of the later rules
    | Fault(session: nat, retryable: bool)                       // its next step throws
    | SetStatus(actor: CustomerId, account: AccountId, status: AccountStatus)  // freeze, unfreeze or close

  // ---------- locks ----------

  predicate HoldsKey(s: State, q: nat, key: Key) {
    q < |s.sessions| && s.sessions[q].phase.InTransaction? && s.sessions[q].phase.work.row.Some? &&
    s.sessions[q].phase.work.row.value.key == key
  }

  predicate HoldsAccount(s: State, q: nat, id: AccountId) {
    q < |s.sessions| && s.sessions[q].phase.InTransaction? && id in s.sessions[q].phase.work.writes
  }

  /** The next statement of p needs something q holds. */
  predicate WaitsFor(s: State, p: nat, q: nat) {
    p < |s.sessions| && q != p && s.sessions[p].phase.InTransaction? &&
    var sess := s.sessions[p];
    match sess.phase.stage
    case Inserting => HoldsKey(s, q, sess.req.UniqueKey())
    case Moving(done) => done < |Moves(sess.req)| && HoldsAccount(s, q, Moves(sess.req)[done].account)
    case _ => false
  }

  predicate Blocked(s: State, p: nat) {
    exists q :: 0 <= q < |s.sessions| && WaitsFor(s, p, q)
  }

  // ---------- steps ----------

  /** First rejecting rule wins; the same-account rule comes first for transfers. */
  function FirstReject(verdicts: seq<Option<string>>): Option<string> {
    if |verdicts| == 0 then None
    else if verdicts[0].Some? then verdicts[0]
    else FirstReject(verdicts[1..])
  }

  const SAME_ACCOUNT := "SAME_ACCOUNT_TRANSFER"

  function SameAccountVerdict(req: Request): Option<string> {
    if req.TransferRequest? && req.fromId == req.toId then Some(SAME_ACCOUNT) else None
  }

  function FraudVerdict(req: Request, verdicts: seq<Option<string>>): Option<string> {
    FirstReject([SameAccountVerdict(req)] + verdicts)
  }

  const BodyStart := InTransaction(Body, Reading(0), FreshWork)

  function RejectionStart(reason: Option<string>): Phase {
    InTransaction(Rejection(reason), Inserting, FreshWork)
  }

  /** Where a request goes when its open transaction throws and rolls back. */
  function AfterThrow(sess: Session, purpose: Purpose, err: Error): Session {
    if sess.req.DepositRequest? then sess.(phase := Resolving(err))
    else if sess.req.TransferRequest? && purpose == Body &&
            sess.attempt + 1 < TRANSFER_ATTEMPTS && err == Technical(true)
    then sess.(attempt := sess.attempt + 1, phase := BodyStart)
    else sess.(phase := Releasing(err))
  }

  /** The stage after a statement that succeeded. */
  function NextStage(req: Request, purpose: Purpose, stage: Stage): Stage {
    match stage
    case Reading(i) => if i + 1 < |Reads(req)| then Reading(i + 1) else Checking
    case Checking => Inserting
    case Inserting => if purpose == Body then Moving(0) else Emitting
    case Moving(j) => if j + 1 < |Moves(req)| then Moving(j + 1) else Marking
    case Marking => Emitting
    case Emitting => Committing
    case Committing => Committing
  }

  /** The statement of a stage other than the commit. */
  function Statement(db: Tables, req: Request, purpose: Purpose, stage: Stage, work: Work, freshId: nat)
    : Result<Work, Error>
  {
    match stage
    case Reading(i) => if i < |Reads(req)| then ReadAccount(db, work, Reads(req)[i]) else Ok(work)
    case Checking => CheckAccounts(req, work)
    case Inserting =>
      Insert(db, work, if purpose == Body then PendingRow(req, freshId)
                       else RejectedRow(req, freshId, purpose.reason))
    case Moving(j) => if j < |Moves(req)| then ApplyMove(db, work, Moves(req)[j], req.amount) else Ok(work)
    case Marking => MarkCompleted(work)
    case Emitting => EmitEvent(work)
    case Committing => Ok(work)
  }

  /** What the caller of a committed transaction does next. */
  function AfterCommit(sess: Session, purpose: Purpose, work: Work): Session {
    var counted := sess.(commits := sess.commits + 1);
    if purpose == Body && work.row.Some? then counted.(phase := Done(Success(work.row.value)))
    else counted.(phase := Releasing(FraudRejected(if purpose.Rejection? then purpose.reason else None)))
  }

  function Put(s: State, p: nat, sess: Session): State
    requires p < |s.sessions|
  {
    s.(sessions := s.sessions[p := sess])
  }

  function AdvanceTransaction(s: State, p: nat): State
    requires p < |s.sessions| && s.sessions[p].phase.InTransaction?
  {
    var sess := s.sessions[p];
    var InTransaction(purpose, stage, work) := sess.phase;
    if stage == Committing then
      Put(s, p, AfterCommit(sess, purpose, work)).(db := Commit(s.db, work))
    else
      match Statement(s.db, sess.req, purpose, stage, work, s.nextId)
      case Err(err) => Put(s, p, AfterThrow(sess, purpose, err))
      case Ok(work') =>
        var moved := Put(s, p, sess.(phase := InTransaction(purpose, NextStage(sess.req, purpose, stage), work')));
        if stage == Inserting then moved.(nextId := s.nextId + 1) else moved
  }

  function AdvanceSession(s: State, p: nat): State
    requires p < |s.sessions|
  {
    var sess := s.sessions[p];
    match sess.phase
    case Looking =>
      var settled := ResolveExisting(FindRow(s.db.rows, sess.req.UniqueKey()));
      Put(s, p, sess.(phase := if settled.Some? then Done(settled.value)
                               else if sess.req.DepositRequest? then BodyStart else Screening))
    case Screening => s
    case InTransaction(_, _, _) => if Blocked(s, p) then s else AdvanceTransaction(s, p)
    case Releasing(err) => Put(s, p, sess.(phase := Resolving(err)))
    case Resolving(err) =>
      Put(s, p, sess.(phase := Done(ResolveFallback(err, FindRow(s.db.rows, sess.req.UniqueKey())))))
    case Done(_) => s
  }

  function ScreenSession(s: State, p: nat, verdicts: seq<Option<string>>): State
    requires p < |s.sessions|
  {
    var sess := s.sessions[p];
    if sess.phase != Screening then s
    else
      var verdict := FraudVerdict(sess.req, verdicts);
      Put(s, p, sess.(phase := if verdict.None? then BodyStart else RejectionStart(verdict)))
  }

  /** A technical error instead of the next step. Before the try block and in the fallback it ends the request. */
  function FaultSession(s: State, p: nat, retryable: bool): State
    requires p < |s.sessions|
  {
    var sess := s.sessions[p];
    var err := Technical(retryable);
    match sess.phase
    case Looking => Put(s, p, sess.(phase := Done(Failure(err))))
    case Screening => Put(s, p, sess.(phase := Releasing(err)))
    case InTransaction(purpose, _, _) => Put(s, p, AfterThrow(sess, purpose, err))
    case Releasing(_) => s
    case Resolving(first) => if first == UniqueViolation then Put(s, p, sess.(phase := Done(Failure(err)))) else s
    case Done(_) => s
  }

  /** freezeAccount, unfreezeAccount and closeAccount: one guarded update, waiting for the row lock. */
  function ChangeStatus(s: State, actor: CustomerId, id: AccountId, status: AccountStatus): State {
    if id !in s.db.accounts || s.db.accounts[id].owner != actor ||
       (exists q :: 0 <= q < |s.sessions| && HoldsAccount(s, q, id)) then s
    else
      var account := s.db.accounts[id];
      var allowed := match status
        case Frozen => account.status == Active
        case Active => account.status == Frozen
        case Closed => account.status != Closed && account.balance == 0;
      if allowed then s.(db := s.db.(accounts := s.db.accounts[id := account.(status := status)])) else s
  }

  function Next(s: State, a: Action): State {
    match a
    case Advance(p) => if p < |s.sessions| then AdvanceSession(s, p) else s
    case Screen(p, verdicts) => if p < |s.sessions| then ScreenSession(s, p, verdicts) else s
    case Fault(p, retryable) => if p < |s.sessions| then FaultSession(s, p, retryable) else s
    case SetStatus(actor, id, status) => ChangeStatus(s, actor, id, status)
  }

  function Run(s: State, actions: seq<Action>): State {
    if |actions| == 0 then s else Next(Run(s, actions[..|actions| - 1]), actions[|actions| - 1])
  }

  lemma {:induction false} RunConcat(s: State, a: seq<Action>, b: seq<Action>)
    ensures Run(s, a + b) == Run(Run(s, a), b)
  {
    if |b| == 0 {
      assert a + b == a;
    } else {
      RunConcat(s, a, b[..|b| - 1]);
      assert (a + b)[..|a + b| - 1] == a + b[..|b| - 1];
    }
  }

  lemma RunOne(s: State, a: Action)
    ensures Run(s, [a]) == Next(s, a)
  {
    assert [a][..0] == [];
    assert Run(s, []) == s;
  }

  lemma RunThen(s: State, first: Action, rest: seq<Action>)
    ensures Run(s, [first] + rest) == Run(Next(s, first), rest)
  {
    RunConcat(s, [first], rest);
    RunOne(s, first);
  }

  // ---------- where runs start ----------

  /** Committed history: one row per key, only settled rows, and the i-th event tells of the i-th row. */
  ghost predicate History(s: State) {
    && (forall i, j :: 0 <= i < j < |s.db.rows| ==> s.db.rows[i].key != s.db.rows[j].key)
    && (forall i, j :: 0 <= i < j < |s.db.rows| ==> s.db.rows[i].id != s.db.rows[j].id)
    && (forall i :: 0 <= i < |s.db.rows| ==> Settled(s.db.rows[i]) && s.db.rows[i].id < s.nextId)
    && |s.db.events| == |s.db.rows|
    && (forall i :: 0 <= i < |s.db.rows| ==> s.db.events[i] == EventFor(s.db.rows[i]))
  }

  predicate Settled(row: Row) {
    row.status == Completed || (row.status == Rejected && row.fraudReject)
  }

  ghost predicate NonNegative(accounts: map<AccountId, Account>) {
    forall id :: id in accounts ==> accounts[id].balance >= 0
  }

  /** Any accounts, any committed history and any number of requests about to start. */
  ghost predicate Init(s: State) {
    && History(s) && NonNegative(s.db.accounts)
    && (forall p :: 0 <= p < |s.sessions| ==>
          s.sessions[p].phase == Looking && s.sessions[p].attempt == 0 && s.sessions[p].commits == 0)
  }
}
