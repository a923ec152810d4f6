/**
 What every step of the ledger keeps: each open transaction holds exactly the effects of the
 statements it has executed, no two transactions hold the same account or key, committed rows are
 settled and paired with their events, and a finished request reports a row that is really there.
 */
module LedgerInvariant {
  import opened Prelude
  import opened LedgerStatements
  import opened LedgerMachine

  function Delta(move: Move, amount: nat): int {
    if move.Debit? then 0 - amount else amount
  }

  function MovesDone(req: Request, purpose: Purpose, stage: Stage): nat {
    if purpose.Rejection? then 0
    else match stage
      case Moving(j) => j
      case Marking => |Moves(req)|
      case Emitting => |Moves(req)|
      case Committing => |Moves(req)|
      case _ => 0
  }

  /** The written balances are the committed ones changed by the first `n` moves, and nothing else. */
  ghost predicate WritesMatch(db: Tables, req: Request, n: nat, writes: map<AccountId, int>)
  {
    && n <= |Moves(req)|
    && (forall i :: 0 <= i < n ==>
          var id := Moves(req)[i].account;
          id in writes && id in db.accounts && writes[id] >= 0 &&
          writes[id] == db.accounts[id].balance + Delta(Moves(req)[i], req.amount))
    && (forall id :: id in writes ==> exists i :: 0 <= i < n && Moves(req)[i].account == id)
  }

  /** The row an open transaction must hold at its stage. */
  predicate RowMatches(req: Request, purpose: Purpose, stage: Stage, row: Option<Row>) {
    if stage.Reading? || stage.Checking? || stage.Inserting? then row.None?
    else
      && row.Some?
      && row.value == (
           if purpose.Rejection? then RejectedRow(req, row.value.id, purpose.reason)
           else if stage.Moving? || stage.Marking? then PendingRow(req, row.value.id)
           else PendingRow(req, row.value.id).(status := Completed))
  }

  ghost predicate WorkInv(s: State, req: Request, purpose: Purpose, stage: Stage, work: Work) {
    && (purpose.Rejection? ==> stage.Inserting? || stage.Emitting? || stage.Committing?)
    && (purpose.Body? && req.TransferRequest? ==> req.fromId != req.toId)
    && (stage.Reading? ==> stage.next < |Reads(req)|)
    && (stage.Moving? ==> stage.done < |Moves(req)|)
    && RowMatches(req, purpose, stage, work.row)
    && work.event == (if stage.Committing? then Some(EventFor(work.row.value)) else None)
    && WritesMatch(s.db, req, MovesDone(req, purpose, stage), work.writes)
    && (work.row.Some? ==> KeyFree(s.db.rows, req.UniqueKey()) && IdFree(s, work.row.value.id))
  }

  ghost predicate KeyFree(rows: seq<Row>, key: Key) {
    forall i :: 0 <= i < |rows| ==> rows[i].key != key
  }

  ghost predicate IdFree(s: State, id: nat) {
    id < s.nextId && forall i :: 0 <= i < |s.db.rows| ==> s.db.rows[i].id != id
  }

  ghost predicate HasRejection(rows: seq<Row>, key: Key, reason: Option<string>) {
    exists i :: 0 <= i < |rows| && rows[i].key == key && rows[i].status == Rejected && rows[i].fraudReason == reason
  }

  /** An error in flight that speaks of a row has that row behind it. */
  ghost predicate ErrorBacked(rows: seq<Row>, key: Key, err: Error) {
    && (err.FraudRejected? ==> HasRejection(rows, key, err.reason))
    && (err.UniqueViolation? ==> !KeyFree(rows, key))
  }

  ghost predicate OutcomeBacked(rows: seq<Row>, req: Request, outcome: Outcome, commits: nat) {
    match outcome
    case Success(row) =>
      && row in rows && row.key == req.UniqueKey() && row.status == Completed
      && (commits > 0 ==> row == PendingRow(req, row.id).(status := Completed))
    case Failure(err) =>
      && err != UniqueViolation
      && (err.FraudRejected? ==> HasRejection(rows, req.UniqueKey(), err.reason))
      && (commits > 0 ==> err.FraudRejected?)
    case StillInProgress => false
    case Unprocessable => false
  }

  ghost predicate SessionInv(s: State, sess: Session) {
    && sess.attempt < TRANSFER_ATTEMPTS
    && sess.commits <= 1
    && (sess.commits == 1 ==> !KeyFree(s.db.rows, sess.req.UniqueKey()))
    && match sess.phase
       case Looking => sess.commits == 0
       case Screening => sess.commits == 0
       case InTransaction(purpose, stage, work) =>
         sess.commits == 0 && WorkInv(s, sess.req, purpose, stage, work)
       case Releasing(err) =>
         ErrorBacked(s.db.rows, sess.req.UniqueKey(), err) && (sess.commits > 0 ==> err.FraudRejected?)
       case Resolving(err) =>
         ErrorBacked(s.db.rows, sess.req.UniqueKey(), err) && (sess.commits > 0 ==> err.FraudRejected?)
       case Done(outcome) => OutcomeBacked(s.db.rows, sess.req, outcome, sess.commits)
  }

  predicate HoldsId(s: State, q: nat, id: nat) {
    q < |s.sessions| && s.sessions[q].phase.InTransaction? && s.sessions[q].phase.work.row.Some? &&
    s.sessions[q].phase.work.row.value.id == id
  }

  predicate Committed(s: State, p: nat) {
    p < |s.sessions| && s.sessions[p].commits > 0
  }

  /** Locks and claimed keys exclude each other; one request per key can have committed. */
  ghost predicate Exclusive(s: State) {
    && (forall p: nat, q: nat, id :: p != q && HoldsAccount(s, p, id) ==> !HoldsAccount(s, q, id))
    && (forall p: nat, q: nat, key :: p != q && HoldsKey(s, p, key) ==> !HoldsKey(s, q, key))
    && (forall p: nat, q: nat, id: nat :: p != q && HoldsId(s, p, id) ==> !HoldsId(s, q, id))
    && (forall p: nat, q: nat :: p != q && Committed(s, p) && Committed(s, q) ==>
          s.sessions[p].req.UniqueKey() != s.sessions[q].req.UniqueKey())
  }

  ghost predicate Inv(s: State) {
    && History(s)
    && NonNegative(s.db.accounts)
    && (forall p :: 0 <= p < |s.sessions| ==> SessionInv(s, s.sessions[p]))
    && Exclusive(s)
  }

  lemma InitInv(s: State)
    requires Init(s)
    ensures Inv(s)
  {
  }

  // ---------- steps that leave the tables alone ----------

  /** Replacing one session by another that holds no more than before keeps the invariant. */
  lemma PutKeepsInv(s: State, p: nat, sess: Session)
    requires Inv(s) && p < |s.sessions|
    requires sess.req == s.sessions[p].req && sess.commits == s.sessions[p].commits
    requires SessionInv(s, sess)
    requires sess.phase.InTransaction? ==> sess.phase.work == FreshWork
    ensures Inv(Put(s, p, sess))
  {
    var t := Put(s, p, sess);
    forall q | 0 <= q < |t.sessions| ensures SessionInv(t, t.sessions[q]) {
      SameTables(s, t, t.sessions[q]);
    }
    HoldingLessStaysExclusive(s, t, p);
  }

  lemma HoldingLessStaysExclusive(s: State, t: State, p: nat)
    requires Exclusive(s) && p < |s.sessions| == |t.sessions|
    requires t.sessions[p].req == s.sessions[p].req && t.sessions[p].commits == s.sessions[p].commits
    requires t.sessions[p].phase.InTransaction? ==> t.sessions[p].phase.work == FreshWork
    requires forall q :: 0 <= q < |s.sessions| && q != p ==> t.sessions[q] == s.sessions[q]
    ensures Exclusive(t)
  {
    assert forall q: nat, id :: HoldsAccount(t, q, id) ==> HoldsAccount(s, q, id);
    assert forall q: nat, key :: HoldsKey(t, q, key) ==> HoldsKey(s, q, key);
    assert forall q: nat, id: nat :: HoldsId(t, q, id) ==> HoldsId(s, q, id);
    assert forall q: nat :: Committed(t, q) ==> Committed(s, q);
  }

  lemma SameTables(s: State, t: State, sess: Session)
    requires SessionInv(s, sess) && s.db == t.db && s.nextId <= t.nextId
    ensures SessionInv(t, sess)
  {
  }

  lemma FreshWorkInv(s: State, sess: Session)
    requires sess.phase.InTransaction? && sess.phase.work == FreshWork && sess.commits == 0
    requires sess.attempt < TRANSFER_ATTEMPTS
    requires sess.phase == BodyStart || (sess.phase.purpose.Rejection? && sess.phase.stage == Inserting)
    requires sess.phase == BodyStart && sess.req.TransferRequest? ==> sess.req.fromId != sess.req.toId
    ensures SessionInv(s, sess)
  {
  }

  lemma ThrowKeepsInv(s: State, p: nat, err: Error)
    requires Inv(s) && p < |s.sessions| && s.sessions[p].phase.InTransaction?
    requires err.UniqueViolation? ==> !KeyFree(s.db.rows, s.sessions[p].req.UniqueKey())
    requires !err.FraudRejected?
    ensures Inv(Put(s, p, AfterThrow(s.sessions[p], s.sessions[p].phase.purpose, err)))
  {
    var sess := s.sessions[p];
    var after := AfterThrow(sess, sess.phase.purpose, err);
    assert SessionInv(s, sess);
    if after.phase == BodyStart {
      FreshWorkInv(s, after);
    }
    PutKeepsInv(s, p, after);
  }

  lemma RowBehind(s: State, key: Key)
    requires History(s)
    ensures FindRow(s.db.rows, key).Some? <==> !KeyFree(s.db.rows, key)
    ensures FindRow(s.db.rows, key).Some? ==> Settled(FindRow(s.db.rows, key).value)
  {
    var found := FindRow(s.db.rows, key);
    if found.Some? {
      var i :| 0 <= i < |s.db.rows| && s.db.rows[i] == found.value;
    }
  }

  lemma LookupKeepsInv(s: State, p: nat)
    requires Inv(s) && p < |s.sessions| && s.sessions[p].phase == Looking
    ensures Inv(AdvanceSession(s, p))
  {
    var sess := s.sessions[p];
    assert SessionInv(s, sess);
    RowBehind(s, sess.req.UniqueKey());
    PutKeepsInv(s, p, AdvanceSession(s, p).sessions[p]);
  }

  lemma ResolveKeepsInv(s: State, p: nat)
    requires Inv(s) && p < |s.sessions| && s.sessions[p].phase.Resolving?
    ensures Inv(AdvanceSession(s, p))
  {
    var sess := s.sessions[p];
    assert SessionInv(s, sess);
    RowBehind(s, sess.req.UniqueKey());
    PutKeepsInv(s, p, AdvanceSession(s, p).sessions[p]);
  }

  lemma ScreenKeepsInv(s: State, p: nat, verdicts: seq<Option<string>>)
    requires Inv(s) && p < |s.sessions|
    ensures Inv(ScreenSession(s, p, verdicts))
  {
    var sess := s.sessions[p];
    if sess.phase == Screening {
      assert SessionInv(s, sess);
      var after := ScreenSession(s, p, verdicts).sessions[p];
      FreshWorkInv(s, after);
      PutKeepsInv(s, p, after);
    }
  }

  lemma FaultKeepsInv(s: State, p: nat, retryable: bool)
    requires Inv(s) && p < |s.sessions|
    ensures Inv(FaultSession(s, p, retryable))
  {
    var sess := s.sessions[p];
    assert SessionInv(s, sess);
    if sess.phase.InTransaction? {
      ThrowKeepsInv(s, p, Technical(retryable));
    } else if sess.phase.Looking? || sess.phase.Screening? || sess.phase == Resolving(UniqueViolation) {
      PutKeepsInv(s, p, FaultSession(s, p, retryable).sessions[p]);
    }
  }

  // ---------- one statement inside a transaction ----------

  /** A balance update extends the written balances by exactly one move. */
  lemma MoveExtends(db: Tables, req: Request, j: nat, work: Work)
    requires req.TransferRequest? ==> req.fromId != req.toId
    requires j < |Moves(req)| && NonNegative(db.accounts)
    requires WritesMatch(db, req, j, work.writes)
    requires ApplyMove(db, work, Moves(req)[j], req.amount).Ok?
    ensures WritesMatch(db, req, j + 1, ApplyMove(db, work, Moves(req)[j], req.amount).value.writes)
  {
    assert forall i :: 0 <= i < j ==> Moves(req)[i].account != Moves(req)[j].account;
  }

  lemma StatementInv(s: State, p: nat)
    requires Inv(s) && p < |s.sessions| && s.sessions[p].phase.InTransaction?
    requires s.sessions[p].phase.stage != Committing
    requires Statement(s.db, s.sessions[p].req, s.sessions[p].phase.purpose, s.sessions[p].phase.stage,
                       s.sessions[p].phase.work, s.nextId).Ok?
    ensures SessionInv(AdvanceTransaction(s, p), AdvanceTransaction(s, p).sessions[p])
  {
    var sess := s.sessions[p];
    var InTransaction(purpose, stage, work) := sess.phase;
    assert SessionInv(s, sess);
    var t := AdvanceTransaction(s, p);
    var work' := t.sessions[p].phase.work;
    match stage
    case Moving(j) =>
      MoveExtends(s.db, sess.req, j, work);
    case Inserting =>
      assert forall i :: 0 <= i < |s.db.rows| ==> s.db.rows[i].id < s.nextId;
    case _ =>
  }

  lemma StatementKeepsInv(s: State, p: nat)
    requires Inv(s) && p < |s.sessions| && s.sessions[p].phase.InTransaction? && !Blocked(s, p)
    requires s.sessions[p].phase.stage != Committing
    requires Statement(s.db, s.sessions[p].req, s.sessions[p].phase.purpose, s.sessions[p].phase.stage,
                       s.sessions[p].phase.work, s.nextId).Ok?
    ensures Inv(AdvanceTransaction(s, p))
  {
    var t := AdvanceTransaction(s, p);
    StatementInv(s, p);
    forall q | 0 <= q < |t.sessions| ensures SessionInv(t, t.sessions[q]) {
      if q != p {
        SameTables(s, t, s.sessions[q]);
      }
    }
    StatementExclusive(s, p);
  }

  lemma HeldIdsAreOld(s: State)
    requires Inv(s)
    ensures forall q: nat, id: nat :: HoldsId(s, q, id) ==> id < s.nextId
  {
    forall q: nat, id: nat | HoldsId(s, q, id) ensures id < s.nextId {
      assert SessionInv(s, s.sessions[q]);
    }
  }

  lemma StatementExclusive(s: State, p: nat)
    requires Inv(s) && p < |s.sessions| && s.sessions[p].phase.InTransaction? && !Blocked(s, p)
    requires s.sessions[p].phase.stage != Committing
    requires Statement(s.db, s.sessions[p].req, s.sessions[p].phase.purpose, s.sessions[p].phase.stage,
                       s.sessions[p].phase.work, s.nextId).Ok?
    ensures Exclusive(AdvanceTransaction(s, p))
  {
    var t := AdvanceTransaction(s, p);
    var sess := s.sessions[p];
    var stage := sess.phase.stage;
    assert SessionInv(s, sess);
    assert forall q: nat, id :: q != p ==> HoldsAccount(t, q, id) == HoldsAccount(s, q, id);
    assert forall q: nat, key :: q != p ==> HoldsKey(t, q, key) == HoldsKey(s, q, key);
    assert forall q: nat, id: nat :: q != p ==> HoldsId(t, q, id) == HoldsId(s, q, id);
    forall q: nat, id | q != p && HoldsAccount(t, p, id) ensures !HoldsAccount(t, q, id) {
      if !HoldsAccount(s, p, id) {
        assert stage.Moving? && id == Moves(sess.req)[stage.done].account;
        assert !WaitsFor(s, p, q);
      }
    }
    forall q: nat, key | q != p && HoldsKey(t, p, key) ensures !HoldsKey(t, q, key) {
      if !HoldsKey(s, p, key) {
        assert stage.Inserting? && key == sess.req.UniqueKey();
        assert !WaitsFor(s, p, q);
      }
    }
    HeldIdsAreOld(s);
    forall q: nat, id: nat | q != p && HoldsId(t, p, id) ensures !HoldsId(t, q, id) {
      if !HoldsId(s, p, id) {
        assert stage.Inserting? && id == s.nextId;
      }
    }
  }

  // ---------- commit ----------

  lemma RowsGrow(s: State, t: State, row: Row, sess: Session)
    requires SessionInv(s, sess) && !sess.phase.InTransaction?
    requires t.db.rows == s.db.rows + [row]
    ensures SessionInv(t, sess)
  {
    var key := sess.req.UniqueKey();
    forall reason | HasRejection(s.db.rows, key, reason) ensures HasRejection(t.db.rows, key, reason) {
      var i :| 0 <= i < |s.db.rows| && s.db.rows[i].key == key && s.db.rows[i].status == Rejected &&
               s.db.rows[i].fraudReason == reason;
      assert t.db.rows[i] == s.db.rows[i];
    }
    if !KeyFree(s.db.rows, key) {
      var i :| 0 <= i < |s.db.rows| && s.db.rows[i].key == key;
      assert t.db.rows[i].key == key;
    }
  }

  /** A transaction still open after another one commits has lost nothing. */
  lemma OpenSurvivesCommit(s: State, p: nat, q: nat)
    requires Inv(s) && p < |s.sessions| && q < |s.sessions| && p != q
    requires s.sessions[p].phase.InTransaction? && s.sessions[p].phase.stage == Committing
    requires s.sessions[q].phase.InTransaction?
    ensures SessionInv(AdvanceTransaction(s, p), s.sessions[q])
  {
    var t := AdvanceTransaction(s, p);
    var mine := s.sessions[p].phase.work;
    var theirs := s.sessions[q].phase.work;
    assert SessionInv(s, s.sessions[p]) && SessionInv(s, s.sessions[q]);
    assert HoldsKey(s, p, mine.row.value.key) && HoldsId(s, p, mine.row.value.id);
    forall id | id in theirs.writes ensures id in s.db.accounts ==> t.db.accounts[id] == s.db.accounts[id] {
      assert HoldsAccount(s, q, id);
      assert !HoldsAccount(s, p, id);
    }
    if theirs.row.Some? {
      assert HoldsKey(s, q, theirs.row.value.key) && HoldsId(s, q, theirs.row.value.id);
    }
  }

  lemma CommitterInv(s: State, p: nat)
    requires Inv(s) && p < |s.sessions|
    requires s.sessions[p].phase.InTransaction? && s.sessions[p].phase.stage == Committing
    ensures SessionInv(AdvanceTransaction(s, p), AdvanceTransaction(s, p).sessions[p])
  {
    var t := AdvanceTransaction(s, p);
    var work := s.sessions[p].phase.work;
    assert SessionInv(s, s.sessions[p]);
    assert t.db.rows[|s.db.rows|] == work.row.value;
  }

  lemma CommitterIsFirst(s: State, p: nat)
    requires Inv(s) && p < |s.sessions|
    requires s.sessions[p].phase.InTransaction? && s.sessions[p].phase.stage == Committing
    ensures forall q: nat :: Committed(s, q) ==>
              q != p && s.sessions[q].req.UniqueKey() != s.sessions[p].req.UniqueKey()
  {
    assert SessionInv(s, s.sessions[p]);
    forall q: nat | Committed(s, q)
      ensures q != p && s.sessions[q].req.UniqueKey() != s.sessions[p].req.UniqueKey()
    {
      assert SessionInv(s, s.sessions[q]);
    }
  }

  lemma CommitExclusive(s: State, p: nat)
    requires Inv(s) && p < |s.sessions|
    requires s.sessions[p].phase.InTransaction? && s.sessions[p].phase.stage == Committing
    ensures Exclusive(AdvanceTransaction(s, p))
  {
    var t := AdvanceTransaction(s, p);
    var sess := t.sessions[p];
    CommitterIsFirst(s, p);
    var idle := Put(s, p, sess.(commits := s.sessions[p].commits));
    HoldingLessStaysExclusive(s, idle, p);
    assert forall q: nat, id :: HoldsAccount(t, q, id) == HoldsAccount(idle, q, id);
    assert forall q: nat, key :: HoldsKey(t, q, key) == HoldsKey(idle, q, key);
    assert forall q: nat, id: nat :: HoldsId(t, q, id) == HoldsId(idle, q, id);
    assert forall q: nat :: q != p ==> Committed(t, q) == Committed(s, q);
  }

  lemma CommitKeepsInv(s: State, p: nat)
    requires Inv(s) && p < |s.sessions|
    requires s.sessions[p].phase.InTransaction? && s.sessions[p].phase.stage == Committing
    ensures Inv(AdvanceTransaction(s, p))
  {
    var t := AdvanceTransaction(s, p);
    assert SessionInv(s, s.sessions[p]);
    CommitExclusive(s, p);
    forall q | 0 <= q < |t.sessions| ensures SessionInv(t, t.sessions[q]) {
      if q == p {
        CommitterInv(s, p);
      } else if s.sessions[q].phase.InTransaction? {
        OpenSurvivesCommit(s, p, q);
      } else {
        RowsGrow(s, t, s.sessions[p].phase.work.row.value, s.sessions[q]);
      }
    }
  }

  // ---------- all steps ----------

  lemma TransactionKeepsInv(s: State, p: nat)
    requires Inv(s) && p < |s.sessions| && s.sessions[p].phase.InTransaction? && !Blocked(s, p)
    ensures Inv(AdvanceTransaction(s, p))
  {
    var sess := s.sessions[p];
    var InTransaction(purpose, stage, work) := sess.phase;
    if stage == Committing {
      CommitKeepsInv(s, p);
    } else {
      var result := Statement(s.db, sess.req, purpose, stage, work, s.nextId);
      if result.Ok? {
        StatementKeepsInv(s, p);
      } else {
        RowBehind(s, sess.req.UniqueKey());
        ThrowKeepsInv(s, p, result.error);
      }
    }
  }

  lemma AdvanceKeepsInv(s: State, p: nat)
    requires Inv(s) && p < |s.sessions|
    ensures Inv(AdvanceSession(s, p))
  {
    var sess := s.sessions[p];
    assert SessionInv(s, sess);
    match sess.phase
    case Looking => LookupKeepsInv(s, p);
    case Screening =>
    case InTransaction(_, _, _) => if !Blocked(s, p) { TransactionKeepsInv(s, p); }
    case Releasing(err) => PutKeepsInv(s, p, AdvanceSession(s, p).sessions[p]);
    case Resolving(err) => ResolveKeepsInv(s, p);
    case Done(_) =>
  }

  lemma StatusKeepsInv(s: State, actor: CustomerId, id: AccountId, status: AccountStatus)
    requires Inv(s)
    ensures Inv(ChangeStatus(s, actor, id, status))
  {
    var t := ChangeStatus(s, actor, id, status);
    forall q | 0 <= q < |t.sessions| ensures SessionInv(t, t.sessions[q]) {
      assert SessionInv(s, s.sessions[q]);
    }
    assert forall q: nat, id :: HoldsAccount(t, q, id) == HoldsAccount(s, q, id);
    assert forall q: nat, key :: HoldsKey(t, q, key) == HoldsKey(s, q, key);
    assert forall q: nat, id: nat :: HoldsId(t, q, id) == HoldsId(s, q, id);
    assert forall q: nat :: Committed(t, q) == Committed(s, q);
  }

  /** The invariant survives every action of every request, in any order. */
  lemma NextInv(s: State, a: Action)
    requires Inv(s)
    ensures Inv(Next(s, a))
  {
    match a
    case Advance(p) => if p < |s.sessions| { AdvanceKeepsInv(s, p); }
    case Screen(p, verdicts) => if p < |s.sessions| { ScreenKeepsInv(s, p, verdicts); }
    case Fault(p, retryable) => if p < |s.sessions| { FaultKeepsInv(s, p, retryable); }
    case SetStatus(actor, id, status) => StatusKeepsInv(s, actor, id, status);
  }

  lemma {:induction false} RunInv(s: State, actions: seq<Action>)
    requires Inv(s)
    ensures Inv(Run(s, actions))
  {
    if |actions| > 0 {
      RunInv(s, actions[..|actions| - 1]);
      NextInv(Run(s, actions[..|actions| - 1]), actions[|actions| - 1]);
    }
  }
}
