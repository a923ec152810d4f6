/**
 What one request does when it is served without interference, as a function; and the proof that
 this is one of the runs of the interleaved ledger, so everything proved about runs holds of it.
 */
module LedgerSerial {
  import opened Prelude
  import opened LedgerStatements
  import opened LedgerMachine
  import opened LedgerInvariant
  import opened LedgerProgress

  /** A statement that throws a technical error instead of running. */
  datatype Trouble = Trouble(stage: Stage, retryable: bool)

  predicate Trips(fault: Option<Trouble>, stage: Stage) {
    fault.Some? && fault.value.stage == stage
  }

  /** The transaction from `stage` on: the work it wants to commit, or what it throws, and the next free id. */
  function RunStages(db: Tables, req: Request, purpose: Purpose, stage: Stage, work: Work, nextId: nat,
                     fault: Option<Trouble>): (Result<Work, Error>, nat)
    decreases StagesLeft(req, stage)
  {
    if Trips(fault, stage) then (Err(Technical(fault.value.retryable)), nextId)
    else if stage == Committing then (Ok(work), nextId)
    else if (stage.Reading? && stage.next >= |Reads(req)|) || (stage.Moving? && stage.done >= |Moves(req)|)
    then (Ok(work), nextId)
    else
      match Statement(db, req, purpose, stage, work, nextId)
      case Err(err) => (Err(err), nextId)
      case Ok(work') =>
        RunStages(db, req, purpose, NextStage(req, purpose, stage), work',
                  if stage == Inserting then nextId + 1 else nextId, fault)
  }

  function FaultOf(faults: seq<Option<Trouble>>, attempt: nat): Option<Trouble> {
    if attempt < |faults| then faults[attempt] else None
  }

  datatype Attempted = Attempted(tables: Tables, nextId: nat, result: Result<Row, Error>)

  /** The body, tried again after a retryable error while a transfer has attempts left. */
  function Attempts(db: Tables, nextId: nat, req: Request, attempt: nat, faults: seq<Option<Trouble>>): Attempted
    requires attempt < TRANSFER_ATTEMPTS
    decreases TRANSFER_ATTEMPTS - attempt
  {
    var (result, id) := RunStages(db, req, Body, Reading(0), FreshWork, nextId, FaultOf(faults, attempt));
    match result
    case Ok(work) => Attempted(Commit(db, work), id, if work.row.Some? then Ok(work.row.value) else Err(RecordNotFound))
    case Err(err) =>
      if req.TransferRequest? && attempt + 1 < TRANSFER_ATTEMPTS && err == Technical(true)
      then Attempts(db, id, req, attempt + 1, faults)
      else Attempted(db, id, Err(err))
  }

  /** The rejected row and its event; the caller then throws the rejection. */
  function Reject(db: Tables, nextId: nat, req: Request, reason: Option<string>, fault: Option<Trouble>): Attempted {
    var (result, id) := RunStages(db, req, Rejection(reason), Inserting, FreshWork, nextId, fault);
    match result
    case Ok(work) => Attempted(Commit(db, work), id, Err(FraudRejected(reason)))
    case Err(err) => Attempted(db, id, Err(err))
  }

  /** `released` tells whether the catch block gave the daily reservation back. */
  datatype Reply = Reply(tables: Tables, nextId: nat, outcome: Outcome, released: bool)

  function Finish(req: Request, attempted: Attempted): Reply {
    match attempted.result
    case Ok(row) => Reply(attempted.tables, attempted.nextId, Success(row), false)
    case Err(err) =>
      Reply(attempted.tables, attempted.nextId,
            ResolveFallback(err, FindRow(attempted.tables.rows, req.UniqueKey())),
            !req.DepositRequest? && err != UniqueViolation)
  }

  function Perform(db: Tables, nextId: nat, req: Request, verdicts: seq<Option<string>>,
                   faults: seq<Option<Trouble>>): Attempted {
    var verdict := if req.DepositRequest? then None else FraudVerdict(req, verdicts);
    if verdict.Some? then Reject(db, nextId, req, verdict, FaultOf(faults, 0))
    else Attempts(db, nextId, req, 0, faults)
  }

  /** createDeposit, createWithdraw and createTransfer. */
  function Serve(db: Tables, nextId: nat, req: Request, verdicts: seq<Option<string>>,
                 faults: seq<Option<Trouble>>): Reply {
    var settled := ResolveExisting(FindRow(db.rows, req.UniqueKey()));
    if settled.Some? then Reply(db, nextId, settled.value, false)
    else Finish(req, Perform(db, nextId, req, verdicts, faults))
  }

  /** A rejection is recorded exactly if its key is free and the accounts it names exist; otherwise the
      transaction rolls back and the caller gets the database's error instead. */
  lemma RejectionIsRecorded(db: Tables, nextId: nat, req: Request, reason: Option<string>)
    ensures var attempted := Reject(db, nextId, req, reason, None);
      var row := RejectedRow(req, nextId, reason);
      var recorded := FindRow(db.rows, req.UniqueKey()).None? && NamesAccounts(db, row);
      && (recorded ==> attempted.result == Err(FraudRejected(reason)) &&
                       attempted.tables.rows == db.rows + [row] &&
                       attempted.tables.events == db.events + [EventFor(row)])
      && (!recorded ==> attempted.tables == db &&
                        (attempted.result == Err(UniqueViolation) || attempted.result == Err(ForeignKeyViolation)))
  {
    var row := RejectedRow(req, nextId, reason);
    var inserted := Insert(db, FreshWork, row);
    if inserted.Ok? {
      var emitted := EmitEvent(inserted.value);
      assert RunStages(db, req, Rejection(reason), Emitting, inserted.value, nextId + 1, None)
          == RunStages(db, req, Rejection(reason), Committing, emitted.value, nextId + 1, None);
    }
  }

  // ---------- serving alone is a run ----------

  /** Nobody but p has a transaction open. */
  ghost predicate Alone(s: State, p: nat) {
    p < |s.sessions| && forall q :: 0 <= q < |s.sessions| && q != p ==> !s.sessions[q].phase.InTransaction?
  }

  /** Where p's transaction ends up undisturbed: about to commit RunStages' work, or past its throw. */
  function Undisturbed(s: State, p: nat, fault: Option<Trouble>): State
    requires p < |s.sessions| && s.sessions[p].phase.InTransaction?
  {
    var sess := s.sessions[p];
    var InTransaction(purpose, stage, work) := sess.phase;
    var (result, id) := RunStages(s.db, sess.req, purpose, stage, work, s.nextId, fault);
    var next := match result
      case Ok(final) => sess.(phase := InTransaction(purpose, Committing, final))
      case Err(err) => AfterThrow(sess, purpose, err);
    Put(s, p, next).(nextId := id)
  }

  lemma {:induction false} StagesAreARun(s: State, p: nat, fault: Option<Trouble>) returns (actions: seq<Action>)
    requires Inv(s) && Alone(s, p) && s.sessions[p].phase.InTransaction?
    ensures Run(s, actions) == Undisturbed(s, p, fault)
    decreases StagesLeft(s.sessions[p].req, s.sessions[p].phase.stage)
  {
    var stage := s.sessions[p].phase.stage;
    if Trips(fault, stage) {
      actions := [Fault(p, fault.value.retryable)];
      RunOne(s, actions[0]);
      TripEnds(s, p, fault);
    } else if stage == Committing {
      actions := [];
      assert Put(s, p, s.sessions[p]) == s;
    } else {
      AloneStep(s, p, fault);
      var t := Next(s, Advance(p));
      if MovedOn(s, t, p) {
        var rest := StagesAreARun(t, p, fault);
        RunThen(s, Advance(p), rest);
        actions := [Advance(p)] + rest;
      } else {
        RunOne(s, Advance(p));
        actions := [Advance(p)];
      }
    }
  }

  lemma TripEnds(s: State, p: nat, fault: Option<Trouble>)
    requires Inv(s) && Alone(s, p) && s.sessions[p].phase.InTransaction? && Trips(fault, s.sessions[p].phase.stage)
    ensures Next(s, Fault(p, fault.value.retryable)) == Undisturbed(s, p, fault)
  {
  }

  predicate MovedOn(s: State, t: State, p: nat)
    requires p < |s.sessions| && p < |t.sessions| && s.sessions[p].phase.InTransaction?
  {
    var sess := s.sessions[p];
    t.sessions[p].phase.InTransaction? &&
    t.sessions[p].phase.stage == NextStage(sess.req, sess.phase.purpose, sess.phase.stage)
  }

  lemma AloneStays(s: State, p: nat)
    requires Inv(s) && Alone(s, p) && s.sessions[p].phase.InTransaction?
    ensures !Blocked(s, p) && Next(s, Advance(p)) == AdvanceTransaction(s, p)
    ensures var t := AdvanceTransaction(s, p);
      Inv(t) && |t.sessions| == |s.sessions| && Alone(t, p) && t.sessions[p].req == s.sessions[p].req
  {
    assert !Blocked(s, p);
    TransactionKeepsInv(s, p);
  }

  lemma StepTowards(s: State, p: nat, fault: Option<Trouble>)
    requires p < |s.sessions| && s.sessions[p].phase.InTransaction? && SessionInv(s, s.sessions[p])
    requires s.sessions[p].phase.stage != Committing && !Trips(fault, s.sessions[p].phase.stage)
    requires NextStage(s.sessions[p].req, s.sessions[p].phase.purpose, s.sessions[p].phase.stage) != Reading(0)
    ensures var t := AdvanceTransaction(s, p);
      if MovedOn(s, t, p) then Undisturbed(t, p, fault) == Undisturbed(s, p, fault)
      else t == Undisturbed(s, p, fault)
  {
    var sess := s.sessions[p];
    var InTransaction(purpose, stage, work) := sess.phase;
    var result := Statement(s.db, sess.req, purpose, stage, work, s.nextId);
    if result.Ok? {
      var t := AdvanceTransaction(s, p);
      assert RunStages(s.db, sess.req, purpose, stage, work, s.nextId, fault)
          == RunStages(t.db, sess.req, purpose, NextStage(sess.req, purpose, stage), result.value, t.nextId, fault);
    } else {
      assert RunStages(s.db, sess.req, purpose, stage, work, s.nextId, fault) == (Err(result.error), s.nextId);
    }
  }

  /** One undisturbed statement of p keeps p on the way to the same end, or is that end. */
  lemma AloneStep(s: State, p: nat, fault: Option<Trouble>)
    requires Inv(s) && Alone(s, p) && s.sessions[p].phase.InTransaction?
    requires s.sessions[p].phase.stage != Committing && !Trips(fault, s.sessions[p].phase.stage)
    ensures var t := Next(s, Advance(p));
      var sess := s.sessions[p];
      && Inv(t) && Alone(t, p)
      && (if MovedOn(s, t, p)
          then Undisturbed(t, p, fault) == Undisturbed(s, p, fault) && t.sessions[p].req == sess.req &&
               StagesLeft(sess.req, t.sessions[p].phase.stage) < StagesLeft(sess.req, sess.phase.stage)
          else t == Undisturbed(s, p, fault))
  {
    AloneStays(s, p);
    StageMovesOn(s, p);
    StepTowards(s, p, fault);
  }

  /** NextStage never leads back to the first read, where a retry starts over. */
  lemma StageMovesOn(s: State, p: nat)
    requires Inv(s) && p < |s.sessions| && s.sessions[p].phase.InTransaction?
    requires s.sessions[p].phase.stage != Committing
    ensures var sess := s.sessions[p];
      var next := NextStage(sess.req, sess.phase.purpose, sess.phase.stage);
      next != Reading(0) && StagesLeft(sess.req, next) < StagesLeft(sess.req, sess.phase.stage)
  {
    assert SessionInv(s, s.sessions[p]);
  }

  /** Where a request stands after its attempts. */
  function Settle(sess: Session, attempted: Attempted): Session {
    sess.(attempt := 0, commits := 0, phase := match attempted.result
      case Ok(row) => Done(Success(row))
      case Err(err) => if sess.req.DepositRequest? then Resolving(err) else Releasing(err))
  }

  predicate SameButCounters(a: Session, b: Session) {
    a.req == b.req && a.phase == b.phase
  }

  lemma {:induction false} AttemptsAreARun(s: State, p: nat, faults: seq<Option<Trouble>>)
    returns (actions: seq<Action>)
    requires Inv(s) && Alone(s, p) && s.sessions[p].phase == BodyStart
    ensures var sess := s.sessions[p];
      sess.attempt < TRANSFER_ATTEMPTS &&
      var attempted := Attempts(s.db, s.nextId, sess.req, sess.attempt, faults);
      var t := Run(s, actions);
      Alone(t, p) && t.db == attempted.tables && t.nextId == attempted.nextId &&
      SameButCounters(t.sessions[p], Settle(sess, attempted))
    decreases TRANSFER_ATTEMPTS - s.sessions[p].attempt
  {
    var sess := s.sessions[p];
    assert SessionInv(s, sess);
    var fault := FaultOf(faults, sess.attempt);
    var (result, id) := RunStages(s.db, sess.req, Body, Reading(0), FreshWork, s.nextId, fault);
    actions := StagesAreARun(s, p, fault);
    var t := Run(s, actions);
    RunInv(s, actions);
    assert SessionInv(t, t.sessions[p]);
    if result.Ok? {
      RunConcat(s, actions, [Advance(p)]);
      RunOne(t, Advance(p));
      assert !Blocked(t, p);
      actions := actions + [Advance(p)];
    } else if sess.req.TransferRequest? && sess.attempt + 1 < TRANSFER_ATTEMPTS && result.error == Technical(true) {
      var rest := AttemptsAreARun(t, p, faults);
      RunConcat(s, actions, rest);
      actions := actions + rest;
    }
  }

  lemma RejectIsARun(s: State, p: nat, fault: Option<Trouble>) returns (actions: seq<Action>)
    requires Inv(s) && Alone(s, p) && s.sessions[p].phase.InTransaction? && !s.sessions[p].req.DepositRequest?
    requires s.sessions[p].phase.purpose.Rejection?
    requires s.sessions[p].phase == RejectionStart(s.sessions[p].phase.purpose.reason)
    ensures var sess := s.sessions[p];
      var attempted := Reject(s.db, s.nextId, sess.req, sess.phase.purpose.reason, fault);
      var t := Run(s, actions);
      Alone(t, p) && t.db == attempted.tables && t.nextId == attempted.nextId &&
      SameButCounters(t.sessions[p], Settle(sess, attempted))
  {
    var sess := s.sessions[p];
    var reason := sess.phase.purpose.reason;
    var (result, id) := RunStages(s.db, sess.req, Rejection(reason), Inserting, FreshWork, s.nextId, fault);
    actions := StagesAreARun(s, p, fault);
    var t := Run(s, actions);
    if result.Ok? {
      RunConcat(s, actions, [Advance(p)]);
      RunOne(t, Advance(p));
      assert !Blocked(t, p);
      actions := actions + [Advance(p)];
    }
  }

  /** The steps of the catch block: release, then fallback. */
  lemma CatchIsARun(s: State, p: nat) returns (actions: seq<Action>)
    requires p < |s.sessions| && (s.sessions[p].phase.Releasing? || s.sessions[p].phase.Resolving?)
    ensures var sess := s.sessions[p];
      Run(s, actions).db == s.db && Run(s, actions).nextId == s.nextId && p < |Run(s, actions).sessions| &&
      Run(s, actions).sessions[p].phase ==
        Done(ResolveFallback(sess.phase.error, FindRow(s.db.rows, sess.req.UniqueKey())))
  {
    RunOne(s, Advance(p));
    actions := [Advance(p)];
    if s.sessions[p].phase.Releasing? {
      var t := Next(s, Advance(p));
      RunOne(t, Advance(p));
      RunConcat(s, actions, [Advance(p)]);
      actions := actions + [Advance(p)];
    }
  }

  /** The lookup, and the fraud screening where there is one. */
  lemma OpeningIsARun(s: State, p: nat, verdicts: seq<Option<string>>) returns (actions: seq<Action>)
    requires p < |s.sessions| && s.sessions[p].phase == Looking
    requires ResolveExisting(FindRow(s.db.rows, s.sessions[p].req.UniqueKey())).None?
    ensures var sess := s.sessions[p];
      var verdict := if sess.req.DepositRequest? then None else FraudVerdict(sess.req, verdicts);
      Run(s, actions) == Put(s, p, sess.(phase := if verdict.Some? then RejectionStart(verdict) else BodyStart))
  {
    RunOne(s, Advance(p));
    actions := [Advance(p)];
    if !s.sessions[p].req.DepositRequest? {
      var t := Next(s, Advance(p));
      RunOne(t, Screen(p, verdicts));
      RunConcat(s, actions, [Screen(p, verdicts)]);
      actions := actions + [Screen(p, verdicts)];
    }
  }

  lemma WorkIsARun(s: State, p: nat, verdicts: seq<Option<string>>, faults: seq<Option<Trouble>>)
    returns (actions: seq<Action>)
    requires Inv(s) && Alone(s, p) && s.sessions[p].phase == Looking && s.sessions[p].attempt == 0
    requires ResolveExisting(FindRow(s.db.rows, s.sessions[p].req.UniqueKey())).None?
    ensures var sess := s.sessions[p];
      var attempted := Perform(s.db, s.nextId, sess.req, verdicts, faults);
      var t := Run(s, actions);
      Alone(t, p) && t.db == attempted.tables && t.nextId == attempted.nextId &&
      SameButCounters(t.sessions[p], Settle(sess, attempted))
  {
    var opening := OpeningIsARun(s, p, verdicts);
    var t := Run(s, opening);
    RunInv(s, opening);
    var rest;
    if t.sessions[p].phase == BodyStart {
      rest := AttemptsAreARun(t, p, faults);
    } else {
      rest := RejectIsARun(t, p, FaultOf(faults, 0));
    }
    RunConcat(s, opening, rest);
    actions := opening + rest;
  }

  /** Serving a request alone, faults and retries included, is a run of the interleaved ledger. */
  lemma ServeIsARun(s: State, p: nat, verdicts: seq<Option<string>>, faults: seq<Option<Trouble>>)
    returns (actions: seq<Action>)
    requires Inv(s) && Alone(s, p) && s.sessions[p].phase == Looking && s.sessions[p].attempt == 0
    ensures var reply := Serve(s.db, s.nextId, s.sessions[p].req, verdicts, faults);
      var t := Run(s, actions);
      t.db == reply.tables && t.nextId == reply.nextId &&
      p < |t.sessions| && t.sessions[p].phase == Done(reply.outcome)
  {
    if ResolveExisting(FindRow(s.db.rows, s.sessions[p].req.UniqueKey())).Some? {
      actions := [Advance(p)];
      RunOne(s, Advance(p));
    } else {
      actions := WorkIsARun(s, p, verdicts, faults);
      var t := Run(s, actions);
      if !t.sessions[p].phase.Done? {
        var rest := CatchIsARun(t, p);
        RunConcat(s, actions, rest);
        actions := actions + rest;
      }
    }
  }
}
