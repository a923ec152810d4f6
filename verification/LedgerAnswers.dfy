/**
 What a request served alone answers and leaves behind, case by case: who may move which money, what an
 earlier row of the key decides, when the daily reservation is given back, and what faults and retries do.
 */
module LedgerAnswers {
  import opened Prelude
  import opened LedgerStatements
  import opened LedgerMachine
  import opened LedgerProgress
  import opened LedgerSerial

  // ---------- stage by stage ----------

  lemma Passes(db: Tables, req: Request, purpose: Purpose, stage: Stage, work: Work, nextId: nat, work': Work)
    requires stage != Committing && (stage.Reading? ==> stage.next < |Reads(req)|)
    requires stage.Moving? ==> stage.done < |Moves(req)|
    requires Statement(db, req, purpose, stage, work, nextId) == Ok(work')
    ensures RunStages(db, req, purpose, stage, work, nextId, None) ==
            RunStages(db, req, purpose, NextStage(req, purpose, stage), work',
                      if stage == Inserting then nextId + 1 else nextId, None)
  {
  }

  lemma Throws(db: Tables, req: Request, purpose: Purpose, stage: Stage, work: Work, nextId: nat, err: Error)
    requires stage != Committing && (stage.Reading? ==> stage.next < |Reads(req)|)
    requires stage.Moving? ==> stage.done < |Moves(req)|
    requires Statement(db, req, purpose, stage, work, nextId) == Err(err)
    ensures RunStages(db, req, purpose, stage, work, nextId, None) == (Err(err), nextId)
  {
  }

  /** From the last balance update on nothing can fail. */
  lemma Finishes(db: Tables, req: Request, work: Work, nextId: nat)
    requires work.row.Some?
    ensures var row := work.row.value.(status := Completed);
      RunStages(db, req, Body, Marking, work, nextId, None)
        == (Ok(work.(row := Some(row), event := Some(EventFor(row)))), nextId)
  {
    var row := work.row.value.(status := Completed);
    var marked := work.(row := Some(row));
    Passes(db, req, Body, Marking, work, nextId, marked);
    Passes(db, req, Body, Emitting, marked, nextId, marked.(event := Some(EventFor(row))));
  }

  // ---------- deposits ----------

  function AccountsRead(db: Tables, req: Request): Work
    requires forall i :: 0 <= i < |Reads(req)| ==> Reads(req)[i] in db.accounts
  {
    var ids := Reads(req);
    FreshWork.(seen := if |ids| == 1 then map[ids[0] := db.accounts[ids[0]]]
                       else map[ids[0] := db.accounts[ids[0]], ids[1] := db.accounts[ids[1]]])
  }

  /** Reads that all find their account. */
  lemma ReadsPass(db: Tables, req: Request, nextId: nat)
    requires forall i :: 0 <= i < |Reads(req)| ==> Reads(req)[i] in db.accounts
    ensures RunStages(db, req, Body, Reading(0), FreshWork, nextId, None)
         == RunStages(db, req, Body, Checking, AccountsRead(db, req), nextId, None)
  {
    var ids := Reads(req);
    var first := FreshWork.(seen := map[ids[0] := db.accounts[ids[0]]]);
    assert FreshWork.seen[ids[0] := db.accounts[ids[0]]] == map[ids[0] := db.accounts[ids[0]]];
    Passes(db, req, Body, Reading(0), FreshWork, nextId, first);
    if |ids| == 2 {
      assert first.seen[ids[1] := db.accounts[ids[1]]] == AccountsRead(db, req).seen;
      Passes(db, req, Body, Reading(1), first, nextId, AccountsRead(db, req));
    }
  }

  /** Reads of which one misses its account. */
  lemma ReadsThrow(db: Tables, req: Request, nextId: nat)
    requires exists i :: 0 <= i < |Reads(req)| && Reads(req)[i] !in db.accounts
    ensures RunStages(db, req, Body, Reading(0), FreshWork, nextId, None) == (Err(AccountNotFound), nextId)
  {
    var ids := Reads(req);
    if ids[0] !in db.accounts {
      Throws(db, req, Body, Reading(0), FreshWork, nextId, AccountNotFound);
    } else {
      var first := FreshWork.(seen := FreshWork.seen[ids[0] := db.accounts[ids[0]]]);
      Passes(db, req, Body, Reading(0), FreshWork, nextId, first);
      Throws(db, req, Body, Reading(1), first, nextId, AccountNotFound);
    }
  }

  /** The insert of a free key, once the checks have passed. */
  lemma InsertPasses(db: Tables, req: Request, work: Work, nextId: nat)
    requires FindRow(db.rows, req.UniqueKey()).None? && NamesAccounts(db, PendingRow(req, nextId))
    ensures RunStages(db, req, Body, Inserting, work, nextId, None)
         == RunStages(db, req, Body, Moving(0), work.(row := Some(PendingRow(req, nextId))), nextId + 1, None)
  {
    Passes(db, req, Body, Inserting, work, nextId, work.(row := Some(PendingRow(req, nextId))));
  }

  /** The tables after a completed request: new balances, its row, its event. */
  function Recorded(db: Tables, accounts: map<AccountId, Account>, row: Row): Tables {
    Tables(accounts, db.rows + [row],
           db.events + [Event(TransactionCompleted, row.id, row.key, row.from, row.to, row.amount, None)])
  }

  /** A reply that left everything as it was. */
  predicate Refused(reply: Reply, db: Tables, err: Error, released: bool) {
    reply.tables == db && reply.outcome == Failure(err) && reply.released == released
  }

  /** A deposit on a free key is refused unless the account exists, is the actor's own and is active; else it
      adds the amount to that balance, nothing else, and records it. */
  lemma DepositAnswers(db: Tables, nextId: nat, actor: CustomerId, reference: Reference, to: AccountId, amount: nat,
                       verdicts: seq<Option<string>>)
    requires FindRow(db.rows, Key(actor, Deposit, reference)).None?
    ensures var reply := Serve(db, nextId, DepositRequest(actor, reference, to, amount), verdicts, []);
      if to !in db.accounts then Refused(reply, db, AccountNotFound, false)
      else if db.accounts[to].owner != actor then Refused(reply, db, NotOwner, false)
      else if db.accounts[to].status != Active then Refused(reply, db, NotActive, false)
      else
        var row := Row(nextId, Key(actor, Deposit, reference), None, Some(to), amount, Completed, false, None);
        var account := db.accounts[to].(balance := db.accounts[to].balance + amount);
        reply == Reply(Recorded(db, db.accounts[to := account], row), nextId + 1, Success(row), false)
  {
    var req := DepositRequest(actor, reference, to, amount);
    assert Reads(req)[0] == to;
    if to !in db.accounts {
      ReadsThrow(db, req, nextId);
    } else {
      ReadsPass(db, req, nextId);
      var seen := AccountsRead(db, req);
      if db.accounts[to].owner != actor {
        Throws(db, req, Body, Checking, seen, nextId, NotOwner);
      } else if db.accounts[to].status != Active {
        Throws(db, req, Body, Checking, seen, nextId, NotActive);
      } else {
        Passes(db, req, Body, Checking, seen, nextId, seen);
        InsertPasses(db, req, seen, nextId);
        var held := seen.(row := Some(PendingRow(req, nextId)));
        var moved := held.(writes := map[to := db.accounts[to].balance + amount]);
        Passes(db, req, Body, Moving(0), held, nextId + 1, moved);
        Finishes(db, req, moved, nextId + 1);
        assert CommitAccounts(db.accounts, moved.writes)
            == db.accounts[to := db.accounts[to].(balance := db.accounts[to].balance + amount)];
      }
    }
  }

  // ---------- withdrawals and transfers ----------

  lemma {:induction false} NoReject(verdicts: seq<Option<string>>)
    requires forall i :: 0 <= i < |verdicts| ==> verdicts[i].None?
    ensures FirstReject(verdicts).None?
  {
    if |verdicts| > 0 {
      NoReject(verdicts[1..]);
    }
  }

  /** The first of the later rules to reject decides. */
  lemma {:induction false} RejectsAt(verdicts: seq<Option<string>>, k: nat)
    requires k < |verdicts| && verdicts[k].Some? && forall i :: 0 <= i < k ==> verdicts[i].None?
    ensures FirstReject(verdicts) == verdicts[k]
  {
    if k > 0 {
      RejectsAt(verdicts[1..], k - 1);
    }
  }

  lemma Screened(req: Request, verdicts: seq<Option<string>>)
    requires req.TransferRequest? ==> req.fromId != req.toId
    ensures FraudVerdict(req, verdicts) == FirstReject(verdicts)
  {
    assert ([SameAccountVerdict(req)] + verdicts)[1..] == verdicts;
  }

  /** An approved withdrawal on a free key is refused unless the account exists, is the actor's own, is active
      and covers the amount; else it takes the amount off that balance, nothing else, and records it. */
  lemma WithdrawAnswers(db: Tables, nextId: nat, actor: CustomerId, reference: Reference, from: AccountId, amount: nat,
                        verdicts: seq<Option<string>>)
    requires FindRow(db.rows, Key(actor, Withdraw, reference)).None?
    requires forall i :: 0 <= i < |verdicts| ==> verdicts[i].None?
    ensures var reply := Serve(db, nextId, WithdrawRequest(actor, reference, from, amount), verdicts, []);
      if from !in db.accounts then Refused(reply, db, AccountNotFound, true)
      else if db.accounts[from].owner != actor then Refused(reply, db, NotOwner, true)
      else if db.accounts[from].status != Active then Refused(reply, db, NotActive, true)
      else if db.accounts[from].balance < amount then Refused(reply, db, InsufficientBalance, true)
      else
        var row := Row(nextId, Key(actor, Withdraw, reference), Some(from), None, amount, Completed, false, None);
        var account := db.accounts[from].(balance := db.accounts[from].balance - amount);
        reply == Reply(Recorded(db, db.accounts[from := account], row), nextId + 1, Success(row), false)
  {
    var req := WithdrawRequest(actor, reference, from, amount);
    Screened(req, verdicts);
    NoReject(verdicts);
    assert Reads(req)[0] == from;
    if from !in db.accounts {
      ReadsThrow(db, req, nextId);
    } else {
      ReadsPass(db, req, nextId);
      WithdrawBody(db, nextId, req);
    }
  }

  lemma WithdrawBody(db: Tables, nextId: nat, req: Request)
    requires req.WithdrawRequest? && FindRow(db.rows, req.UniqueKey()).None? && req.fromId in db.accounts
    requires forall i :: 0 <= i < |Reads(req)| ==> Reads(req)[i] in db.accounts
    ensures var (result, id) := RunStages(db, req, Body, Checking, AccountsRead(db, req), nextId, None);
      var account := db.accounts[req.fromId];
      if account.owner != req.actor then result == Err(NotOwner)
      else if account.status != Active then result == Err(NotActive)
      else if account.balance < req.amount then result == Err(InsufficientBalance)
      else
        && id == nextId + 1 && result.Ok?
        && result.value.row == Some(PendingRow(req, nextId).(status := Completed))
        && result.value.event == Some(EventFor(PendingRow(req, nextId).(status := Completed)))
        && CommitAccounts(db.accounts, result.value.writes)
           == db.accounts[req.fromId := account.(balance := account.balance - req.amount)]
  {
    var seen, from := AccountsRead(db, req), req.fromId;
    assert from in seen.seen && seen.seen[from] == db.accounts[from];
    if db.accounts[from].owner != req.actor {
      Throws(db, req, Body, Checking, seen, nextId, NotOwner);
    } else if db.accounts[from].status != Active {
      Throws(db, req, Body, Checking, seen, nextId, NotActive);
    } else {
      Passes(db, req, Body, Checking, seen, nextId, seen);
      InsertPasses(db, req, seen, nextId);
      var held := seen.(row := Some(PendingRow(req, nextId)));
      if db.accounts[from].balance < req.amount {
        Throws(db, req, Body, Moving(0), held, nextId + 1, InsufficientBalance);
      } else {
        var moved := held.(writes := map[from := db.accounts[from].balance - req.amount]);
        Passes(db, req, Body, Moving(0), held, nextId + 1, moved);
        Finishes(db, req, moved, nextId + 1);
      }
    }
  }

  /** An approved transfer on a free key is refused unless both accounts exist, the source is the actor's own,
      both are active and the source covers the amount; else it moves the amount from the one to the other,
      nothing else, and records it. */
  lemma TransferAnswers(db: Tables, nextId: nat, actor: CustomerId, reference: Reference, from: AccountId,
                        to: AccountId, amount: nat, verdicts: seq<Option<string>>)
    requires FindRow(db.rows, Key(actor, Transfer, reference)).None?
    requires from != to && forall i :: 0 <= i < |verdicts| ==> verdicts[i].None?
    ensures var reply := Serve(db, nextId, TransferRequest(actor, reference, from, to, amount), verdicts, []);
      if from !in db.accounts || to !in db.accounts then Refused(reply, db, AccountNotFound, true)
      else if db.accounts[from].owner != actor then Refused(reply, db, NotOwner, true)
      else if db.accounts[from].status != Active || db.accounts[to].status != Active
      then Refused(reply, db, NotActive, true)
      else if db.accounts[from].balance < amount then Refused(reply, db, InsufficientBalance, true)
      else
        var row := Row(nextId, Key(actor, Transfer, reference), Some(from), Some(to), amount, Completed, false, None);
        var source := db.accounts[from].(balance := db.accounts[from].balance - amount);
        var target := db.accounts[to].(balance := db.accounts[to].balance + amount);
        reply == Reply(Recorded(db, db.accounts[from := source][to := target], row), nextId + 1, Success(row), false)
  {
    var req := TransferRequest(actor, reference, from, to, amount);
    Screened(req, verdicts);
    NoReject(verdicts);
    assert Reads(req)[0] == from && Reads(req)[1] == to;
    if from !in db.accounts || to !in db.accounts {
      ReadsThrow(db, req, nextId);
    } else {
      ReadsPass(db, req, nextId);
      TransferBody(db, nextId, req);
    }
  }

  lemma TransferBody(db: Tables, nextId: nat, req: Request)
    requires req.TransferRequest? && FindRow(db.rows, req.UniqueKey()).None? && req.fromId != req.toId
    requires req.fromId in db.accounts && req.toId in db.accounts
    requires forall i :: 0 <= i < |Reads(req)| ==> Reads(req)[i] in db.accounts
    ensures var (result, id) := RunStages(db, req, Body, Checking, AccountsRead(db, req), nextId, None);
      var source, target := db.accounts[req.fromId], db.accounts[req.toId];
      if source.owner != req.actor then result == Err(NotOwner)
      else if source.status != Active || target.status != Active then result == Err(NotActive)
      else if source.balance < req.amount then result == Err(InsufficientBalance)
      else
        && id == nextId + 1 && result.Ok?
        && result.value.row == Some(PendingRow(req, nextId).(status := Completed))
        && result.value.event == Some(EventFor(PendingRow(req, nextId).(status := Completed)))
        && CommitAccounts(db.accounts, result.value.writes)
           == db.accounts[req.fromId := source.(balance := source.balance - req.amount)]
                         [req.toId := target.(balance := target.balance + req.amount)]
  {
    var seen, from, to := AccountsRead(db, req), req.fromId, req.toId;
    assert seen.seen == map[from := db.accounts[from], to := db.accounts[to]];
    if db.accounts[from].owner != req.actor {
      Throws(db, req, Body, Checking, seen, nextId, NotOwner);
    } else if db.accounts[from].status != Active || db.accounts[to].status != Active {
      Throws(db, req, Body, Checking, seen, nextId, NotActive);
    } else {
      Passes(db, req, Body, Checking, seen, nextId, seen);
      InsertPasses(db, req, seen, nextId);
      BothMoves(db, nextId + 1, req, seen.(row := Some(PendingRow(req, nextId))));
    }
  }

  /** The two balance updates, lower id first. */
  lemma BothMoves(db: Tables, nextId: nat, req: Request, held: Work)
    requires req.TransferRequest? && req.fromId != req.toId && req.fromId in db.accounts && req.toId in db.accounts
    requires held.row.Some? && held.writes == map[]
    ensures var (result, id) := RunStages(db, req, Body, Moving(0), held, nextId, None);
      var source, target := db.accounts[req.fromId], db.accounts[req.toId];
      if source.balance < req.amount then result == Err(InsufficientBalance)
      else
        && id == nextId && result.Ok?
        && result.value.row == Some(held.row.value.(status := Completed))
        && result.value.event == Some(EventFor(held.row.value.(status := Completed)))
        && CommitAccounts(db.accounts, result.value.writes)
           == db.accounts[req.fromId := source.(balance := source.balance - req.amount)]
                         [req.toId := target.(balance := target.balance + req.amount)]
  {
    var from, to, amount := req.fromId, req.toId, req.amount;
    var debited, credited := db.accounts[from].balance - amount, db.accounts[to].balance + amount;
    var both := held.(writes := map[from := debited, to := credited]);
    if from < to && db.accounts[from].balance < amount {
      Throws(db, req, Body, Moving(0), held, nextId, InsufficientBalance);
    } else if from < to {
      var first := held.(writes := map[from := debited]);
      Passes(db, req, Body, Moving(0), held, nextId, first);
      assert first.writes[to := credited] == both.writes;
      Passes(db, req, Body, Moving(1), first, nextId, both);
      Finishes(db, req, both, nextId);
    } else {
      var first := held.(writes := map[to := credited]);
      Passes(db, req, Body, Moving(0), held, nextId, first);
      if db.accounts[from].balance < amount {
        Throws(db, req, Body, Moving(1), first, nextId, InsufficientBalance);
      } else {
        assert first.writes[from := debited] == both.writes;
        Passes(db, req, Body, Moving(1), first, nextId, both);
        Finishes(db, req, both, nextId);
      }
    }
  }

  // ---------- rejections ----------

  /** A withdrawal or transfer that a rule rejects moves no money. On a free key it is recorded under the reason
      of the first rule to reject, unless an account it names is missing; either way its reservation is given back. */
  lemma RejectionAnswers(db: Tables, nextId: nat, req: Request, verdicts: seq<Option<string>>, k: nat)
    requires !req.DepositRequest? && FindRow(db.rows, req.UniqueKey()).None?
    requires req.TransferRequest? ==> req.fromId != req.toId
    requires k < |verdicts| && verdicts[k].Some? && forall i :: 0 <= i < k ==> verdicts[i].None?
    ensures var reply := Serve(db, nextId, req, verdicts, []);
      RejectionRecorded(db, nextId, req, verdicts[k], reply)
  {
    Screened(req, verdicts);
    RejectsAt(verdicts, k);
    RejectionIsRecorded(db, nextId, req, verdicts[k]);
    RejectedWork(db, nextId, req, verdicts[k]);
  }

  /** Of a transfer to its own account the first rule is the same-account rule, whatever the others say. */
  lemma SameAccountAnswers(db: Tables, nextId: nat, req: Request, verdicts: seq<Option<string>>)
    requires req.TransferRequest? && req.fromId == req.toId && FindRow(db.rows, req.UniqueKey()).None?
    ensures var reply := Serve(db, nextId, req, verdicts, []);
      RejectionRecorded(db, nextId, req, Some("SAME_ACCOUNT_TRANSFER"), reply)
  {
    assert FraudVerdict(req, verdicts) == Some("SAME_ACCOUNT_TRANSFER");
    RejectionIsRecorded(db, nextId, req, Some("SAME_ACCOUNT_TRANSFER"));
    RejectedWork(db, nextId, req, Some("SAME_ACCOUNT_TRANSFER"));
  }

  predicate RejectionRecorded(db: Tables, nextId: nat, req: Request, reason: Option<string>, reply: Reply) {
    var key := Key(req.actor, if req.TransferRequest? then Transfer else Withdraw, req.reference);
    var to := if req.TransferRequest? then Some(req.toId) else None;
    if req.WithdrawRequest? && req.fromId !in db.accounts then Refused(reply, db, ForeignKeyViolation, true)
    else if req.TransferRequest? && (req.fromId !in db.accounts || req.toId !in db.accounts)
    then Refused(reply, db, ForeignKeyViolation, true)
    else
      && !req.DepositRequest?
      && reply.tables.accounts == db.accounts
      && reply.tables.rows == db.rows + [Row(nextId, key, Some(req.fromId), to, req.amount, Rejected, true, reason)]
      && reply.tables.events ==
         db.events + [Event(TransactionFailed, nextId, key, Some(req.fromId), to, req.amount, reason)]
      && reply.nextId == nextId + 1 && reply.outcome == Failure(FraudRejected(reason)) && reply.released
  }

  lemma RejectedWork(db: Tables, nextId: nat, req: Request, reason: Option<string>)
    requires FindRow(db.rows, req.UniqueKey()).None?
    ensures var row := RejectedRow(req, nextId, reason);
      Reject(db, nextId, req, reason, None) ==
      if NamesAccounts(db, row)
      then Attempted(Tables(db.accounts, db.rows + [row], db.events + [EventFor(row)]), nextId + 1,
                     Err(FraudRejected(reason)))
      else Attempted(db, nextId, Err(ForeignKeyViolation))
  {
    var row := RejectedRow(req, nextId, reason);
    if NamesAccounts(db, row) {
      var held := FreshWork.(row := Some(row));
      Passes(db, req, Rejection(reason), Inserting, FreshWork, nextId, held);
      Passes(db, req, Rejection(reason), Emitting, held, nextId + 1, held.(event := Some(EventFor(row))));
      assert CommitAccounts(db.accounts, map[]) == db.accounts;
    } else {
      Throws(db, req, Rejection(reason), Inserting, FreshWork, nextId, ForeignKeyViolation);
    }
  }

  // ---------- asking again ----------

  /** A completed row of the key is the answer, whatever the request now names and whatever has become of the
      accounts since; so is a recorded rejection. Nothing is written and nothing given back. */
  lemma SettledKeyAnswers(db: Tables, nextId: nat, req: Request, verdicts: seq<Option<string>>,
                          faults: seq<Option<Trouble>>)
    requires FindRow(db.rows, req.UniqueKey()).Some?
    ensures var row := FindRow(db.rows, req.UniqueKey()).value;
      var reply := Serve(db, nextId, req, verdicts, faults);
      && (row.status == Completed ==> reply == Reply(db, nextId, Success(row), false))
      && (row.status == Rejected && row.fraudReject ==>
            reply == Reply(db, nextId, Failure(FraudRejected(row.fraudReason)), false))
  {
  }

  /** A row of the key that is neither completed nor a fraud rejection decides nothing at first, so the request goes
      ahead; it ends on the unique index, in progress for a pending row and unprocessable for any other. */
  lemma UnsettledKeyAnswers(db: Tables, nextId: nat, actor: CustomerId, reference: Reference, to: AccountId,
                            amount: nat)
    requires FindRow(db.rows, Key(actor, Deposit, reference)).Some?
    requires var row := FindRow(db.rows, Key(actor, Deposit, reference)).value;
      row.status == Pending || row.status == Failed || (row.status == Rejected && !row.fraudReject)
    ensures var row := FindRow(db.rows, Key(actor, Deposit, reference)).value;
      var reply := Serve(db, nextId, DepositRequest(actor, reference, to, amount), [], []);
      && reply.tables == db
      && (to in db.accounts && db.accounts[to].owner == actor && db.accounts[to].status == Active ==>
            reply.outcome == if row.status == Pending then StillInProgress else Unprocessable)
  {
    var req := DepositRequest(actor, reference, to, amount);
    assert Reads(req)[0] == to;
    if to !in db.accounts {
      ReadsThrow(db, req, nextId);
    } else {
      ReadsPass(db, req, nextId);
      var seen := AccountsRead(db, req);
      var checked := CheckAccounts(req, seen);
      if checked.Err? {
        Throws(db, req, Body, Checking, seen, nextId, checked.error);
      } else {
        Passes(db, req, Body, Checking, seen, nextId, seen);
        Throws(db, req, Body, Inserting, seen, nextId, UniqueViolation);
      }
    }
  }

  lemma {:induction false} FoundStays(rows: seq<Row>, more: seq<Row>, key: Key)
    requires rows <= more && FindRow(rows, key).Some?
    ensures FindRow(more, key) == FindRow(rows, key)
  {
    if rows[0].key != key {
      FoundStays(rows[1..], more[1..], key);
    }
  }

  lemma {:induction false} FoundLast(rows: seq<Row>, row: Row)
    requires FindRow(rows, row.key).None?
    ensures FindRow(rows + [row], row.key) == Some(row)
  {
    if |rows| > 0 {
      assert (rows + [row])[0] == rows[0] && (rows + [row])[1..] == rows[1..] + [row];
      FoundLast(rows[1..], row);
    }
  }

  /** Work that reaches the commit has claimed a free key with this row. */
  lemma {:induction false} WorkClaims(db: Tables, req: Request, purpose: Purpose, stage: Stage, work: Work,
                                      nextId: nat, fault: Option<Trouble>)
    requires !(stage.Reading? && stage.next >= |Reads(req)|) && !(stage.Moving? && stage.done >= |Moves(req)|)
    requires Inserted(stage) ==> work.row.Some? && work.row.value.key == req.UniqueKey()
    requires Inserted(stage) ==> FindRow(db.rows, req.UniqueKey()).None?
    requires stage == Emitting || stage == Committing ==> SettledAs(purpose, work)
    requires stage.Moving? || stage == Marking ==> purpose == Body
    requires stage == Inserting && purpose.Rejection? ==> work == FreshWork
    requires stage.Reading? || stage == Checking ==> purpose == Body
    ensures var (result, _) := RunStages(db, req, purpose, stage, work, nextId, fault);
      result.Ok? ==>
        && FindRow(db.rows, req.UniqueKey()).None? && SettledAs(purpose, result.value)
        && result.value.row.value.key == req.UniqueKey()
    decreases StagesLeft(req, stage)
  {
    if !Trips(fault, stage) && stage != Committing {
      match Statement(db, req, purpose, stage, work, nextId)
      case Err(_) =>
      case Ok(work') =>
        WorkClaims(db, req, purpose, NextStage(req, purpose, stage), work',
                   if stage == Inserting then nextId + 1 else nextId, fault);
    }
  }

  predicate Inserted(stage: Stage) {
    stage.Moving? || stage == Marking || stage == Emitting || stage == Committing
  }

  predicate SettledAs(purpose: Purpose, work: Work) {
    work.row.Some? &&
    match purpose
    case Body => work.row.value.status == Completed
    case Rejection(reason) =>
      work.row.value.status == Rejected && work.row.value.fraudReject && work.row.value.fraudReason == reason
  }

  /** What an answer that names a transaction leaves under the key. */
  predicate Names(rows: seq<Row>, key: Key, outcome: Outcome) {
    match outcome
    case Success(row) => FindRow(rows, key) == Some(row) && row.status == Completed
    case Failure(FraudRejected(reason)) =>
      FindRow(rows, key).Some? && FindRow(rows, key).value.status == Rejected &&
      FindRow(rows, key).value.fraudReject && FindRow(rows, key).value.fraudReason == reason
    case _ => false
  }

  /** A fault that does not come to pass changes nothing. */
  lemma {:induction false} FaultOrNot(db: Tables, req: Request, purpose: Purpose, stage: Stage, work: Work,
                                      nextId: nat, fault: Option<Trouble>)
    ensures var (result, id) := RunStages(db, req, purpose, stage, work, nextId, fault);
      && nextId <= id
      && (RunStages(db, req, purpose, stage, work, nextId, None) == (result, id) ||
          (fault.Some? && result == Err(Technical(fault.value.retryable))))
    decreases StagesLeft(req, stage)
  {
    if stage != Committing && !(stage.Reading? && stage.next >= |Reads(req)|) &&
       !(stage.Moving? && stage.done >= |Moves(req)|) {
      match Statement(db, req, purpose, stage, work, nextId)
      case Err(_) =>
      case Ok(work') =>
        FaultOrNot(db, req, purpose, NextStage(req, purpose, stage), work',
                   if stage == Inserting then nextId + 1 else nextId, fault);
    }
  }

  /** No statement throws a technical error or a rejection by itself. */
  lemma {:induction false} PlainErrors(db: Tables, req: Request, purpose: Purpose, stage: Stage, work: Work,
                                       nextId: nat)
    ensures var (result, _) := RunStages(db, req, purpose, stage, work, nextId, None);
      result.Err? ==> !result.error.Technical? && !result.error.FraudRejected?
    decreases StagesLeft(req, stage)
  {
    if stage != Committing && !(stage.Reading? && stage.next >= |Reads(req)|) &&
       !(stage.Moving? && stage.done >= |Moves(req)|) {
      match Statement(db, req, purpose, stage, work, nextId)
      case Err(_) =>
      case Ok(work') =>
        PlainErrors(db, req, purpose, NextStage(req, purpose, stage), work',
                    if stage == Inserting then nextId + 1 else nextId);
    }
  }

  lemma {:induction false} AttemptsName(db: Tables, nextId: nat, req: Request, attempt: nat,
                                        faults: seq<Option<Trouble>>)
    requires attempt < TRANSFER_ATTEMPTS
    ensures var attempted := Attempts(db, nextId, req, attempt, faults);
      match attempted.result
      case Ok(row) => Names(attempted.tables.rows, req.UniqueKey(), Success(row))
      case Err(err) => attempted.tables == db && !err.FraudRejected?
    decreases TRANSFER_ATTEMPTS - attempt
  {
    var fault := FaultOf(faults, attempt);
    var (result, id) := RunStages(db, req, Body, Reading(0), FreshWork, nextId, fault);
    WorkClaims(db, req, Body, Reading(0), FreshWork, nextId, fault);
    FaultOrNot(db, req, Body, Reading(0), FreshWork, nextId, fault);
    PlainErrors(db, req, Body, Reading(0), FreshWork, nextId);
    if result.Ok? {
      FoundLast(db.rows, result.value.row.value);
    } else if req.TransferRequest? && attempt + 1 < TRANSFER_ATTEMPTS && result.error == Technical(true) {
      AttemptsName(db, id, req, attempt + 1, faults);
    }
  }

  lemma RejectNames(db: Tables, nextId: nat, req: Request, reason: Option<string>, fault: Option<Trouble>)
    ensures var attempted := Reject(db, nextId, req, reason, fault);
      && attempted.result.Err?
      && (attempted.result.error.FraudRejected? ==>
            Names(attempted.tables.rows, req.UniqueKey(), Failure(attempted.result.error)))
      && (!attempted.result.error.FraudRejected? ==> attempted.tables == db)
  {
    var (result, _) := RunStages(db, req, Rejection(reason), Inserting, FreshWork, nextId, fault);
    WorkClaims(db, req, Rejection(reason), Inserting, FreshWork, nextId, fault);
    FaultOrNot(db, req, Rejection(reason), Inserting, FreshWork, nextId, fault);
    PlainErrors(db, req, Rejection(reason), Inserting, FreshWork, nextId);
    if result.Ok? {
      FoundLast(db.rows, result.value.row.value);
    }
  }

  /** A rejection on a free key is never answered with a success. */
  lemma RejectedIsNoSuccess(db: Tables, nextId: nat, req: Request, reason: Option<string>, fault: Option<Trouble>)
    requires FindRow(db.rows, req.UniqueKey()).None?
    ensures !Finish(req, Reject(db, nextId, req, reason, fault)).outcome.Success?
  {
    RejectNames(db, nextId, req, reason, fault);
  }

  lemma ServeNames(db: Tables, nextId: nat, req: Request, verdicts: seq<Option<string>>, faults: seq<Option<Trouble>>)
    ensures var reply := Serve(db, nextId, req, verdicts, faults);
      reply.outcome.Success? || (reply.outcome.Failure? && reply.outcome.error.FraudRejected?) ==>
        Names(reply.tables.rows, req.UniqueKey(), reply.outcome)
  {
    if ResolveExisting(FindRow(db.rows, req.UniqueKey())).None? {
      var verdict := if req.DepositRequest? then None else FraudVerdict(req, verdicts);
      if verdict.Some? {
        RejectNames(db, nextId, req, verdict, FaultOf(faults, 0));
      } else {
        AttemptsName(db, nextId, req, 0, faults);
      }
    }
  }

  /** Whoever asks again under the key of an answered request gets that answer, at any later time: with other
      amounts or accounts, with the accounts frozen or emptied since, and with whatever rows were added. */
  lemma RepeatAnswers(db: Tables, nextId: nat, req: Request, verdicts: seq<Option<string>>,
                      faults: seq<Option<Trouble>>, later: Tables, laterId: nat, again: Request,
                      laterVerdicts: seq<Option<string>>, laterFaults: seq<Option<Trouble>>)
    requires again.actor == req.actor && again.Operation() == req.Operation() && again.reference == req.reference
    requires Serve(db, nextId, req, verdicts, faults).tables.rows <= later.rows
    ensures var outcome := Serve(db, nextId, req, verdicts, faults).outcome;
      outcome.Success? || (outcome.Failure? && outcome.error.FraudRejected?) ==>
        Serve(later, laterId, again, laterVerdicts, laterFaults) == Reply(later, laterId, outcome, false)
  {
    var reply := Serve(db, nextId, req, verdicts, faults);
    ServeNames(db, nextId, req, verdicts, faults);
    if reply.outcome.Success? || (reply.outcome.Failure? && reply.outcome.error.FraudRejected?) {
      FoundStays(reply.tables.rows, later.rows, req.UniqueKey());
      SettledKeyAnswers(later, laterId, again, laterVerdicts, laterFaults);
    }
  }

  // ---------- giving the reservation back ----------

  /** The unique index refuses only a key that is taken. */
  lemma {:induction false} ViolationMeansTaken(db: Tables, req: Request, purpose: Purpose, stage: Stage, work: Work,
                                               nextId: nat, fault: Option<Trouble>)
    ensures RunStages(db, req, purpose, stage, work, nextId, fault).0 == Err(UniqueViolation) ==>
              FindRow(db.rows, req.UniqueKey()).Some?
    decreases StagesLeft(req, stage)
  {
    if !Trips(fault, stage) && stage != Committing && !(stage.Reading? && stage.next >= |Reads(req)|) &&
       !(stage.Moving? && stage.done >= |Moves(req)|) {
      match Statement(db, req, purpose, stage, work, nextId)
      case Err(_) =>
      case Ok(work') =>
        ViolationMeansTaken(db, req, purpose, NextStage(req, purpose, stage), work',
                            if stage == Inserting then nextId + 1 else nextId, fault);
    }
  }

  lemma {:induction false} AttemptsViolate(db: Tables, nextId: nat, req: Request, attempt: nat,
                                           faults: seq<Option<Trouble>>)
    requires attempt < TRANSFER_ATTEMPTS
    ensures Attempts(db, nextId, req, attempt, faults).result == Err(UniqueViolation) ==>
              FindRow(db.rows, req.UniqueKey()).Some?
    decreases TRANSFER_ATTEMPTS - attempt
  {
    var fault := FaultOf(faults, attempt);
    var (result, id) := RunStages(db, req, Body, Reading(0), FreshWork, nextId, fault);
    ViolationMeansTaken(db, req, Body, Reading(0), FreshWork, nextId, fault);
    if result.Err? && req.TransferRequest? && attempt + 1 < TRANSFER_ATTEMPTS && result.error == Technical(true) {
      AttemptsViolate(db, id, req, attempt + 1, faults);
    }
  }

  /** Whatever throws, the reservation is given back exactly when a withdrawal or transfer whose key no settled
      row decides ends in an error; a completed one keeps it, and one that lost its key leaves it to the winner. */
  lemma ReleasedExactly(db: Tables, nextId: nat, req: Request, verdicts: seq<Option<string>>,
                        faults: seq<Option<Trouble>>)
    ensures var reply := Serve(db, nextId, req, verdicts, faults);
      var existing := FindRow(db.rows, req.UniqueKey());
      var decided := existing.Some? && (existing.value.status == Completed ||
                                        (existing.value.status == Rejected && existing.value.fraudReject));
      reply.released <==> !req.DepositRequest? && !decided && reply.outcome.Failure?
  {
    if ResolveExisting(FindRow(db.rows, req.UniqueKey())).None? {
      var verdict := if req.DepositRequest? then None else FraudVerdict(req, verdicts);
      if verdict.Some? {
        RejectNames(db, nextId, req, verdict, FaultOf(faults, 0));
        ViolationMeansTaken(db, req, Rejection(verdict), Inserting, FreshWork, nextId, FaultOf(faults, 0));
      } else {
        AttemptsName(db, nextId, req, 0, faults);
        AttemptsViolate(db, nextId, req, 0, faults);
      }
    }
  }

  // ---------- faults and retries ----------

  lemma {:induction false} AttemptsFail(db: Tables, nextId: nat, req: Request, attempt: nat,
                                        faults: seq<Option<Trouble>>) returns (id: nat)
    requires attempt < TRANSFER_ATTEMPTS
    ensures id >= nextId
    ensures var attempted := Attempts(db, nextId, req, attempt, faults);
      (attempted.tables == db && attempted.result.Err? && attempted.result.error.Technical?) ||
      attempted == Attempts(db, id, req, 0, [])
    decreases TRANSFER_ATTEMPTS - attempt
  {
    id := nextId;
    var fault := FaultOf(faults, attempt);
    var (result, next) := RunStages(db, req, Body, Reading(0), FreshWork, nextId, fault);
    FaultOrNot(db, req, Body, Reading(0), FreshWork, nextId, fault);
    PlainErrors(db, req, Body, Reading(0), FreshWork, nextId);
    if result.Err? && req.TransferRequest? && attempt + 1 < TRANSFER_ATTEMPTS && result.error == Technical(true) {
      id := AttemptsFail(db, next, req, attempt + 1, faults);
    }
  }

  /** Whatever throws, in whichever attempts: a request either answers with a technical error and leaves the
      tables as they were, or does exactly what it does undisturbed, from a later id. */
  lemma FaultsOnlyFail(db: Tables, nextId: nat, req: Request, verdicts: seq<Option<string>>,
                       faults: seq<Option<Trouble>>) returns (id: nat)
    ensures id >= nextId
    ensures var reply := Serve(db, nextId, req, verdicts, faults);
      || reply == Serve(db, id, req, verdicts, [])
      || (reply.tables == db && reply.outcome.Failure? && reply.outcome.error.Technical?)
  {
    id := nextId;
    if ResolveExisting(FindRow(db.rows, req.UniqueKey())).None? {
      var verdict := if req.DepositRequest? then None else FraudVerdict(req, verdicts);
      if verdict.Some? {
        FaultOrNot(db, req, Rejection(verdict), Inserting, FreshWork, nextId, FaultOf(faults, 0));
        PlainErrors(db, req, Rejection(verdict), Inserting, FreshWork, nextId);
      } else {
        id := AttemptsFail(db, nextId, req, 0, faults);
      }
    }
  }

  /** An error at once, before anything is read. */
  function Blow(retryable: bool): Option<Trouble> {
    Some(Trouble(Reading(0), retryable))
  }

  /** Deposits and withdrawals are tried once. */
  lemma OneAttempt(db: Tables, nextId: nat, req: Request, verdicts: seq<Option<string>>, retryable: bool)
    requires FindRow(db.rows, req.UniqueKey()).None? && forall i :: 0 <= i < |verdicts| ==> verdicts[i].None?
    requires !req.TransferRequest?
    ensures Refused(Serve(db, nextId, req, verdicts, [Blow(retryable)]), db, Technical(retryable), !req.DepositRequest?)
  {
    Approved(req, verdicts);
  }

  /** A transfer is tried again after a retryable error, and only then, and three times in all. */
  lemma ThreeAttempts(db: Tables, nextId: nat, req: Request, verdicts: seq<Option<string>>, fourth: Option<Trouble>)
    requires FindRow(db.rows, req.UniqueKey()).None? && forall i :: 0 <= i < |verdicts| ==> verdicts[i].None?
    requires req.TransferRequest? && req.fromId != req.toId
    ensures Refused(Serve(db, nextId, req, verdicts, [Blow(false)]), db, Technical(false), true)
    ensures Serve(db, nextId, req, verdicts, [Blow(true)]) == Serve(db, nextId, req, verdicts, [])
    ensures Refused(Serve(db, nextId, req, verdicts, [Blow(true), Blow(false)]), db, Technical(false), true)
    ensures Serve(db, nextId, req, verdicts, [Blow(true), Blow(true)]) == Serve(db, nextId, req, verdicts, [])
    ensures Refused(Serve(db, nextId, req, verdicts, [Blow(true), Blow(true), Blow(true), fourth]), db,
                    Technical(true), true)
  {
    Approved(req, verdicts);
    LastAttempt(db, nextId, req, [Blow(true)]);
    LastAttempt(db, nextId, req, [Blow(true), Blow(true)]);
    Blown(db, nextId, req, [Blow(false)], 0);
    Blown(db, nextId, req, [Blow(true)], 0);
    Blown(db, nextId, req, [Blow(true), Blow(false)], 0);
    Blown(db, nextId, req, [Blow(true), Blow(false)], 1);
    Blown(db, nextId, req, [Blow(true), Blow(true)], 0);
    Blown(db, nextId, req, [Blow(true), Blow(true)], 1);
    var faults := [Blow(true), Blow(true), Blow(true), fourth];
    Blown(db, nextId, req, faults, 0);
    Blown(db, nextId, req, faults, 1);
    Blown(db, nextId, req, faults, 2);
  }

  /** What an attempt does that throws at once. */
  lemma Blown(db: Tables, nextId: nat, req: Request, faults: seq<Option<Trouble>>, k: nat)
    requires k < |faults| && k < TRANSFER_ATTEMPTS && (faults[k] == Blow(true) || faults[k] == Blow(false))
    requires req.TransferRequest?
    ensures Attempts(db, nextId, req, k, faults)
         == if k < 2 && faults[k] == Blow(true) then Attempts(db, nextId, req, k + 1, faults)
            else Attempted(db, nextId, Err(Technical(faults[k].value.retryable)))
  {
  }

  lemma Approved(req: Request, verdicts: seq<Option<string>>)
    requires forall i :: 0 <= i < |verdicts| ==> verdicts[i].None?
    requires req.TransferRequest? ==> req.fromId != req.toId
    ensures FraudVerdict(req, verdicts).None?
  {
    Screened(req, verdicts);
    NoReject(verdicts);
  }

  /** An attempt beyond the faults is the undisturbed one: no statement throws a technical error by itself. */
  lemma LastAttempt(db: Tables, nextId: nat, req: Request, faults: seq<Option<Trouble>>)
    requires |faults| < TRANSFER_ATTEMPTS
    ensures Attempts(db, nextId, req, |faults|, faults) == Attempts(db, nextId, req, 0, [])
  {
    var fault := FaultOf(faults, |faults|);
    FaultOrNot(db, req, Body, Reading(0), FreshWork, nextId, fault);
    PlainErrors(db, req, Body, Reading(0), FreshWork, nextId);
    assert fault == FaultOf([], 0);
  }
}
