/**
 The service as written: tables updated in place, one transaction object per attempt, the retry loop
 of a transfer and its loop over the two account ids. Each method is proved to do what LedgerSerial
 says. Fraud verdicts and technical faults, which come from outside, are parameters.
 */
module TransactionsService {
  import opened Prelude
  import opened LedgerStatements
  import opened LedgerMachine
  import opened LedgerSerial

  class Database {
    var accounts: map<AccountId, Account>
    var rows: seq<Row>
    var events: seq<Event>
    var nextId: nat

    constructor (accounts: map<AccountId, Account>)
      ensures View() == Tables(accounts, [], []) && nextId == 0
    {
      this.accounts, rows, events, nextId := accounts, [], [], 0;
    }

    function View(): Tables
      reads this
    {
      Tables(accounts, rows, events)
    }
  }

  /** An open transaction: what it has read and written so far. */
  class TransactionClient {
    const db: Database
    var seen: map<AccountId, Account>
    var row: Option<Row>
    var event: Option<Event>
    var writes: map<AccountId, int>

    constructor (db: Database)
      ensures this.db == db && View() == FreshWork
    {
      this.db := db;
      seen, row, event, writes := map[], None, None, map[];
    }

    function View(): Work
      reads this
    {
      Work(seen, row, event, writes)
    }

    method Commit()
      modifies db
      ensures db.View() == LedgerStatements.Commit(old(db.View()), View())
      ensures db.nextId == old(db.nextId)
    {
      db.accounts := CommitAccounts(db.accounts, writes);
      if row.Some? {
        db.rows := db.rows + [row.value];
      }
      if event.Some? {
        db.events := db.events + [event.value];
      }
    }

    method FindAccount(id: AccountId) returns (r: Result<Account, Error>)
      modifies this`seen
      ensures var read := ReadAccount(db.View(), old(View()), id);
        match read
        case Ok(work) => View() == work && r == Ok(db.accounts[id])
        case Err(err) => View() == old(View()) && r == Err(err)
    {
      if id !in db.accounts {
        return Err(AccountNotFound);
      }
      seen := seen[id := db.accounts[id]];
      r := Ok(db.accounts[id]);
    }
  }

  /** TransactionRepository and TransactionEventWriter. */
  class TransactionRepository {
    constructor () {}

    method Create(tx: TransactionClient, row: Row) returns (r: Result<Row, Error>)
      requires row.id == tx.db.nextId
      modifies tx`row, tx.db`nextId
      ensures match Insert(tx.db.View(), old(tx.View()), row)
        case Ok(work) => tx.View() == work && r == Ok(row) && tx.db.nextId == old(tx.db.nextId) + 1
        case Err(err) => tx.View() == old(tx.View()) && r == Err(err) && tx.db.nextId == old(tx.db.nextId)
    {
      var existing := FindRow(tx.db.rows, row.key);
      if existing.Some? {
        return Err(UniqueViolation);
      }
      if (row.from.Some? && row.from.value !in tx.db.accounts) || (row.to.Some? && row.to.value !in tx.db.accounts) {
        return Err(ForeignKeyViolation);
      }
      tx.row := Some(row);
      tx.db.nextId := tx.db.nextId + 1;
      r := Ok(row);
    }

    method IncrementBalance(tx: TransactionClient, id: AccountId, amount: nat) returns (r: Result<bool, Error>)
      modifies tx`writes
      ensures match ApplyMove(tx.db.View(), old(tx.View()), Credit(id), amount)
        case Ok(work) => tx.View() == work && r.Ok?
        case Err(err) => tx.View() == old(tx.View()) && r == Err(err)
    {
      if id !in tx.db.accounts {
        return Err(RecordNotFound);
      }
      var balance := if id in tx.writes then tx.writes[id] else tx.db.accounts[id].balance;
      tx.writes := tx.writes[id := balance + amount];
      r := Ok(true);
    }

    /** Answers how many rows the guarded update matched. */
    method DecrementBalance(tx: TransactionClient, id: AccountId, amount: nat) returns (count: nat)
      modifies tx`writes
      ensures count <= 1
      ensures match ApplyMove(tx.db.View(), old(tx.View()), Debit(id), amount)
        case Ok(work) => tx.View() == work && count == 1
        case Err(err) => tx.View() == old(tx.View()) && count == 0 && err == InsufficientBalance
    {
      if id !in tx.db.accounts {
        return 0;
      }
      var balance := if id in tx.writes then tx.writes[id] else tx.db.accounts[id].balance;
      if balance < amount {
        return 0;
      }
      tx.writes := tx.writes[id := balance - amount];
      count := 1;
    }

    method MarkCompleted(tx: TransactionClient) returns (r: Result<Row, Error>)
      modifies tx`row
      ensures match LedgerStatements.MarkCompleted(old(tx.View()))
        case Ok(work) => tx.View() == work && tx.row.Some? && r == Ok(tx.row.value)
        case Err(err) => tx.View() == old(tx.View()) && r == Err(err)
    {
      if tx.row.None? {
        return Err(RecordNotFound);
      }
      tx.row := Some(tx.row.value.(status := Completed));
      r := Ok(tx.row.value);
    }

    method CreateEvent(tx: TransactionClient) returns (r: Result<bool, Error>)
      modifies tx`event
      ensures match EmitEvent(old(tx.View()))
        case Ok(work) => tx.View() == work && r.Ok?
        case Err(err) => tx.View() == old(tx.View()) && r == Err(err)
    {
      if tx.row.None? {
        return Err(RecordNotFound);
      }
      tx.event := Some(EventFor(tx.row.value));
      r := Ok(true);
    }
  }

  /** The statement about to run throws when a fault is due at it. */
  function Await(fault: Option<Trouble>, stage: Stage): Result<bool, Error> {
    if Trips(fault, stage) then Err(Technical(fault.value.retryable)) else Ok(true)
  }

  class Service {
    const db: Database
    const repository: TransactionRepository

    constructor (db: Database)
      ensures this.db == db
    {
      this.db := db;
      repository := new TransactionRepository();
    }

    /** Completes the pending row, writes its event and passes the commit. */
    method CompleteAndEmit(tx: TransactionClient, req: Request, fault: Option<Trouble>) returns (r: Result<bool, Error>)
      requires tx.db == db
      modifies tx
      ensures var (result, id) := RunStages(db.View(), req, Body, Marking, old(tx.View()), db.nextId, fault);
        id == db.nextId &&
        match result
        case Ok(work) => r.Ok? && tx.View() == work
        case Err(err) => r == Err(err)
    {
      ghost var goal := RunStages(db.View(), req, Body, Marking, tx.View(), db.nextId, fault);
      var _ :- Await(fault, Marking);
      var _ :- repository.MarkCompleted(tx);
      assert goal == RunStages(db.View(), req, Body, Emitting, tx.View(), db.nextId, fault);
      var _ :- Await(fault, Emitting);
      r := repository.CreateEvent(tx);
      if r.Err? {
        return;
      }
      assert goal == RunStages(db.View(), req, Body, Committing, tx.View(), db.nextId, fault);
      var _ :- Await(fault, Committing);
      r := Ok(true);
    }

    method DepositBody(tx: TransactionClient, req: Request, fault: Option<Trouble>) returns (r: Result<bool, Error>)
      requires tx.db == db && req.DepositRequest? && tx.View() == FreshWork
      modifies tx, db`nextId
      ensures var (result, id) := RunStages(db.View(), req, Body, Reading(0), FreshWork, old(db.nextId), fault);
        id == db.nextId &&
        match result
        case Ok(work) => r.Ok? && tx.View() == work
        case Err(err) => r == Err(err)
    {
      ghost var goal := RunStages(db.View(), req, Body, Reading(0), FreshWork, db.nextId, fault);
      var _ :- Await(fault, Reading(0));
      var account :- tx.FindAccount(req.toId);
      assert goal == RunStages(db.View(), req, Body, Checking, tx.View(), db.nextId, fault);
      var _ :- Await(fault, Checking);
      var _ :- CheckOwned(req.actor, req.toId, tx.View());
      assert goal == RunStages(db.View(), req, Body, Inserting, tx.View(), db.nextId, fault);
      var _ :- Await(fault, Inserting);
      var _ :- repository.Create(tx, PendingRow(req, db.nextId));
      assert goal == RunStages(db.View(), req, Body, Moving(0), tx.View(), db.nextId, fault);
      var _ :- Await(fault, Moving(0));
      r := repository.IncrementBalance(tx, req.toId, req.amount);
      if r.Err? {
        return;
      }
      assert goal == RunStages(db.View(), req, Body, Marking, tx.View(), db.nextId, fault);
      r := CompleteAndEmit(tx, req, fault);
    }

    method WithdrawBody(tx: TransactionClient, req: Request, fault: Option<Trouble>) returns (r: Result<bool, Error>)
      requires tx.db == db && req.WithdrawRequest? && tx.View() == FreshWork
      modifies tx, db`nextId
      ensures var (result, id) := RunStages(db.View(), req, Body, Reading(0), FreshWork, old(db.nextId), fault);
        id == db.nextId &&
        match result
        case Ok(work) => r.Ok? && tx.View() == work
        case Err(err) => r == Err(err)
    {
      ghost var goal := RunStages(db.View(), req, Body, Reading(0), FreshWork, db.nextId, fault);
      var _ :- Await(fault, Reading(0));
      var account :- tx.FindAccount(req.fromId);
      assert goal == RunStages(db.View(), req, Body, Checking, tx.View(), db.nextId, fault);
      var _ :- Await(fault, Checking);
      var _ :- CheckOwned(req.actor, req.fromId, tx.View());
      assert goal == RunStages(db.View(), req, Body, Inserting, tx.View(), db.nextId, fault);
      var _ :- Await(fault, Inserting);
      var _ :- repository.Create(tx, PendingRow(req, db.nextId));
      assert goal == RunStages(db.View(), req, Body, Moving(0), tx.View(), db.nextId, fault);
      var _ :- Await(fault, Moving(0));
      var count := repository.DecrementBalance(tx, req.fromId, req.amount);
      if count != 1 {
        return Err(InsufficientBalance);
      }
      assert goal == RunStages(db.View(), req, Body, Marking, tx.View(), db.nextId, fault);
      r := CompleteAndEmit(tx, req, fault);
    }

    /** Moves balances in ascending id order, debiting whichever id is the source. */
    method MoveBalances(tx: TransactionClient, req: Request, fault: Option<Trouble>) returns (r: Result<bool, Error>)
      requires tx.db == db && req.TransferRequest?
      modifies tx`writes
      ensures match r
        case Ok(_) => RunStages(db.View(), req, Body, Moving(0), old(tx.View()), db.nextId, fault)
                   == RunStages(db.View(), req, Body, Marking, tx.View(), db.nextId, fault)
        case Err(err) =>
          RunStages(db.View(), req, Body, Moving(0), old(tx.View()), db.nextId, fault) == (Err(err), db.nextId)
    {
      ghost var goal := RunStages(db.View(), req, Body, Moving(0), tx.View(), db.nextId, fault);
      var ids := if req.fromId < req.toId then [req.fromId, req.toId] else [req.toId, req.fromId];
      for i := 0 to |ids|
        invariant i < 2 ==> goal == RunStages(db.View(), req, Body, Moving(i), tx.View(), db.nextId, fault)
        invariant i == 2 ==> goal == RunStages(db.View(), req, Body, Marking, tx.View(), db.nextId, fault)
      {
        assert Moves(req)[i] == MoveOf(req.fromId, ids[i]);
        var _ :- Await(fault, Moving(i));
        if ids[i] == req.fromId {
          var count := repository.DecrementBalance(tx, req.fromId, req.amount);
          if count != 1 {
            return Err(InsufficientBalance);
          }
        } else {
          var _ :- repository.IncrementBalance(tx, req.toId, req.amount);
        }
      }
      r := Ok(true);
    }

    method TransferBody(tx: TransactionClient, req: Request, fault: Option<Trouble>) returns (r: Result<bool, Error>)
      requires tx.db == db && req.TransferRequest? && tx.View() == FreshWork
      modifies tx, db`nextId
      ensures var (result, id) := RunStages(db.View(), req, Body, Reading(0), FreshWork, old(db.nextId), fault);
        id == db.nextId &&
        match result
        case Ok(work) => r.Ok? && tx.View() == work
        case Err(err) => r == Err(err)
    {
      ghost var goal := RunStages(db.View(), req, Body, Reading(0), FreshWork, db.nextId, fault);
      var _ :- Await(fault, Reading(0));
      var fromAccount :- tx.FindAccount(req.fromId);
      assert goal == RunStages(db.View(), req, Body, Reading(1), tx.View(), db.nextId, fault);
      var _ :- Await(fault, Reading(1));
      var toAccount :- tx.FindAccount(req.toId);
      assert goal == RunStages(db.View(), req, Body, Checking, tx.View(), db.nextId, fault);
      var _ :- Await(fault, Checking);
      var _ :- CheckOwned(req.actor, req.fromId, tx.View());
      if toAccount.status != Active {
        return Err(NotActive);
      }
      assert goal == RunStages(db.View(), req, Body, Inserting, tx.View(), db.nextId, fault);
      var _ :- Await(fault, Inserting);
      var _ :- repository.Create(tx, PendingRow(req, db.nextId));
      assert goal == RunStages(db.View(), req, Body, Moving(0), tx.View(), db.nextId, fault);
      var _ :- MoveBalances(tx, req, fault);
      r := CompleteAndEmit(tx, req, fault);
    }

    /** Records a fraud rejection, then throws it. */
    method RejectRequest(req: Request, reason: Option<string>, fault: Option<Trouble>) returns (err: Error)
      modifies db
      ensures Attempted(db.View(), db.nextId, Err(err)) == Reject(old(db.View()), old(db.nextId), req, reason, fault)
    {
      var tx := new TransactionClient(db);
      var r := RejectionBody(tx, req, reason, fault);
      if r.Err? {
        return r.error;
      }
      tx.Commit();
      err := FraudRejected(reason);
    }

    method RejectionBody(tx: TransactionClient, req: Request, reason: Option<string>, fault: Option<Trouble>)
      returns (r: Result<bool, Error>)
      requires tx.db == db && tx.View() == FreshWork
      modifies tx, db`nextId
      ensures var (result, id) :=
        RunStages(db.View(), req, Rejection(reason), Inserting, FreshWork, old(db.nextId), fault);
        id == db.nextId &&
        match result
        case Ok(work) => r.Ok? && tx.View() == work
        case Err(err) => r == Err(err)
    {
      ghost var goal := RunStages(db.View(), req, Rejection(reason), Inserting, FreshWork, db.nextId, fault);
      var _ :- Await(fault, Inserting);
      var _ :- repository.Create(tx, RejectedRow(req, db.nextId, reason));
      assert goal == RunStages(db.View(), req, Rejection(reason), Emitting, tx.View(), db.nextId, fault);
      var _ :- Await(fault, Emitting);
      r := repository.CreateEvent(tx);
      if r.Err? {
        return;
      }
      assert goal == RunStages(db.View(), req, Rejection(reason), Committing, tx.View(), db.nextId, fault);
      var _ :- Await(fault, Committing);
      r := Ok(true);
    }

    /** One `$transaction` call: the body's work is committed, or dropped when the body throws. */
    method Attempt(req: Request, fault: Option<Trouble>) returns (r: Result<Row, Error>)
      modifies db
      ensures var (result, id) := RunStages(old(db.View()), req, Body, Reading(0), FreshWork, old(db.nextId), fault);
        id == db.nextId &&
        match result
        case Ok(work) =>
          db.View() == LedgerStatements.Commit(old(db.View()), work) &&
          r == (if work.row.Some? then Ok(work.row.value) else Err(RecordNotFound))
        case Err(err) => db.View() == old(db.View()) && r == Err(err)
    {
      var tx := new TransactionClient(db);
      var body;
      match req {
        case DepositRequest(_, _, _, _) => body := DepositBody(tx, req, fault);
        case WithdrawRequest(_, _, _, _) => body := WithdrawBody(tx, req, fault);
        case TransferRequest(_, _, _, _, _) => body := TransferBody(tx, req, fault);
      }
      if body.Err? {
        return Err(body.error);
      }
      tx.Commit();
      r := if tx.row.Some? then Ok(tx.row.value) else Err(RecordNotFound);
    }

    method CreateDeposit(req: Request, faults: seq<Option<Trouble>>) returns (outcome: Outcome)
      requires req.DepositRequest?
      modifies db
      ensures Reply(db.View(), db.nextId, outcome, false) == Serve(old(db.View()), old(db.nextId), req, [], faults)
    {
      var settled := ResolveExisting(FindRow(db.rows, req.UniqueKey()));
      if settled.Some? {
        return settled.value;
      }
      var r := Attempt(req, FaultOf(faults, 0));
      match r {
        case Ok(row) => outcome := Success(row);
        case Err(err) => outcome := ResolveFallback(err, FindRow(db.rows, req.UniqueKey()));
      }
    }

    method CreateWithdraw(req: Request, verdicts: seq<Option<string>>, faults: seq<Option<Trouble>>)
      returns (outcome: Outcome, released: bool)
      requires req.WithdrawRequest?
      modifies db
      ensures Reply(db.View(), db.nextId, outcome, released) ==
              Serve(old(db.View()), old(db.nextId), req, verdicts, faults)
    {
      released := false;
      var settled := ResolveExisting(FindRow(db.rows, req.UniqueKey()));
      if settled.Some? {
        outcome := settled.value;
        return;
      }
      var error: Error;
      var verdict := FraudVerdict(req, verdicts);
      if verdict.Some? {
        error := RejectRequest(req, verdict, FaultOf(faults, 0));
      } else {
        var r := Attempt(req, FaultOf(faults, 0));
        if r.Ok? {
          outcome := Success(r.value);
          return;
        }
        error := r.error;
      }
      released := error != UniqueViolation;
      outcome := ResolveFallback(error, FindRow(db.rows, req.UniqueKey()));
    }

    /** Up to three attempts; only a retryable error leads to the next one. */
    method TransferAttempts(req: Request, faults: seq<Option<Trouble>>) returns (r: Result<Row, Error>)
      requires req.TransferRequest?
      modifies db
      ensures Attempted(db.View(), db.nextId, r) == Attempts(old(db.View()), old(db.nextId), req, 0, faults)
    {
      var lastError := RecordNotFound;
      var attempt := 0;
      while attempt < TRANSFER_ATTEMPTS
        invariant attempt < TRANSFER_ATTEMPTS
        invariant Attempts(db.View(), db.nextId, req, attempt, faults)
               == Attempts(old(db.View()), old(db.nextId), req, 0, faults)
        decreases TRANSFER_ATTEMPTS - attempt
      {
        r := Attempt(req, FaultOf(faults, attempt));
        if r.Ok? {
          return;
        }
        lastError := r.error;
        if attempt < TRANSFER_ATTEMPTS - 1 && lastError == Technical(true) {
          attempt := attempt + 1;
        } else {
          return;
        }
      }
    }

    method CreateTransfer(req: Request, verdicts: seq<Option<string>>, faults: seq<Option<Trouble>>)
      returns (outcome: Outcome, released: bool)
      requires req.TransferRequest?
      modifies db
      ensures Reply(db.View(), db.nextId, outcome, released) ==
              Serve(old(db.View()), old(db.nextId), req, verdicts, faults)
    {
      released := false;
      var settled := ResolveExisting(FindRow(db.rows, req.UniqueKey()));
      if settled.Some? {
        outcome := settled.value;
        return;
      }
      var error: Error;
      var verdict := FraudVerdict(req, verdicts);
      if verdict.Some? {
        error := RejectRequest(req, verdict, FaultOf(faults, 0));
      } else {
        var r := TransferAttempts(req, faults);
        if r.Ok? {
          outcome := Success(r.value);
          return;
        }
        error := r.error;
      }
      released := error != UniqueViolation;
      outcome := ResolveFallback(error, FindRow(db.rows, req.UniqueKey()));
    }
  }
}
