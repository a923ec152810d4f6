/**
 The tables behind the money path and the SQL statements that a deposit, a withdrawal or a
 transfer sends inside one database transaction. A statement works on the committed tables plus
 what its own transaction has written so far; nothing it writes is visible to others before Commit.
 */
module LedgerStatements {
  import opened Prelude

  type CustomerId = nat
  type AccountId = nat
  type Reference = string

  datatype Operation = Deposit | Withdraw | Transfer

  datatype AccountStatus = Active | Frozen | Closed

  /** Balances and amounts are whole cents. */
  datatype Account = Account(owner: CustomerId, status: AccountStatus, balance: int)

  /** The unique index (actorCustomerId, type, referenceId). */
  datatype Key = Key(actor: CustomerId, operation: Operation, reference: Reference)

  datatype Request =
    | DepositRequest(actor: CustomerId, reference: Reference, toId: AccountId, amount: nat)
    | WithdrawRequest(actor: CustomerId, reference: Reference, fromId: AccountId, amount: nat)
    | TransferRequest(actor: CustomerId, reference: Reference, fromId: AccountId, toId: AccountId, amount: nat)
  {
    function Operation(): Operation {
      match this
      case DepositRequest(_, _, _, _) => Deposit
      case WithdrawRequest(_, _, _, _) => Withdraw
      case TransferRequest(_, _, _, _, _) => Transfer
    }

    function UniqueKey(): Key {
      Key(actor, Operation(), reference)
    }

    function From(): Option<AccountId> {
      if DepositRequest? then None else Some(fromId)
    }

    function To(): Option<AccountId> {
      if WithdrawRequest? then None else Some(toId)
    }
  }

  datatype RowStatus = Pending | Completed | Failed | Rejected

  /** A row of `transactions`. `fraudReject` is the column fraudDecision = 'REJECT'. */
  datatype Row = Row(id: nat, key: Key, from: Option<AccountId>, to: Option<AccountId>, amount: nat,
                     status: RowStatus, fraudReject: bool, fraudReason: Option<string>)

  datatype EventType = TransactionCompleted | TransactionFailed

  /** A row of `events`, reduced to what the ledger transaction decides about it. */
  datatype Event = Event(eventType: EventType, resourceId: nat, key: Key,
                         from: Option<AccountId>, to: Option<AccountId>, amount: nat, fraudRule: Option<string>)

  /** Rows are appended at commit, so their order is commit order. */
  datatype Tables = Tables(accounts: map<AccountId, Account>, rows: seq<Row>, events: seq<Event>)

  datatype Error =
    | AccountNotFound
    | NotOwner
    | NotActive
    | InsufficientBalance
    | UniqueViolation                 // Prisma P2002
    | ForeignKeyViolation             // Prisma P2003
    | RecordNotFound                  // Prisma P2025
    | FraudRejected(reason: Option<string>)
    | Technical(retryable: bool)      // anything else; retryable is P2034, deadlock, 40P01 or 40001

  /** What one open transaction has read and written. */
  datatype Work = Work(seen: map<AccountId, Account>, row: Option<Row>, event: Option<Event>,
                       writes: map<AccountId, int>)

  const FreshWork := Work(map[], None, None, map[])

  // ---------- idempotency checks ----------

  /** findExisting: the row with this key, if any. */
  function FindRow(rows: seq<Row>, key: Key): (r: Option<Row>)
    ensures r.Some? ==> r.value in rows && r.value.key == key
    ensures r.None? ==> forall i :: 0 <= i < |rows| ==> rows[i].key != key
  {
    if |rows| == 0 then None
    else if rows[0].key == key then Some(rows[0])
    else FindRow(rows[1..], key)
  }

  datatype Outcome =
    | Success(row: Row)
    | Failure(error: Error)
    | StillInProgress
    | Unprocessable

  /** resolveExistingOrThrow: what an earlier row settles before any work is done; None means go on. */
  function ResolveExisting(existing: Option<Row>): Option<Outcome> {
    match existing
    case None => None
    case Some(row) =>
      if row.status == Completed then Some(Success(row))
      else if row.status == Rejected && row.fraudReject then Some(Failure(FraudRejected(row.fraudReason)))
      else None
  }

  /** resolveP2002Fallback followed by the rethrow of the caller. */
  function ResolveFallback(err: Error, existing: Option<Row>): Outcome {
    if err != UniqueViolation then Failure(err)
    else match existing
      case None => Failure(err)
      case Some(row) =>
        if row.status == Completed then Success(row)
        else if row.status == Rejected && row.fraudReject then Failure(FraudRejected(row.fraudReason))
        else if row.status == Pending then StillInProgress
        else Unprocessable
  }

  // ---------- the statements of a transaction ----------

  function ReadAccount(db: Tables, work: Work, id: AccountId): Result<Work, Error> {
    if id in db.accounts then Ok(work.(seen := work.seen[id := db.accounts[id]]))
    else Err(AccountNotFound)
  }

  /** Ownership and status checks on what was read; the destination's owner is not checked. */
  function CheckAccounts(req: Request, work: Work): Result<Work, Error> {
    match req
    case DepositRequest(actor, _, to, _) => CheckOwned(actor, to, work)
    case WithdrawRequest(actor, _, from, _) => CheckOwned(actor, from, work)
    case TransferRequest(actor, _, from, to, _) =>
      var checked :- CheckOwned(actor, from, work);
      if to !in work.seen then Err(AccountNotFound)
      else if work.seen[to].status != Active then Err(NotActive)
      else Ok(work)
  }

  function CheckOwned(actor: CustomerId, id: AccountId, work: Work): Result<Work, Error> {
    if id !in work.seen then Err(AccountNotFound)
    else if work.seen[id].owner != actor then Err(NotOwner)
    else if work.seen[id].status != Active then Err(NotActive)
    else Ok(work)
  }

  function PendingRow(req: Request, id: nat): Row {
    Row(id, req.UniqueKey(), req.From(), req.To(), req.amount, Pending, false, None)
  }

  function RejectedRow(req: Request, id: nat, reason: Option<string>): Row {
    Row(id, req.UniqueKey(), req.From(), req.To(), req.amount, Rejected, true, reason)
  }

  /** The accounts a row names exist, as the foreign keys from_account and to_account demand. */
  predicate NamesAccounts(db: Tables, row: Row) {
    (row.from.Some? ==> row.from.value in db.accounts) && (row.to.Some? ==> row.to.value in db.accounts)
  }

  /** The unique index is checked, and waited for, before the foreign keys. */
  function Insert(db: Tables, work: Work, row: Row): Result<Work, Error> {
    if FindRow(db.rows, row.key).Some? then Err(UniqueViolation)
    else if !NamesAccounts(db, row) then Err(ForeignKeyViolation)
    else Ok(work.(row := Some(row)))
  }

  /** One balance update of the transaction. */
  datatype Move = Debit(account: AccountId) | Credit(account: AccountId)

  function BalanceSeen(db: Tables, work: Work, id: AccountId): int
    requires id in db.accounts
  {
    if id in work.writes then work.writes[id] else db.accounts[id].balance
  }

  /** decrementBalance with its guard `balance >= amount`, and incrementBalance without one. */
  function ApplyMove(db: Tables, work: Work, move: Move, amount: nat): Result<Work, Error> {
    var id := move.account;
    match move
    case Debit(_) =>
      if id in db.accounts && BalanceSeen(db, work, id) >= amount
      then Ok(work.(writes := work.writes[id := BalanceSeen(db, work, id) - amount]))
      else Err(InsufficientBalance)
    case Credit(_) =>
      if id in db.accounts
      then Ok(work.(writes := work.writes[id := BalanceSeen(db, work, id) + amount]))
      else Err(RecordNotFound)
  }

  function MarkCompleted(work: Work): Result<Work, Error> {
    if work.row.None? then Err(RecordNotFound)
    else Ok(work.(row := Some(work.row.value.(status := Completed))))
  }

  /** The event written beside a row: completed for a completed one, failed for a rejected one. */
  function EventFor(row: Row): Event {
    Event(if row.status == Completed then TransactionCompleted else TransactionFailed,
          row.id, row.key, row.from, row.to, row.amount, row.fraudReason)
  }

  function EmitEvent(work: Work): Result<Work, Error> {
    if work.row.None? then Err(RecordNotFound)
    else Ok(work.(event := Some(EventFor(work.row.value))))
  }

  function CommitAccounts(accounts: map<AccountId, Account>, writes: map<AccountId, int>): map<AccountId, Account> {
    map id | id in accounts ::
      if id in writes then accounts[id].(balance := writes[id]) else accounts[id]
  }

  function Commit(db: Tables, work: Work): Tables {
    Tables(CommitAccounts(db.accounts, work.writes),
           db.rows + (if work.row.Some? then [work.row.value] else []),
           db.events + (if work.event.Some? then [work.event.value] else []))
  }

  // ---------- what each request asks its transaction to do ----------

  /** Accounts read before the checks. */
  function Reads(req: Request): seq<AccountId> {
    match req
    case DepositRequest(_, _, to, _) => [to]
    case WithdrawRequest(_, _, from, _) => [from]
    case TransferRequest(_, _, from, to, _) => [from, to]
  }

  /** The loop of a transfer visits the lower id first and debits whichever id equals `from`. */
  function MoveOf(from: AccountId, id: AccountId): Move {
    if id == from then Debit(id) else Credit(id)
  }

  function Moves(req: Request): seq<Move> {
    match req
    case DepositRequest(_, _, to, _) => [Credit(to)]
    case WithdrawRequest(_, _, from, _) => [Debit(from)]
    case TransferRequest(_, _, from, to, _) =>
      if from < to then [MoveOf(from, from), MoveOf(from, to)]
      else [MoveOf(from, to), MoveOf(from, from)]
  }
}
