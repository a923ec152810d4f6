/**
 The two consumers behind the events exchange. A published event puts one copy in every queue bound to
 its type; each copy is delivered once, handled in steps that interleave freely with those of other
 copies, and ends acknowledged or dead-lettered. A retry publishes to the exchange again, so it fans
 out to both queues. `dispatched` records the effects of handlers.
 */
module ConsumerMachine {
  type Millis = nat
  type MessageId = nat

  /** The audit consumer and the email consumer, by their names in processed_messages. */
  datatype Consumer = Audit | Email

  datatype EventType = TransactionCompleted | TransactionFailed | UserRegistered | OtherType(name: string)

  datatype Config = Config(maxRetries: nat, claimTtlMs: nat)

  /** setupTopology: the audit queue is bound to '#', the email queue to three routing keys. */
  function Routes(eventType: EventType): seq<Consumer> {
    if eventType.OtherType? then [Audit] else [Audit, Email]
  }

  datatype Handling =
    | Queued
    | Received                                   // delivered, not yet claimed
    | Working(claimedAt: Millis)                 // claimed, dispatching
    | Dispatched(claimedAt: Millis)              // dispatch returned
    | Failing(claimedAt: Millis, transient: bool)  // caught after a claim, markFailed next
    | Marked                                     // markCompleted succeeded, ack next
    | Settling(transient: bool)                  // caught, republish or nack next
    | Acked
    | DeadLettered

  datatype Copy = Copy(consumer: Consumer, messageId: MessageId, eventType: EventType, attempts: nat,
                       handling: Handling)

  datatype RowStatus = Claimed | Completed | Failed

  /** A row of processed_messages, under its unique (consumer, message_id). */
  datatype Row = Row(status: RowStatus, claimedAt: Millis)

  datatype RowKey = RowKey(consumer: Consumer, messageId: MessageId)

  datatype System = System(now: Millis, copies: seq<Copy>, rows: map<RowKey, Row>, dispatched: seq<RowKey>,
                           publishes: nat)

  /** What the republish answers, and whether the broker took it. */
  datatype Republish = Sent | Unsent | SentButRefused

  datatype Action =
    | Publish(messageId: MessageId, eventType: EventType)
    | Tick(ms: nat)
    | Deliver(copy: nat)
    | ThrowEarly(copy: nat, transient: bool)   // parsing or the claim itself throws
    | Claim(copy: nat)
    | Dispatch(copy: nat)
    | ThrowWork(copy: nat, transient: bool)    // the dispatch, or the completing update, throws
    | MarkCompleted(copy: nat)
    | Ack(copy: nat)
    | MarkFailed(copy: nat)
    | LoseMarkFailed(copy: nat)                // markFailed throws, which the repository swallows
    | Settle(copy: nat, reply: Republish)

  // ---------- processed_messages ----------

  /** claim: insert, or take over a FAILED row or a CLAIMED row older than the TTL. */
  predicate CanClaim(cfg: Config, rows: map<RowKey, Row>, key: RowKey, now: Millis) {
    key !in rows || rows[key].status == Failed ||
    (rows[key].status == Claimed && rows[key].claimedAt + cfg.claimTtlMs < now)
  }

  function ClaimRow(cfg: Config, rows: map<RowKey, Row>, key: RowKey, now: Millis): map<RowKey, Row> {
    if CanClaim(cfg, rows, key, now) then rows[key := Row(Claimed, now)] else rows
  }

  predicate CanComplete(rows: map<RowKey, Row>, key: RowKey) {
    key in rows && rows[key].status == Claimed
  }

  function CompleteRow(rows: map<RowKey, Row>, key: RowKey): map<RowKey, Row> {
    if CanComplete(rows, key) then rows[key := rows[key].(status := Completed)] else rows
  }

  /** markFailed looks at neither the status nor the claim. */
  function FailRow(rows: map<RowKey, Row>, key: RowKey): map<RowKey, Row> {
    if key in rows then rows[key := rows[key].(status := Failed)] else rows
  }

  // ---------- steps ----------

  function KeyOf(copy: Copy): RowKey {
    RowKey(copy.consumer, copy.messageId)
  }

  function Fresh(messageId: MessageId, eventType: EventType, attempts: nat): seq<Copy> {
    if eventType.OtherType? then [Copy(Audit, messageId, eventType, attempts, Queued)]
    else [Copy(Audit, messageId, eventType, attempts, Queued), Copy(Email, messageId, eventType, attempts, Queued)]
  }

  function Put(s: System, i: nat, handling: Handling): System
    requires i < |s.copies|
  {
    s.(copies := s.copies[i := s.copies[i].(handling := handling)])
  }

  predicate Retries(cfg: Config, copy: Copy) {
    copy.handling.Settling? && copy.handling.transient && copy.attempts + 1 <= cfg.maxRetries
  }

  /** The end of the catch block: republish and ack, or nack without requeue. */
  function SettleCopy(cfg: Config, s: System, i: nat, reply: Republish): System
    requires i < |s.copies|
  {
    var copy := s.copies[i];
    if !Retries(cfg, copy) then Put(s, i, DeadLettered)
    else
      var ended := Put(s, i, if reply == Sent then Acked else DeadLettered);
      if reply == Unsent then ended
      else ended.(copies := ended.copies + Fresh(copy.messageId, copy.eventType, copy.attempts + 1))
  }

  function StepCopy(cfg: Config, s: System, a: Action): System
    requires !a.Publish? && !a.Tick? && a.copy < |s.copies|
  {
    var i := a.copy;
    var copy := s.copies[i];
    var key := KeyOf(copy);
    match a
    case Deliver(_) => if copy.handling == Queued then Put(s, i, Received) else s
    case ThrowEarly(_, transient) => if copy.handling == Received then Put(s, i, Settling(transient)) else s
    case Claim(_) =>
      if copy.handling != Received then s
      else if CanClaim(cfg, s.rows, key, s.now)
      then Put(s, i, Working(s.now)).(rows := ClaimRow(cfg, s.rows, key, s.now))
      else Put(s, i, Acked)
    case Dispatch(_) =>
      if copy.handling.Working?
      then Put(s, i, Dispatched(copy.handling.claimedAt)).(dispatched := s.dispatched + [key]) else s
    case ThrowWork(_, transient) =>
      if copy.handling.Working? || copy.handling.Dispatched?
      then Put(s, i, Failing(copy.handling.claimedAt, transient)) else s
    case MarkCompleted(_) =>
      if !copy.handling.Dispatched? then s
      else if CanComplete(s.rows, key) then Put(s, i, Marked).(rows := CompleteRow(s.rows, key))
      else Put(s, i, Failing(copy.handling.claimedAt, true))
    case Ack(_) => if copy.handling == Marked then Put(s, i, Acked) else s
    case MarkFailed(_) =>
      if copy.handling.Failing?
      then Put(s, i, Settling(copy.handling.transient)).(rows := FailRow(s.rows, key)) else s
    case LoseMarkFailed(_) => if copy.handling.Failing? then Put(s, i, Settling(copy.handling.transient)) else s
    case Settle(_, reply) => if copy.handling.Settling? then SettleCopy(cfg, s, i, reply) else s
  }

  function Next(cfg: Config, s: System, a: Action): System {
    match a
    case Publish(id, eventType) => s.(copies := s.copies + Fresh(id, eventType, 0), publishes := s.publishes + 1)
    case Tick(ms) => s.(now := s.now + ms)
    case _ => if a.copy < |s.copies| then StepCopy(cfg, s, a) else s
  }

  function Run(cfg: Config, s: System, actions: seq<Action>): System {
    if |actions| == 0 then s else Next(cfg, Run(cfg, s, actions[..|actions| - 1]), actions[|actions| - 1])
  }

  lemma RunTo(cfg: Config, s: System, actions: seq<Action>, k: nat)
    requires 0 < k <= |actions|
    ensures Run(cfg, s, actions[..k]) == Next(cfg, Run(cfg, s, actions[..k - 1]), actions[k - 1])
  {
    assert actions[..k][..k - 1] == actions[..k - 1];
  }

  const EMPTY := System(0, [], map[], [], 0)
}
