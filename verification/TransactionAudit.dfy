/**
 The dispatcher turns an event into an audit row, and from the ledger to the audit log: every row it
 writes names a committed transaction and tells truly how it ended.
 */
module TransactionAudit {
  import opened Prelude
  import opened Text
  import opened LedgerStatements
  import opened EventPayload
  import Machine = LedgerMachine
  import Theorems = LedgerTheorems
  import Consumers = ConsumerMachine

  datatype Message = Message(eventType: Consumers.EventType, payload: Json)

  datatype DispatchError = InvalidPayload(what: string) | UnsupportedType | AuditFailed

  datatype AuditRow = AuditRow(action: Operation, success: bool, customerId: string, entityId: string, actorId: string,
                               resourceId: string, traceId: string, reasonCode: Option<string>,
                               ipAddress: Option<string>, userAgent: Option<string>, metadata: Json)

  function TextOf(v: Json): string {
    if v.Text? then v.text else ""
  }

  function OptionOf(v: Json): Option<string> {
    if v.Text? then Some(v.text) else None
  }

  /** What dispatch records: a success for a completed event, a failure for a failed one, else an error. */
  function AuditRowFor(m: Message): Result<AuditRow, DispatchError> {
    if !m.eventType.TransactionCompleted? && !m.eventType.TransactionFailed? then Err(UnsupportedType)
    else
      var verdict := Validate(m.payload);
      if verdict.Err? then Err(InvalidPayload(verdict.error))
      else
        var meta := Get(m.payload, Metadata);
        var actor, resource := TextOf(Get(m.payload, ActorId)), TextOf(Get(m.payload, ResourceId));
        var txType := OperationNamed(Get(meta, TransactionType));
        var action :=
          if txType == Some(Deposit) then Deposit else if txType == Some(Withdraw) then Withdraw else Transfer;
        Ok(AuditRow(action, m.eventType.TransactionCompleted?, actor, resource, actor, resource,
                    TextOf(Get(m.payload, TraceId)),
                    if m.eventType.TransactionFailed? then OptionOf(Get(m.payload, ReasonCode)) else None,
                    OptionOf(Get(meta, ClientIpMasked)), OptionOf(Get(meta, UserAgent)), meta))
  }

  class AuditService {
    var rows: seq<AuditRow>

    constructor ()
      ensures rows == []
    {
      rows := [];
    }

    /** record: an insert that fails is logged and thrown on. */
    method Record(row: AuditRow, insertFails: bool) returns (r: Result<(), DispatchError>)
      modifies this
      ensures r.Ok? <==> !insertFails
      ensures rows == if r.Ok? then old(rows) + [row] else old(rows)
      ensures r.Err? ==> r.error == AuditFailed
    {
      if insertFails {
        return Err(AuditFailed);
      }
      rows := rows + [row];
      r := Ok(());
    }
  }

  class RabbitMqTransactionEventDispatcher {
    const audit: AuditService

    constructor (audit: AuditService)
      ensures this.audit == audit
    {
      this.audit := audit;
    }

    /** It returns exactly when the row was written, and throws, for the consumer to retry or dead-letter,
        exactly when it was not. */
    method Dispatch(m: Message, insertFails: bool) returns (r: Result<(), DispatchError>)
      modifies audit
      ensures r.Ok? <==> AuditRowFor(m).Ok? && !insertFails
      ensures r.Ok? ==> audit.rows == old(audit.rows) + [AuditRowFor(m).value]
      ensures r.Err? ==> audit.rows == old(audit.rows)
      ensures r.Err? ==> r.error == if AuditRowFor(m).Err? then AuditRowFor(m).error else AuditFailed
    {
      match m.eventType {
        case TransactionCompleted =>
          var verdict := Validate(m.payload);
          if verdict.Err? {
            return Err(InvalidPayload(verdict.error));
          }
          var meta := Get(m.payload, Metadata);
          var action := ActionOf(OperationNamed(Get(meta, TransactionType)));
          var actor, resource := TextOf(Get(m.payload, ActorId)), TextOf(Get(m.payload, ResourceId));
          var row := AuditRow(action, true, actor, resource, actor, resource, TextOf(Get(m.payload, TraceId)), None,
                              OptionOf(Get(meta, ClientIpMasked)), OptionOf(Get(meta, UserAgent)), meta);
          r := audit.Record(row, insertFails);
        case TransactionFailed =>
          var verdict := Validate(m.payload);
          if verdict.Err? {
            return Err(InvalidPayload(verdict.error));
          }
          var meta := Get(m.payload, Metadata);
          var action := ActionOf(OperationNamed(Get(meta, TransactionType)));
          var actor, resource := TextOf(Get(m.payload, ActorId)), TextOf(Get(m.payload, ResourceId));
          var row := AuditRow(action, false, actor, resource, actor, resource, TextOf(Get(m.payload, TraceId)),
                              OptionOf(Get(m.payload, ReasonCode)),
                              OptionOf(Get(meta, ClientIpMasked)), OptionOf(Get(meta, UserAgent)), meta);
          r := audit.Record(row, insertFails);
        case _ => r := Err(UnsupportedType);
      }
    }

    static method ActionOf(txType: Option<Operation>) returns (action: Operation)
      ensures txType.Some? ==> action == txType.value
    {
      if txType == Some(Deposit) {
        return Deposit;
      }
      if txType == Some(Withdraw) {
        return Withdraw;
      }
      action := Transfer;
    }
  }

  // ---------- the dispatcher undoes the writer ----------

  function TraceOf(p: Params): string {
    if p.traceId.Some? then p.traceId.value else MISSING_TRACE
  }

  lemma StoredMetadataIsRead(p: Params, fraudRule: Option<string>)
    ensures var meta := Stored(BuildMetadata(p, fraudRule));
      && OperationNamed(Get(meta, TransactionType)) == Some(p.operation)
      && OptionOf(Get(meta, ClientIpMasked)) == p.clientIpMasked
      && OptionOf(Get(meta, UserAgent)) == p.userAgent
  {
    StoredMetadataMembers(p, fraudRule);
    TypeNames(p.operation);
  }

  function RowWritten(p: Params, eventType: Consumers.EventType, reasonCode: Option<string>, meta: Json): AuditRow {
    AuditRow(p.operation, eventType.TransactionCompleted?, p.actorId, p.resourceId, p.actorId, p.resourceId, TraceOf(p),
             if eventType.TransactionFailed? then reasonCode else None, p.clientIpMasked, p.userAgent, meta)
  }

  /** A valid payload with these members becomes this row. */
  lemma RowFromMembers(payload: Json, eventType: Consumers.EventType, p: Params, reasonCode: Option<string>)
    requires eventType.TransactionCompleted? || eventType.TransactionFailed?
    requires Validate(payload).Ok?
    requires Get(payload, ActorId) == Text(p.actorId) && Get(payload, ResourceId) == Text(p.resourceId)
    requires Get(payload, TraceId) == Text(TraceOf(p)) && Get(payload, ReasonCode) == Optional(reasonCode)
    requires var meta := Get(payload, Metadata);
      && OperationNamed(Get(meta, TransactionType)) == Some(p.operation)
      && OptionOf(Get(meta, ClientIpMasked)) == p.clientIpMasked
      && OptionOf(Get(meta, UserAgent)) == p.userAgent
    ensures AuditRowFor(Message(eventType, payload)) ==
      Ok(RowWritten(p, eventType, reasonCode, Get(payload, Metadata)))
  {
  }

  /** Any built payload arrives as what was written, and only sound ones arrive. */
  lemma BuiltRoundTrip(p: Params, eventType: Consumers.EventType, outcome: string, reasonCode: Option<string>,
                       fraudRule: Option<string>)
    requires eventType.TransactionCompleted? || eventType.TransactionFailed?
    requires outcome == "SUCCESS" || outcome == "FAILURE"
    requires Visible(reasonCode)
    ensures var r := AuditRowFor(Message(eventType, Stored(BuildPayload(p, outcome, reasonCode, fraudRule))));
      && (r.Ok? <==> Sound(p, fraudRule))
      && (r.Ok? ==> r.value == RowWritten(p, eventType, reasonCode, Stored(BuildMetadata(p, fraudRule))))
  {
    var payload := Stored(BuildPayload(p, outcome, reasonCode, fraudRule));
    BuiltPayloadVerdict(p, outcome, reasonCode, fraudRule);
    if Sound(p, fraudRule) {
      StoredPayloadMembers(p, outcome, reasonCode, fraudRule);
      StoredMetadataIsRead(p, fraudRule);
      RowFromMembers(payload, eventType, p, reasonCode);
    } else {
      assert Validate(payload).Err?;
    }
  }

  /** Completed events arrive as the success rows of what was written, and only sound ones arrive. */
  lemma CompletedRoundTrip(p: Params)
    ensures var r := AuditRowFor(Message(Consumers.TransactionCompleted, Stored(CompletedPayload(p))));
      && (r.Ok? <==> Sound(p, None))
      && (r.Ok? ==> r.value == AuditRow(p.operation, true, p.actorId, p.resourceId, p.actorId, p.resourceId, TraceOf(p),
                                        None, p.clientIpMasked, p.userAgent, Stored(BuildMetadata(p, None))))
  {
    BuiltRoundTrip(p, Consumers.TransactionCompleted, "SUCCESS", None, None);
  }

  /** Failed events arrive as failure rows, with their reason. */
  lemma FailedRoundTrip(p: Params)
    ensures var r := AuditRowFor(Message(Consumers.TransactionFailed, Stored(FailedPayload(p))));
      && (r.Ok? <==> Sound(p, p.fraudRule))
      && (r.Ok? ==> r.value == AuditRow(p.operation, false, p.actorId, p.resourceId, p.actorId, p.resourceId,
                                        TraceOf(p), Some("FRAUD_REJECTED"), p.clientIpMasked, p.userAgent,
                                        Stored(BuildMetadata(p, p.fraudRule))))
  {
    assert !IsSpace("FRAUD_REJECTED"[0]);
    BuiltRoundTrip(p, Consumers.TransactionFailed, "FAILURE", Some("FRAUD_REJECTED"), p.fraudRule);
  }

  lemma TellingIsRead(payload: Json, p: Params, reasonCode: Option<string>)
    requires TellsOf(payload, p, reasonCode)
    ensures var meta := Get(payload, Metadata);
      && Validate(payload).Ok?
      && TextOf(Get(payload, ActorId)) == p.actorId && TextOf(Get(payload, ResourceId)) == p.resourceId
      && p.traceId.Some? && TextOf(Get(payload, TraceId)) == p.traceId.value
      && OptionOf(Get(payload, ReasonCode)) == reasonCode
      && OperationNamed(Get(meta, TransactionType)) == Some(p.operation)
      && OptionOf(Get(meta, ClientIpMasked)) == p.clientIpMasked && OptionOf(Get(meta, UserAgent)) == p.userAgent
  {
    TellingIsValid(payload, p, reasonCode);
    TypeNames(p.operation);
  }

  lemma RowOfRead(m: Message, p: Params, reasonCode: Option<string>)
    requires m.eventType.TransactionCompleted? || m.eventType.TransactionFailed?
    requires Validate(m.payload).Ok? && p.traceId.Some?
    requires TextOf(Get(m.payload, ActorId)) == p.actorId && TextOf(Get(m.payload, ResourceId)) == p.resourceId
    requires TextOf(Get(m.payload, TraceId)) == p.traceId.value && OptionOf(Get(m.payload, ReasonCode)) == reasonCode
    requires var meta := Get(m.payload, Metadata);
      && OperationNamed(Get(meta, TransactionType)) == Some(p.operation)
      && OptionOf(Get(meta, ClientIpMasked)) == p.clientIpMasked && OptionOf(Get(meta, UserAgent)) == p.userAgent
    ensures AuditRowFor(m) ==
            Ok(AuditRow(p.operation, m.eventType.TransactionCompleted?, p.actorId, p.resourceId, p.actorId,
                        p.resourceId, p.traceId.value, if m.eventType.TransactionFailed? then reasonCode else None,
                        p.clientIpMasked, p.userAgent, Get(m.payload, Metadata)))
  {
  }

  /** Of a message from whatever source the dispatcher makes a row if its type is one of the two and its payload
      tells of visible parameters; the row is theirs, and its success is the type's, not the payload's. */
  lemma AnyMessageIsAudited(m: Message, p: Params, reasonCode: Option<string>)
    requires TellsOf(m.payload, p, reasonCode)
    ensures p.traceId.Some?
    ensures AuditRowFor(m) ==
            if m.eventType.TransactionCompleted?
            then Ok(AuditRow(p.operation, true, p.actorId, p.resourceId, p.actorId, p.resourceId, p.traceId.value, None,
                             p.clientIpMasked, p.userAgent, Get(m.payload, Metadata)))
            else if m.eventType.TransactionFailed?
            then Ok(AuditRow(p.operation, false, p.actorId, p.resourceId, p.actorId, p.resourceId, p.traceId.value,
                             reasonCode, p.clientIpMasked, p.userAgent, Get(m.payload, Metadata)))
            else Err(UnsupportedType)
  {
    TellingIsRead(m.payload, p, reasonCode);
    if m.eventType.TransactionCompleted? || m.eventType.TransactionFailed? {
      RowOfRead(m, p, reasonCode);
    }
  }

  /** And it makes none of any other payload. */
  lemma OnlyTellingIsAudited(m: Message) returns (p: Params, reasonCode: Option<string>)
    requires AuditRowFor(m).Ok?
    ensures TellsOf(m.payload, p, reasonCode)
  {
    p, reasonCode := ValidIsTelling(m.payload);
  }

  // ---------- from the ledger to the audit log ----------

  /** What RequestContext held when the event was written. */
  datatype Context = Context(traceId: Option<string>, clientIpMasked: Option<string>, userAgent: Option<string>)

  function Spelled(ids: nat -> string, id: Option<AccountId>): Option<string> {
    if id.Some? then Some(ids(id.value)) else None
  }

  /** The writer's arguments for a ledger event; `ids` spells ids, and amounts are cents. */
  function ParamsOf(ids: nat -> string, event: Event, ctx: Context): Params {
    Params(ids(event.key.actor), ids(event.resourceId), ctx.traceId, event.key.operation, event.key.reference,
           Some(event.amount as real / 100.0), Spelled(ids, event.from), Spelled(ids, event.to), event.fraudRule,
           ctx.clientIpMasked, ctx.userAgent)
  }

  function MessageOf(ids: nat -> string, event: Event, ctx: Context): Message {
    var p := ParamsOf(ids, event, ctx);
    if event.eventType == TransactionCompleted then Message(Consumers.TransactionCompleted, Stored(CompletedPayload(p)))
    else Message(Consumers.TransactionFailed, Stored(FailedPayload(p)))
  }

  /** The audit row tells what the transaction row is. */
  ghost predicate Tells(ids: nat -> string, audit: AuditRow, row: Row) {
    && audit.entityId == ids(row.id) && audit.resourceId == ids(row.id)
    && audit.customerId == ids(row.key.actor) && audit.actorId == ids(row.key.actor)
    && audit.action == row.key.operation
    && (audit.success <==> row.status == Completed) && (!audit.success <==> row.status == Rejected)
    && Get(audit.metadata, ReferenceId) == Text(row.key.reference)
    && Get(audit.metadata, Amount) == Number(row.amount as real / 100.0)
    && Get(audit.metadata, FromAccountId) == Nullable(Spelled(ids, row.from))
    && Get(audit.metadata, ToAccountId) == Nullable(Spelled(ids, row.to))
  }

  predicate VisibleContext(ctx: Context) {
    Visible(ctx.traceId) && Visible(ctx.clientIpMasked) && Visible(ctx.userAgent)
  }

  lemma MetadataTells(ids: nat -> string, event: Event, row: Row, ctx: Context, audit: AuditRow,
                      fraudRule: Option<string>)
    requires audit.metadata == Stored(BuildMetadata(ParamsOf(ids, event, ctx), fraudRule))
    requires event.key == row.key && event.amount == row.amount && event.from == row.from && event.to == row.to
    ensures Get(audit.metadata, ReferenceId) == Text(row.key.reference)
    ensures Get(audit.metadata, Amount) == Number(row.amount as real / 100.0)
    ensures Get(audit.metadata, FromAccountId) == Nullable(Spelled(ids, row.from))
    ensures Get(audit.metadata, ToAccountId) == Nullable(Spelled(ids, row.to))
  {
    StoredMetadataMembers(ParamsOf(ids, event, ctx), fraudRule);
  }

  lemma SoundEvents(ids: nat -> string, event: Event, ctx: Context, fraudRule: Option<string>)
    requires forall n :: !Blank(ids(n))
    ensures Sound(ParamsOf(ids, event, ctx), fraudRule) <==>
              !Blank(event.key.reference) && VisibleContext(ctx) && Visible(fraudRule)
  {
  }

  lemma EventTells(ids: nat -> string, event: Event, row: Row, ctx: Context)
    requires forall n :: !Blank(ids(n))
    requires row.status == Completed || row.status == Rejected
    requires event.eventType == TransactionCompleted <==> row.status == Completed
    requires event.resourceId == row.id && event.key == row.key && event.amount == row.amount
    requires event.from == row.from && event.to == row.to
    ensures var r := AuditRowFor(MessageOf(ids, event, ctx));
      && (r.Ok? <==> !Blank(row.key.reference) && VisibleContext(ctx) &&
                     (row.status == Rejected ==> Visible(event.fraudRule)))
      && (r.Ok? ==> Tells(ids, r.value, row))
  {
    var p := ParamsOf(ids, event, ctx);
    if event.eventType == TransactionCompleted {
      CompletedRoundTrip(p);
      SoundEvents(ids, event, ctx, None);
    } else {
      FailedRoundTrip(p);
      SoundEvents(ids, event, ctx, event.fraudRule);
    }
    var r := AuditRowFor(MessageOf(ids, event, ctx));
    if r.Ok? {
      MetadataTells(ids, event, row, ctx, r.value,
                    if event.eventType == TransactionCompleted then None else event.fraudRule);
    }
  }

  /** Dispatching the i-th event of any reachable ledger writes an audit row of the i-th committed
      transaction, a success if it completed and a failure if it was rejected; it is refused exactly when
      its reference or another of its texts is blank. */
  lemma EveryEventIsAudited(s: Machine.State, actions: seq<Machine.Action>, ids: nat -> string, ctx: Context, i: nat)
    requires Machine.Init(s) && i < |Machine.Run(s, actions).db.events|
    requires forall n :: !Blank(ids(n))
    ensures var t := Machine.Run(s, actions);
      && i < |t.db.rows|
      && var r, row := AuditRowFor(MessageOf(ids, t.db.events[i], ctx)), t.db.rows[i];
      && (r.Ok? <==> !Blank(row.key.reference) && VisibleContext(ctx) &&
                     (row.status == Rejected ==> Visible(t.db.events[i].fraudRule)))
      && (r.Ok? ==> Tells(ids, r.value, row))
  {
    var t := Machine.Run(s, actions);
    Theorems.EventsMatchRows(s, actions);
    Theorems.EventsMirrorRows(s, actions, i);
    EventTells(ids, t.db.events[i], t.db.rows[i], ctx);
  }

  /** A delivery of an event, under the context it was written in. */
  datatype Delivery = Delivery(event: nat, ctx: Context, insertFails: bool)

  /** The audit log after these deliveries, repeated or reordered as they may be. */
  function AuditLog(ids: nat -> string, events: seq<Event>, deliveries: seq<Delivery>): seq<AuditRow> {
    if |deliveries| == 0 then []
    else
      var front, last := AuditLog(ids, events, deliveries[..|deliveries| - 1]), deliveries[|deliveries| - 1];
      if last.event >= |events| || last.insertFails then front
      else
        var r := AuditRowFor(MessageOf(ids, events[last.event], last.ctx));
        if r.Ok? then front + [r.value] else front
  }

  ghost predicate Told(ids: nat -> string, audit: AuditRow, rows: seq<Row>) {
    exists i :: 0 <= i < |rows| && Tells(ids, audit, rows[i])
  }

  /** Every row of the audit log names a committed transaction: success only for COMPLETED, failure only
      for REJECTED. */
  lemma {:induction false} AuditRowsNameCommittedTransactions(s: Machine.State, actions: seq<Machine.Action>,
      ids: nat -> string, deliveries: seq<Delivery>, k: nat)
    requires Machine.Init(s) && (forall n :: !Blank(ids(n)))
    requires k < |AuditLog(ids, Machine.Run(s, actions).db.events, deliveries)|
    ensures Told(ids, AuditLog(ids, Machine.Run(s, actions).db.events, deliveries)[k], Machine.Run(s, actions).db.rows)
  {
    var t := Machine.Run(s, actions);
    var front, last := deliveries[..|deliveries| - 1], deliveries[|deliveries| - 1];
    if k < |AuditLog(ids, t.db.events, front)| {
      AuditRowsNameCommittedTransactions(s, actions, ids, front, k);
    } else {
      EveryEventIsAudited(s, actions, ids, last.ctx, last.event);
    }
  }
}
