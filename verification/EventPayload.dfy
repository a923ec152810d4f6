/**
 The payload a ledger transaction writes beside its row, what storing it as JSON does to it, and the
 validator that the consumer applies to what arrives.
 */
module EventPayload {
  import opened Prelude
  import opened Text
  import opened LedgerStatements

  datatype Field =
    | ActorId | ResourceId | TraceId | PayloadOutcome | ReasonCode | Metadata
    | TransactionType | ReferenceId | Amount | FromAccountId | ToAccountId | FraudRule | ClientIpMasked | UserAgent
    | OtherField(name: string)

  /** A value of the source language, as far as JSON can carry it; NonFinite is NaN or an infinity. */
  datatype Json =
    | Undefined
    | Null
    | Truth(value: bool)
    | Number(number: real)
    | NonFinite
    | Text(text: string)
    | List(items: seq<Json>)
    | Object(fields: map<Field, Json>)

  function Get(v: Json, field: Field): Json {
    if v.Object? && field in v.fields then v.fields[field] else Undefined
  }

  /** What comes back after the payload was stored and published as JSON: undefined members are gone,
      undefined and non-finite values elsewhere are null. */
  function Stored(v: Json): Json {
    match v
    case Undefined => Null
    case NonFinite => Null
    case List(items) => List(seq(|items|, i requires 0 <= i < |items| => Stored(items[i])))
    case Object(fields) => Object(map field | field in fields && !fields[field].Undefined? :: Stored(fields[field]))
    case _ => v
  }

  // ---------- the writer ----------

  function TypeName(operation: Operation): string {
    match operation
    case Deposit => "DEPOSIT"
    case Withdraw => "WITHDRAW"
    case Transfer => "TRANSFER"
  }

  /** What createCompletedEvent and createFailedFraudEvent are given; an amount of None is not finite. */
  datatype Params = Params(actorId: string, resourceId: string, traceId: Option<string>, operation: Operation,
                           referenceId: string, amount: Option<real>, from: Option<string>, to: Option<string>,
                           fraudRule: Option<string>, clientIpMasked: Option<string>, userAgent: Option<string>)

  const MISSING_TRACE := "missing-trace-id"

  function Optional(text: Option<string>): Json {
    if text.Some? then Text(text.value) else Undefined
  }

  function Nullable(text: Option<string>): Json {
    if text.Some? then Text(text.value) else Null
  }

  function BuildMetadata(p: Params, fraudRule: Option<string>): Json {
    Object(map[
      TransactionType := Text(TypeName(p.operation)),
      ReferenceId := Text(p.referenceId),
      Amount := if p.amount.Some? then Number(p.amount.value) else NonFinite,
      FromAccountId := Nullable(p.from),
      ToAccountId := Nullable(p.to),
      FraudRule := Optional(fraudRule),
      ClientIpMasked := Optional(p.clientIpMasked),
      UserAgent := Optional(p.userAgent)])
  }

  function BuildPayload(p: Params, outcome: string, reasonCode: Option<string>, fraudRule: Option<string>): Json {
    Object(map[
      ActorId := Text(p.actorId),
      ResourceId := Text(p.resourceId),
      TraceId := Text(if p.traceId.Some? then p.traceId.value else MISSING_TRACE),
      PayloadOutcome := Text(outcome),
      ReasonCode := Optional(reasonCode),
      Metadata := BuildMetadata(p, fraudRule)])
  }

  function CompletedPayload(p: Params): Json {
    BuildPayload(p, "SUCCESS", None, None)
  }

  function FailedPayload(p: Params): Json {
    BuildPayload(p, "FAILURE", Some("FRAUD_REJECTED"), p.fraudRule)
  }

  // ---------- the validator ----------

  predicate IsNonEmptyString(v: Json) {
    v.Text? && Trim(v.text) != ""
  }

  predicate IsAbsentOrNonEmpty(v: Json) {
    v.Undefined? || v.Null? || IsNonEmptyString(v)
  }

  predicate IsObject(v: Json) {
    v.Object? || v.List?
  }

  function OperationNamed(v: Json): Option<Operation> {
    if v == Text("DEPOSIT") then Some(Deposit)
    else if v == Text("WITHDRAW") then Some(Withdraw)
    else if v == Text("TRANSFER") then Some(Transfer)
    else None
  }

  function Demand(ok: bool, what: string): Result<(), string> {
    if ok then Ok(()) else Err(what)
  }

  function ValidateMetadata(meta: Json): Result<(), string> {
    var _ :- Demand(IsObject(meta), "metadata");
    var _ :- Demand(OperationNamed(Get(meta, TransactionType)).Some?, "metadata.transactionType");
    var _ :- Demand(IsNonEmptyString(Get(meta, ReferenceId)), "metadata.referenceId");
    var _ :- Demand(Get(meta, Amount).Number?, "metadata.amount");
    var _ :- Demand(IsAbsentOrNonEmpty(Get(meta, FromAccountId)) && IsAbsentOrNonEmpty(Get(meta, ToAccountId)),
                    "metadata account ids");
    var _ :- Demand(IsAbsentOrNonEmpty(Get(meta, FraudRule)), "metadata.fraudRule");
    var _ :- Demand(IsAbsentOrNonEmpty(Get(meta, ClientIpMasked)), "metadata.clientIpMasked");
    Demand(IsAbsentOrNonEmpty(Get(meta, UserAgent)), "metadata.userAgent")
  }

  function Validate(payload: Json): Result<(), string> {
    var _ :- Demand(IsObject(payload), "not an object");
    var _ :- Demand(IsNonEmptyString(Get(payload, ActorId)), "actorId");
    var _ :- Demand(IsNonEmptyString(Get(payload, ResourceId)), "resourceId");
    var _ :- Demand(IsNonEmptyString(Get(payload, TraceId)), "traceId");
    var outcome := Get(payload, PayloadOutcome);
    var _ :- Demand(outcome == Text("SUCCESS") || outcome == Text("FAILURE"), "outcome");
    var _ :- Demand(IsAbsentOrNonEmpty(Get(payload, ReasonCode)), "reasonCode");
    ValidateMetadata(Get(payload, Metadata))
  }

  // ---------- the writer meets the validator ----------

  predicate Visible(text: Option<string>) {
    text.Some? ==> !Blank(text.value)
  }

  predicate SoundMetadata(p: Params, fraudRule: Option<string>) {
    && !Blank(p.referenceId) && p.amount.Some?
    && Visible(p.from) && Visible(p.to) && Visible(fraudRule) && Visible(p.clientIpMasked) && Visible(p.userAgent)
  }

  /** No required text is blank, no optional text is present but blank, and the amount is finite. */
  predicate Sound(p: Params, fraudRule: Option<string>) {
    !Blank(p.actorId) && !Blank(p.resourceId) && Visible(p.traceId) && SoundMetadata(p, fraudRule)
  }

  lemma TypeNames(operation: Operation)
    ensures OperationNamed(Text(TypeName(operation))) == Some(operation)
  {
  }

  lemma OptionalTexts(text: Option<string>)
    ensures IsAbsentOrNonEmpty(Optional(text)) <==> (text.Some? ==> !Blank(text.value))
    ensures IsAbsentOrNonEmpty(Nullable(text)) <==> (text.Some? ==> !Blank(text.value))
  {
    if text.Some? {
      TrimEmptiesBlank(text.value);
    }
  }

  /** The validator looks at nothing but these members. */
  lemma MetadataVerdict(meta: Json)
    requires IsObject(meta)
    ensures ValidateMetadata(meta).Ok? <==>
      && OperationNamed(Get(meta, TransactionType)).Some?
      && IsNonEmptyString(Get(meta, ReferenceId)) && Get(meta, Amount).Number?
      && IsAbsentOrNonEmpty(Get(meta, FromAccountId)) && IsAbsentOrNonEmpty(Get(meta, ToAccountId))
      && IsAbsentOrNonEmpty(Get(meta, FraudRule)) && IsAbsentOrNonEmpty(Get(meta, ClientIpMasked))
      && IsAbsentOrNonEmpty(Get(meta, UserAgent))
  {
  }

  lemma MetadataMembers(p: Params, fraudRule: Option<string>)
    ensures var meta := BuildMetadata(p, fraudRule);
      && Get(meta, TransactionType) == Text(TypeName(p.operation))
      && Get(meta, ReferenceId) == Text(p.referenceId)
      && Get(meta, Amount) == (if p.amount.Some? then Number(p.amount.value) else NonFinite)
      && Get(meta, FromAccountId) == Nullable(p.from) && Get(meta, ToAccountId) == Nullable(p.to)
      && Get(meta, FraudRule) == Optional(fraudRule)
      && Get(meta, ClientIpMasked) == Optional(p.clientIpMasked) && Get(meta, UserAgent) == Optional(p.userAgent)
  {
  }

  lemma StoredMember(v: Json, field: Field)
    requires v.Object?
    ensures Get(Stored(v), field) == if Get(v, field).Undefined? then Undefined else Stored(Get(v, field))
  {
  }

  /** The members of a payload's metadata after storage. */
  lemma StoredMetadataMembers(p: Params, fraudRule: Option<string>)
    ensures var meta := Stored(BuildMetadata(p, fraudRule));
      && meta.Object?
      && Get(meta, TransactionType) == Text(TypeName(p.operation))
      && Get(meta, ReferenceId) == Text(p.referenceId)
      && Get(meta, Amount) == (if p.amount.Some? then Number(p.amount.value) else Null)
      && Get(meta, FromAccountId) == Nullable(p.from) && Get(meta, ToAccountId) == Nullable(p.to)
      && Get(meta, FraudRule) == Optional(fraudRule)
      && Get(meta, ClientIpMasked) == Optional(p.clientIpMasked) && Get(meta, UserAgent) == Optional(p.userAgent)
  {
    MetadataMembers(p, fraudRule);
    var meta := BuildMetadata(p, fraudRule);
    forall field
      ensures Get(Stored(meta), field) == if Get(meta, field).Undefined? then Undefined else Stored(Get(meta, field))
    {
      StoredMember(meta, field);
    }
  }

  lemma StoredMetadataVerdict(meta: Json, p: Params, fraudRule: Option<string>)
    requires IsObject(meta) && Get(meta, TransactionType) == Text(TypeName(p.operation))
    requires Get(meta, ReferenceId) == Text(p.referenceId)
    requires Get(meta, Amount) == if p.amount.Some? then Number(p.amount.value) else Null
    requires Get(meta, FromAccountId) == Nullable(p.from) && Get(meta, ToAccountId) == Nullable(p.to)
    requires Get(meta, FraudRule) == Optional(fraudRule)
    requires Get(meta, ClientIpMasked) == Optional(p.clientIpMasked) && Get(meta, UserAgent) == Optional(p.userAgent)
    ensures ValidateMetadata(meta).Ok? <==> SoundMetadata(p, fraudRule)
  {
    MetadataVerdict(meta);
    TypeNames(p.operation);
    TrimEmptiesBlank(p.referenceId);
    OptionalTexts(p.from);
    OptionalTexts(p.to);
    OptionalTexts(fraudRule);
    OptionalTexts(p.clientIpMasked);
    OptionalTexts(p.userAgent);
  }

  lemma PayloadMembers(p: Params, outcome: string, reasonCode: Option<string>, fraudRule: Option<string>)
    ensures var payload := BuildPayload(p, outcome, reasonCode, fraudRule);
      && Get(payload, ActorId) == Text(p.actorId) && Get(payload, ResourceId) == Text(p.resourceId)
      && Get(payload, TraceId) == Text(if p.traceId.Some? then p.traceId.value else MISSING_TRACE)
      && Get(payload, PayloadOutcome) == Text(outcome) && Get(payload, ReasonCode) == Optional(reasonCode)
      && Get(payload, Metadata) == BuildMetadata(p, fraudRule)
  {
  }

  lemma StoredPayloadMembers(p: Params, outcome: string, reasonCode: Option<string>, fraudRule: Option<string>)
    ensures var payload := Stored(BuildPayload(p, outcome, reasonCode, fraudRule));
      && payload.Object?
      && Get(payload, ActorId) == Text(p.actorId) && Get(payload, ResourceId) == Text(p.resourceId)
      && Get(payload, TraceId) == Text(if p.traceId.Some? then p.traceId.value else MISSING_TRACE)
      && Get(payload, PayloadOutcome) == Text(outcome) && Get(payload, ReasonCode) == Optional(reasonCode)
      && Get(payload, Metadata) == Stored(BuildMetadata(p, fraudRule))
  {
    PayloadMembers(p, outcome, reasonCode, fraudRule);
    var payload := BuildPayload(p, outcome, reasonCode, fraudRule);
    forall field
      ensures Get(Stored(payload), field) ==
              if Get(payload, field).Undefined? then Undefined else Stored(Get(payload, field))
    {
      StoredMember(payload, field);
    }
  }

  lemma PayloadVerdict(payload: Json, p: Params, outcome: string, reasonCode: Option<string>)
    requires outcome == "SUCCESS" || outcome == "FAILURE"
    requires reasonCode.Some? ==> !Blank(reasonCode.value)
    requires IsObject(payload)
    requires Get(payload, ActorId) == Text(p.actorId) && Get(payload, ResourceId) == Text(p.resourceId)
    requires Get(payload, TraceId) == Text(if p.traceId.Some? then p.traceId.value else MISSING_TRACE)
    requires Get(payload, PayloadOutcome) == Text(outcome) && Get(payload, ReasonCode) == Optional(reasonCode)
    ensures Validate(payload).Ok? <==>
      && !Blank(p.actorId) && !Blank(p.resourceId) && (p.traceId.Some? ==> !Blank(p.traceId.value))
      && ValidateMetadata(Get(payload, Metadata)).Ok?
  {
    TrimEmptiesBlank(p.actorId);
    TrimEmptiesBlank(p.resourceId);
    TrimEmptiesBlank(if p.traceId.Some? then p.traceId.value else MISSING_TRACE);
    assert !IsSpace(MISSING_TRACE[0]);
    OptionalTexts(reasonCode);
  }

  lemma BuiltPayloadVerdict(p: Params, outcome: string, reasonCode: Option<string>, fraudRule: Option<string>)
    requires outcome == "SUCCESS" || outcome == "FAILURE"
    requires reasonCode.Some? ==> !Blank(reasonCode.value)
    ensures Validate(Stored(BuildPayload(p, outcome, reasonCode, fraudRule))).Ok? <==> Sound(p, fraudRule)
  {
    StoredPayloadMembers(p, outcome, reasonCode, fraudRule);
    StoredMetadataMembers(p, fraudRule);
    PayloadVerdict(Stored(BuildPayload(p, outcome, reasonCode, fraudRule)), p, outcome, reasonCode);
    StoredMetadataVerdict(Stored(BuildMetadata(p, fraudRule)), p, fraudRule);
  }

  /** What the writer writes arrives valid exactly when its texts are not blank and its amount is finite. */
  lemma WrittenPayloadsArriveValid(p: Params)
    ensures Validate(Stored(CompletedPayload(p))).Ok? <==> Sound(p, None)
    ensures Validate(Stored(FailedPayload(p))).Ok? <==> Sound(p, p.fraudRule)
  {
    assert !IsSpace("FRAUD_REJECTED"[0]);
    BuiltPayloadVerdict(p, "SUCCESS", None, None);
    BuiltPayloadVerdict(p, "FAILURE", Some("FRAUD_REJECTED"), p.fraudRule);
  }

  /** What a consumer finds in the payload of an event, member by member. */
  predicate ArrivesAs(payload: Json, p: Params, outcome: string, reasonCode: Json, fraudRule: Json) {
    var meta := Get(payload, Metadata);
    && Get(payload, ActorId) == Text(p.actorId) && Get(payload, ResourceId) == Text(p.resourceId)
    && Get(payload, TraceId) == Text(if p.traceId.Some? then p.traceId.value else "missing-trace-id")
    && Get(payload, PayloadOutcome) == Text(outcome) && Get(payload, ReasonCode) == reasonCode
    && Get(meta, TransactionType) == (match p.operation
                                      case Deposit => Text("DEPOSIT")
                                      case Withdraw => Text("WITHDRAW")
                                      case Transfer => Text("TRANSFER"))
    && Get(meta, ReferenceId) == Text(p.referenceId) && Get(meta, FraudRule) == fraudRule
    && Get(meta, Amount) == (if p.amount.Some? then Number(p.amount.value) else Null)
    && Get(meta, FromAccountId) == (if p.from.Some? then Text(p.from.value) else Null)
    && Get(meta, ToAccountId) == (if p.to.Some? then Text(p.to.value) else Null)
    && Get(meta, ClientIpMasked) == (if p.clientIpMasked.Some? then Text(p.clientIpMasked.value) else Undefined)
    && Get(meta, UserAgent) == (if p.userAgent.Some? then Text(p.userAgent.value) else Undefined)
  }

  /** A completed event tells of a success without a reason, a failed one of a failure by fraud and its rule. */
  lemma EventsArriveAsWritten(p: Params)
    ensures ArrivesAs(Stored(CompletedPayload(p)), p, "SUCCESS", Undefined, Undefined)
    ensures ArrivesAs(Stored(FailedPayload(p)), p, "FAILURE", Text("FRAUD_REJECTED"),
                      if p.fraudRule.Some? then Text(p.fraudRule.value) else Undefined)
  {
    StoredPayloadMembers(p, "SUCCESS", None, None);
    StoredMetadataMembers(p, None);
    StoredPayloadMembers(p, "FAILURE", Some("FRAUD_REJECTED"), p.fraudRule);
    StoredMetadataMembers(p, p.fraudRule);
  }

  // ---------- any payload ----------

  /** An optional member: missing or null for none. */
  predicate ReadsAs(v: Json, text: Option<string>) {
    if text.None? then v.Undefined? || v.Null? else v == Text(text.value)
  }

  /** The payload, whoever built it, tells of these parameters, all of them visible. */
  predicate TellsOf(payload: Json, p: Params, reasonCode: Option<string>) {
    var meta := Get(payload, Metadata);
    && Sound(p, p.fraudRule) && Visible(reasonCode)
    && (payload.Object? || payload.List?) && (meta.Object? || meta.List?)
    && Get(payload, ActorId) == Text(p.actorId) && Get(payload, ResourceId) == Text(p.resourceId)
    && p.traceId.Some? && Get(payload, TraceId) == Text(p.traceId.value)
    && (Get(payload, PayloadOutcome) == Text("SUCCESS") || Get(payload, PayloadOutcome) == Text("FAILURE"))
    && ReadsAs(Get(payload, ReasonCode), reasonCode)
    && Get(meta, TransactionType) == Text(TypeName(p.operation)) && Get(meta, ReferenceId) == Text(p.referenceId)
    && Get(meta, Amount) == Number(p.amount.value)
    && ReadsAs(Get(meta, FromAccountId), p.from) && ReadsAs(Get(meta, ToAccountId), p.to)
    && ReadsAs(Get(meta, FraudRule), p.fraudRule) && ReadsAs(Get(meta, ClientIpMasked), p.clientIpMasked)
    && ReadsAs(Get(meta, UserAgent), p.userAgent)
  }

  function OptionalText(v: Json): Option<string> {
    if v.Text? then Some(v.text) else None
  }

  lemma ReadsVerdict(v: Json, text: Option<string>)
    requires ReadsAs(v, text)
    ensures IsAbsentOrNonEmpty(v) <==> Visible(text)
  {
    if text.Some? {
      TrimEmptiesBlank(text.value);
    }
  }

  lemma ReadsText(v: Json)
    requires IsAbsentOrNonEmpty(v)
    ensures ReadsAs(v, OptionalText(v)) && Visible(OptionalText(v))
  {
    if v.Text? {
      TrimEmptiesBlank(v.text);
    }
  }

  /** The validator accepts whatever tells of visible parameters. */
  lemma TellingIsValid(payload: Json, p: Params, reasonCode: Option<string>)
    requires TellsOf(payload, p, reasonCode)
    ensures Validate(payload).Ok?
  {
    var meta := Get(payload, Metadata);
    TrimEmptiesBlank(p.actorId);
    TrimEmptiesBlank(p.resourceId);
    TrimEmptiesBlank(p.traceId.value);
    TrimEmptiesBlank(p.referenceId);
    ReadsVerdict(Get(payload, ReasonCode), reasonCode);
    ReadsVerdict(Get(meta, FromAccountId), p.from);
    ReadsVerdict(Get(meta, ToAccountId), p.to);
    ReadsVerdict(Get(meta, FraudRule), p.fraudRule);
    ReadsVerdict(Get(meta, ClientIpMasked), p.clientIpMasked);
    ReadsVerdict(Get(meta, UserAgent), p.userAgent);
    TypeNames(p.operation);
    MetadataVerdict(meta);
  }

  /** The required members of an accepted payload. */
  lemma ValidHasTexts(payload: Json)
    requires Validate(payload).Ok?
    ensures IsObject(payload) && ValidateMetadata(Get(payload, Metadata)).Ok? && IsObject(Get(payload, Metadata))
    ensures IsNonEmptyString(Get(payload, ActorId)) && IsNonEmptyString(Get(payload, ResourceId))
    ensures IsNonEmptyString(Get(payload, TraceId)) && IsAbsentOrNonEmpty(Get(payload, ReasonCode))
    ensures Get(payload, PayloadOutcome) == Text("SUCCESS") || Get(payload, PayloadOutcome) == Text("FAILURE")
  {
  }

  /** And nothing else: an accepted payload, from whatever source, tells of some. */
  lemma ValidIsTelling(payload: Json) returns (p: Params, reasonCode: Option<string>)
    requires Validate(payload).Ok?
    ensures TellsOf(payload, p, reasonCode)
  {
    var meta := Get(payload, Metadata);
    ValidHasTexts(payload);
    MetadataVerdict(meta);
    p := Params(Get(payload, ActorId).text, Get(payload, ResourceId).text, Some(Get(payload, TraceId).text),
                OperationNamed(Get(meta, TransactionType)).value, Get(meta, ReferenceId).text,
                Some(Get(meta, Amount).number), OptionalText(Get(meta, FromAccountId)),
                OptionalText(Get(meta, ToAccountId)), OptionalText(Get(meta, FraudRule)),
                OptionalText(Get(meta, ClientIpMasked)), OptionalText(Get(meta, UserAgent)));
    reasonCode := OptionalText(Get(payload, ReasonCode));
    TrimEmptiesBlank(p.actorId);
    TrimEmptiesBlank(p.resourceId);
    TrimEmptiesBlank(p.traceId.value);
    TrimEmptiesBlank(p.referenceId);
    ReadsText(Get(payload, ReasonCode));
    ReadsText(Get(meta, FromAccountId));
    ReadsText(Get(meta, ToAccountId));
    ReadsText(Get(meta, FraudRule));
    ReadsText(Get(meta, ClientIpMasked));
    ReadsText(Get(meta, UserAgent));
  }
}
