/**
 From a committed transaction to its consumers and its audit row: ledger, outbox, consumers and
 dispatcher put together. The broker hands every confirmed publish to the queues bound to its type; row
 k of the outbox is message k. The outbox holds the ledger's events among others, such as registrations.
 */
module DeliveryPath {
  import Text
  import Outbox = OutboxMachine
  import OutboxTheorems
  import Ledger = LedgerMachine
  import LedgerStatements
  import LedgerTheorems
  import Audit = TransactionAudit
  import opened ConsumerMachine
  import opened ConsumerTheorems
  import opened ConsumerConditions

  /** The message has a copy in this consumer's queue, past or present. */
  ghost predicate Reached(s: System, key: RowKey) {
    exists i :: 0 <= i < |s.copies| && KeyOf(s.copies[i]) == key
  }

  lemma NextKeepsReached(cfg: Config, s: System, a: Action, key: RowKey)
    requires Reached(s, key)
    ensures Reached(Next(cfg, s, a), key)
  {
    var t := Next(cfg, s, a);
    var i :| 0 <= i < |s.copies| && KeyOf(s.copies[i]) == key;
    NewCopiesInSight(cfg, s, a);
    assert KeyOf(t.copies[i]) == key;
  }

  lemma PublishReaches(cfg: Config, s: System, id: MessageId, eventType: EventType, consumer: Consumer)
    requires consumer in Routes(eventType)
    ensures Reached(Next(cfg, s, Publish(id, eventType)), RowKey(consumer, id))
  {
    var t := Next(cfg, s, Publish(id, eventType));
    var n := |s.copies|;
    assert t.copies[n] == Copy(Consumer.Audit, id, eventType, 0, Queued);
    if consumer == Email {
      assert t.copies[n + 1] == Copy(Email, id, eventType, 0, Queued);
    }
  }

  /** A message published at some point of a run has reached every consumer its type is routed to. */
  lemma {:induction false} PublishedReached(cfg: Config, actions: seq<Action>, id: MessageId, eventType: EventType,
                                            consumer: Consumer)
    requires Publish(id, eventType) in actions && consumer in Routes(eventType)
    ensures Reached(Run(cfg, EMPTY, actions), RowKey(consumer, id))
  {
    var front, last := actions[..|actions| - 1], actions[|actions| - 1];
    if last == Publish(id, eventType) {
      PublishReaches(cfg, Run(cfg, EMPTY, front), id, eventType, consumer);
    } else {
      assert actions == front + [last];
      PublishedReached(cfg, front, id, eventType, consumer);
      NextKeepsReached(cfg, Run(cfg, EMPTY, front), last, RowKey(consumer, id));
    }
  }

  /** The broker hands over what it confirmed: message k, of the type of row k. */
  ghost predicate HandsOver(broker: seq<nat>, types: seq<EventType>, actions: seq<Action>) {
    forall k :: k in broker ==> k < |types| && Publish(k, types[k]) in actions
  }

  /** An event the outbox marked PROCESSED is, for every consumer its type is routed to, completed or
      still queued, in a live handler or dead-lettered, in every run that loses nothing. */
  lemma ProcessedEventsAreAccountedFor(outboxCfg: Outbox.Config, outboxActions: seq<Outbox.Action>, cfg: Config,
                                       actions: seq<Action>, types: seq<EventType>, k: nat, consumer: Consumer)
    requires outboxCfg.Valid() && k < |Outbox.Run(outboxCfg, Outbox.EMPTY, outboxActions).rows|
    requires Outbox.Run(outboxCfg, Outbox.EMPTY, outboxActions).rows[k].status == Outbox.Processed
    requires HandsOver(Outbox.Run(outboxCfg, Outbox.EMPTY, outboxActions).broker, types, actions)
    requires NeverLoses(cfg, actions)
    ensures k < |types| && (consumer in Routes(types[k]) ==> Accounted(Run(cfg, EMPTY, actions), RowKey(consumer, k)))
  {
    OutboxTheorems.StatusMachine(outboxCfg, outboxActions, k);
    if consumer in Routes(types[k]) {
      PublishedReached(cfg, actions, k, types[k], consumer);
      NothingIsLostExactly(cfg, actions);
      AccountedNow(cfg, actions);
      var s := Run(cfg, EMPTY, actions);
      var i :| 0 <= i < |s.copies| && KeyOf(s.copies[i]) == RowKey(consumer, k);
      assert Accounted(s, KeyOf(s.copies[i]));
    }
  }

  // ---------- the ledger's events among the outbox rows ----------

  function TypeOf(event: LedgerStatements.Event): EventType {
    if event.eventType == LedgerStatements.TransactionCompleted then TransactionCompleted else TransactionFailed
  }

  /** Event i of the ledger is row places[i] of the outbox, with its type; other rows may lie between. */
  ghost predicate Embedded(events: seq<LedgerStatements.Event>, places: seq<nat>, types: seq<EventType>) {
    && |places| == |events|
    && (forall i :: 0 <= i < |events| ==> places[i] < |types| && types[places[i]] == TypeOf(events[i]))
    && (forall i, j :: 0 <= i < j < |places| ==> places[i] < places[j])
  }

  /** Every committed transaction has its event, and once that is PROCESSED both the audit consumer and
      the email consumer have completed it or still have it in sight. */
  lemma CommittedTransactionsReachTheirConsumers(start: Ledger.State, ledgerActions: seq<Ledger.Action>,
      places: seq<nat>, types: seq<EventType>, outboxCfg: Outbox.Config, outboxActions: seq<Outbox.Action>,
      cfg: Config, actions: seq<Action>, i: nat)
    requires Ledger.Init(start) && i < |Ledger.Run(start, ledgerActions).db.rows|
    requires Embedded(Ledger.Run(start, ledgerActions).db.events, places, types) && i < |places|
    requires outboxCfg.Valid() && places[i] < |Outbox.Run(outboxCfg, Outbox.EMPTY, outboxActions).rows|
    requires Outbox.Run(outboxCfg, Outbox.EMPTY, outboxActions).rows[places[i]].status == Outbox.Processed
    requires HandsOver(Outbox.Run(outboxCfg, Outbox.EMPTY, outboxActions).broker, types, actions)
    requires NeverLoses(cfg, actions)
    ensures var ledger := Ledger.Run(start, ledgerActions);
      && i < |ledger.db.events| && ledger.db.events[i].resourceId == ledger.db.rows[i].id
      && Accounted(Run(cfg, EMPTY, actions), RowKey(Consumer.Audit, places[i]))
      && Accounted(Run(cfg, EMPTY, actions), RowKey(Email, places[i]))
  {
    var ledger := Ledger.Run(start, ledgerActions);
    LedgerTheorems.EventsMirrorRows(start, ledgerActions, i);
    assert Consumer.Audit in Routes(types[places[i]]) && Email in Routes(types[places[i]]) by {
      assert [Consumer.Audit, Email][0] == Consumer.Audit && [Consumer.Audit, Email][1] == Email;
    }
    ProcessedEventsAreAccountedFor(outboxCfg, outboxActions, cfg, actions, types, places[i], Consumer.Audit);
    ProcessedEventsAreAccountedFor(outboxCfg, outboxActions, cfg, actions, types, places[i], Email);
  }

  // ---------- completed means audited ----------

  /** What the audit consumer's dispatches have written: each returned, so each wrote its row. */
  function AuditTrail(messages: seq<Audit.Message>, dispatched: seq<RowKey>): seq<Audit.AuditRow> {
    if |dispatched| == 0 then []
    else
      var front, last := AuditTrail(messages, dispatched[..|dispatched| - 1]), dispatched[|dispatched| - 1];
      if last.consumer == Consumer.Audit && last.messageId < |messages| &&
         Audit.AuditRowFor(messages[last.messageId]).Ok?
      then front + [Audit.AuditRowFor(messages[last.messageId]).value] else front
  }

  /** The audit consumer's dispatch returned for a message only where the dispatcher returns at all. */
  ghost predicate DispatchesAsWritten(messages: seq<Audit.Message>, dispatched: seq<RowKey>) {
    forall key :: key in dispatched && key.consumer == Consumer.Audit ==>
      key.messageId < |messages| && Audit.AuditRowFor(messages[key.messageId]).Ok?
  }

  lemma {:induction false} DispatchedIsInTrail(messages: seq<Audit.Message>, dispatched: seq<RowKey>, k: nat)
    requires DispatchesAsWritten(messages, dispatched) && RowKey(Consumer.Audit, k) in dispatched
    ensures k < |messages| && Audit.AuditRowFor(messages[k]).Ok?
    ensures Audit.AuditRowFor(messages[k]).value in AuditTrail(messages, dispatched)
  {
    var front, last := dispatched[..|dispatched| - 1], dispatched[|dispatched| - 1];
    if last != RowKey(Consumer.Audit, k) {
      assert dispatched == front + [last];
      DispatchedIsInTrail(messages, front, k);
    }
  }

  /** Message places[i] carries event i of the ledger, written in context ctxs[i]. */
  ghost predicate Carries(events: seq<LedgerStatements.Event>, places: seq<nat>, messages: seq<Audit.Message>,
                          ids: nat -> string, ctxs: seq<Audit.Context>) {
    |places| == |events| == |ctxs| &&
    forall i :: 0 <= i < |events| ==>
      places[i] < |messages| && messages[places[i]] == Audit.MessageOf(ids, events[i], ctxs[i])
  }

  /** In every run, once the audit consumer's row for a transaction's event is COMPLETED there is an audit
      row that names the committed transaction and tells how it ended; no assumption about time, lost
      updates or takeovers is needed. */
  lemma CompletedTransactionsAreAudited(start: Ledger.State, ledgerActions: seq<Ledger.Action>, ids: nat -> string,
      ctxs: seq<Audit.Context>, places: seq<nat>, messages: seq<Audit.Message>, cfg: Config, actions: seq<Action>,
      i: nat)
    requires Ledger.Init(start) && i < |Ledger.Run(start, ledgerActions).db.rows|
    requires forall n :: !Text.Blank(ids(n))
    requires Carries(Ledger.Run(start, ledgerActions).db.events, places, messages, ids, ctxs) && i < |places|
    requires DispatchesAsWritten(messages, Run(cfg, EMPTY, actions).dispatched)
    requires IsCompleted(Run(cfg, EMPTY, actions), RowKey(Consumer.Audit, places[i]))
    ensures exists audit :: audit in AuditTrail(messages, Run(cfg, EMPTY, actions).dispatched) &&
              Audit.Tells(ids, audit, Ledger.Run(start, ledgerActions).db.rows[i])
  {
    var ledger := Ledger.Run(start, ledgerActions);
    LedgerTheorems.EventsMatchRows(start, ledgerActions);
    CompletedWasDispatched(cfg, actions);
    DispatchedIsInTrail(messages, Run(cfg, EMPTY, actions).dispatched, places[i]);
    Audit.EveryEventIsAudited(start, ledgerActions, ids, ctxs[i], i);
    assert messages[places[i]] == Audit.MessageOf(ids, ledger.db.events[i], ctxs[i]);
    assert Audit.Tells(ids, Audit.AuditRowFor(messages[places[i]]).value, ledger.db.rows[i]);
  }
}
