/**
 The fraud rules in front of the ledger: what the rule lists decide is the verdict the ledger acts on, and no
 withdrawal or transfer completes past a rule.
 */
module LedgerScreening {
  import opened Prelude
  import L = LedgerStatements
  import Machine = LedgerMachine
  import Serial = LedgerSerial
  import LedgerAnswers
  import opened DailyLimit
  import opened FraudService

  /** The settings of the rule lists, and what the per-minute counter says. */
  datatype Screen = Screen(threshold: nat, perMinute: nat, count: Option<nat>, limit: nat)

  function RulesFor(req: L.Request, screen: Screen): seq<Rule> {
    if req.TransferRequest? then TransferRules(screen.threshold, screen.perMinute, screen.count, screen.limit)
    else WithdrawRules(screen.threshold, screen.limit)
  }

  function InputOf(req: L.Request): Input
    requires !req.DepositRequest?
  {
    Input(req.reference, req.fromId, req.To(), req.amount)
  }

  /** What the rules after the same-account rule say of a request, in their order. */
  ghost function Verdicts(req: L.Request, screen: Screen, store: Store): seq<Option<string>> {
    var fits := req.reference in store.refs || Sum(store.refs) + req.amount <= screen.limit;
    if req.TransferRequest? then
      [if req.amount > screen.threshold then Some("TRANSFER_AMOUNT_EXCEEDED") else None,
       if screen.count.Some? && screen.count.value > screen.perMinute
       then Some("TOO_MANY_TRANSFERS_IN_MINUTE") else None,
       if fits then None else Some("DAILY_TRANSFER_LIMIT_EXCEEDED")]
    else
      [if req.amount > screen.threshold then Some("WITHDRAW_AMOUNT_EXCEEDED") else None,
       if fits then None else Some("DAILY_WITHDRAW_LIMIT_EXCEEDED")]
  }

  /** The ledger's verdict is that of the rule lists, reason included. */
  lemma ScreensAlike(req: L.Request, screen: Screen, store: Store, clock: Clock)
    requires !req.DepositRequest?
    requires clock.metaAt <= clock.now < EndOfDay(DayOf(clock.metaAt))
    requires StoreInv(store, screen.limit, DayOf(clock.metaAt))
    ensures Machine.FraudVerdict(req, Verdicts(req, screen, store)) ==
            Evaluate(RulesFor(req, screen), InputOf(req), store, clock).0
  {
    var later := Verdicts(req, screen, store);
    if req.TransferRequest? {
      TransferVerdict(screen.threshold, screen.perMinute, screen.count, screen.limit, InputOf(req), store, clock);
    } else {
      WithdrawVerdict(screen.threshold, screen.limit, InputOf(req), store, clock);
    }
    if req.TransferRequest? ==> req.fromId != req.toId {
      LedgerAnswers.Screened(req, later);
      if later[0].Some? {
        LedgerAnswers.RejectsAt(later, 0);
      } else if later[1].Some? {
        LedgerAnswers.RejectsAt(later, 1);
      } else if |later| > 2 && later[2].Some? {
        LedgerAnswers.RejectsAt(later, 2);
      } else {
        LedgerAnswers.NoReject(later);
      }
    }
  }

  /** Whatever throws: a withdrawal or transfer that completes on a free key was within its threshold, had its
      reservation, and, for a transfer, named two accounts and did not exceed the transfers of the minute. */
  lemma CompletedWasWithinRules(db: L.Tables, nextId: nat, req: L.Request, screen: Screen, store: Store, clock: Clock,
                                faults: seq<Option<Serial.Trouble>>)
    requires !req.DepositRequest? && L.FindRow(db.rows, req.UniqueKey()).None?
    requires clock.metaAt <= clock.now < EndOfDay(DayOf(clock.metaAt))
    requires StoreInv(store, screen.limit, DayOf(clock.metaAt))
    requires Serial.Serve(db, nextId, req, Verdicts(req, screen, store), faults).outcome.Success?
    ensures req.amount <= screen.threshold
    ensures req.TransferRequest? ==>
              req.fromId != req.toId && (screen.count.None? || screen.count.value <= screen.perMinute)
    ensures req.reference in Evaluate(RulesFor(req, screen), InputOf(req), store, clock).1.refs
  {
    ScreensAlike(req, screen, store, clock);
    var verdict := Machine.FraudVerdict(req, Verdicts(req, screen, store));
    if verdict.Some? {
      LedgerAnswers.RejectedIsNoSuccess(db, nextId, req, verdict, Serial.FaultOf(faults, 0));
    }
    if req.TransferRequest? {
      TransferVerdict(screen.threshold, screen.perMinute, screen.count, screen.limit, InputOf(req), store, clock);
    } else {
      WithdrawVerdict(screen.threshold, screen.limit, InputOf(req), store, clock);
    }
  }
}
