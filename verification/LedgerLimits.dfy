/**
 The daily limit of the ledger's own rows: the ledger and the limit of one customer and one operation, run
 side by side. Each request of that customer and operation is one request to both; what completes in the
 ledger is what commits against the limit.
 */
module LedgerLimits {
  import opened LedgerStatements
  import Ledger = LedgerMachine
  import LedgerInvariant
  import LedgerTheorems
  import Limits = DailyLimitRuns
  import opened DailyLimitConditions

  /** Limit request p is ledger request serves[p]: same customer, operation, reference and amount. */
  ghost predicate SameRequests(actor: CustomerId, op: Operation, ledger: seq<Ledger.Session>,
                               limits: seq<Limits.Session>, serves: seq<nat>) {
    && |serves| == |limits|
    && forall p :: 0 <= p < |limits| ==>
         && serves[p] < |ledger|
         && ledger[serves[p]].req.UniqueKey() == Key(actor, op, limits[p].reference)
         && ledger[serves[p]].req.amount == limits[p].amount
  }

  /** The step commits a completed row of this customer and operation. */
  predicate Completes(actor: CustomerId, op: Operation, s: Ledger.State, a: Ledger.Action) {
    && LedgerTheorems.Commits(s, a) && s.sessions[a.session].phase.purpose.Body?
    && s.sessions[a.session].req.actor == actor && s.sessions[a.session].req.Operation() == op
  }

  /** The step turns a reservation into a completed row. */
  predicate Spends(s: Limits.State, a: Limits.Action) {
    && a.Commit? && a.session < |s.sessions| && s.sessions[a.session].phase.Working?
    && s.sessions[a.session].reference !in s.rows
  }

  /** One completes exactly when the other spends, and for the same request. */
  ghost predicate Joined(actor: CustomerId, op: Operation, s: Ledger.State, a: Ledger.Action,
                         t: Limits.State, b: Limits.Action, serves: seq<nat>) {
    && (Completes(actor, op, s, a) <==> Spends(t, b))
    && (Spends(t, b) ==> b.session < |serves| && a.session == serves[b.session])
  }

  /** Along both runs; where only one of them moves, the other's step changes nothing. */
  ghost predicate InStep(actor: CustomerId, op: Operation, ledger: Ledger.State, ledgerActions: seq<Ledger.Action>,
                         limits: Limits.State, limitActions: seq<Limits.Action>, serves: seq<nat>)
    decreases |ledgerActions|
  {
    && |ledgerActions| == |limitActions|
    && (|ledgerActions| > 0 ==>
          var n := |ledgerActions| - 1;
          && InStep(actor, op, ledger, ledgerActions[..n], limits, limitActions[..n], serves)
          && Joined(actor, op, Ledger.Run(ledger, ledgerActions[..n]), ledgerActions[n],
                    Limits.Run(limits, limitActions[..n]), limitActions[n], serves))
  }

  /** The completed rows of this customer and operation. */
  function CompletedOf(actor: CustomerId, op: Operation, rows: seq<Row>): seq<Row> {
    if |rows| == 0 then []
    else
      var front, last := CompletedOf(actor, op, rows[..|rows| - 1]), rows[|rows| - 1];
      if last.status == Completed && last.key.actor == actor && last.key.operation == op then front + [last] else front
  }

  /** Row i stands on reservation i. */
  ghost predicate Matches(rows: seq<Row>, spent: seq<Limits.Spending>) {
    && |rows| == |spent|
    && forall i :: 0 <= i < |rows| ==> rows[i].key.reference == spent[i].reference && rows[i].amount == spent[i].amount
  }

  /** The amounts of the rows whose reservations belong to this day. */
  function AmountsOn(rows: seq<Row>, spent: seq<Limits.Spending>, day: nat): nat
    requires |rows| == |spent|
  {
    if |rows| == 0 then 0
    else (if spent[0].day == day then rows[0].amount else 0) + AmountsOn(rows[1..], spent[1..], day)
  }

  lemma {:induction false} MatchedSums(rows: seq<Row>, spent: seq<Limits.Spending>, day: nat)
    requires Matches(rows, spent)
    ensures AmountsOn(rows, spent, day) == SpentOn(spent, day)
  {
    if |rows| > 0 {
      assert Matches(rows[1..], spent[1..]);
      MatchedSums(rows[1..], spent[1..], day);
    }
  }

  /** A ledger step appends at most one row, and one of this kind exactly when it completes. */
  lemma StepAppends(actor: CustomerId, op: Operation, s: Ledger.State, a: Ledger.Action, since: nat)
    requires LedgerInvariant.Inv(s) && since <= |s.db.rows|
    ensures |s.db.rows| <= |Ledger.Next(s, a).db.rows|
    ensures var before := CompletedOf(actor, op, s.db.rows[since..]);
      var after := CompletedOf(actor, op, Ledger.Next(s, a).db.rows[since..]);
      if Completes(actor, op, s, a)
      then |after| == |before| + 1 && after[..|before|] == before
           && after[|before|].key == s.sessions[a.session].req.UniqueKey()
           && after[|before|].amount == s.sessions[a.session].req.amount
      else after == before
  {
    if LedgerTheorems.Commits(s, a) {
      assert LedgerInvariant.SessionInv(s, s.sessions[a.session]);
      var row := s.sessions[a.session].phase.work.row.value;
      assert Ledger.Next(s, a).db.rows == s.db.rows + [row];
      assert (s.db.rows + [row])[since..] == s.db.rows[since..] + [row];
      assert (s.db.rows[since..] + [row])[..|s.db.rows[since..]|] == s.db.rows[since..];
    } else {
      LedgerTheorems.OnlyCommitsWrite(s, a);
    }
  }

  lemma SpendsAppends(s: Limits.State, a: Limits.Action)
    ensures |Limits.Next(s, a).sessions| == |s.sessions|
    ensures forall p :: 0 <= p < |s.sessions| ==>
              var before, after := s.sessions[p], Limits.Next(s, a).sessions[p];
              after.reference == before.reference && after.amount == before.amount
    ensures Spends(s, a) ==>
              var own := s.sessions[a.session];
              Limits.Next(s, a).spent == s.spent + [Limits.Spending(own.reference, own.amount, own.phase.day, s.now)]
    ensures !Spends(s, a) ==> Limits.Next(s, a).spent == s.spent
  {
  }

  /** What the ledger completes from the start on. */
  function CompletedSince(actor: CustomerId, op: Operation, since: nat, s: Ledger.State): seq<Row> {
    if since <= |s.db.rows| then CompletedOf(actor, op, s.db.rows[since..]) else []
  }

  /** It is what was spent, in order. */
  ghost predicate Together(actor: CustomerId, op: Operation, since: nat, s: Ledger.State, t: Limits.State,
                           serves: seq<nat>) {
    && LedgerInvariant.Inv(s) && since <= |s.db.rows|
    && SameRequests(actor, op, s.sessions, t.sessions, serves)
    && Matches(CompletedSince(actor, op, since, s), t.spent)
  }

  lemma StartTogether(actor: CustomerId, op: Operation, s: Ledger.State, t: Limits.State, serves: seq<nat>)
    requires Ledger.Init(s) && Limits.Init(t) && SameRequests(actor, op, s.sessions, t.sessions, serves)
    ensures Together(actor, op, |s.db.rows|, s, t, serves)
  {
    LedgerInvariant.InitInv(s);
    assert s.db.rows[|s.db.rows|..] == [];
  }

  lemma OneMore(rows: seq<Row>, after: seq<Row>, spent: seq<Limits.Spending>, e: Limits.Spending)
    requires Matches(rows, spent) && |after| == |rows| + 1 && after[..|rows|] == rows
    requires after[|rows|].key.reference == e.reference && after[|rows|].amount == e.amount
    ensures Matches(after, spent + [e])
  {
    forall i | 0 <= i < |rows| ensures after[i] == rows[i] {
      assert after[..|rows|][i] == rows[i];
    }
  }

  lemma StepMatches(actor: CustomerId, op: Operation, since: nat, s: Ledger.State, a: Ledger.Action,
                    t: Limits.State, b: Limits.Action, serves: seq<nat>)
    requires Together(actor, op, since, s, t, serves) && Joined(actor, op, s, a, t, b, serves)
    ensures since <= |Ledger.Next(s, a).db.rows|
    ensures Matches(CompletedSince(actor, op, since, Ledger.Next(s, a)), Limits.Next(t, b).spent)
  {
    StepAppends(actor, op, s, a, since);
    SpendsAppends(t, b);
    if Spends(t, b) {
      OneMore(CompletedSince(actor, op, since, s), CompletedSince(actor, op, since, Ledger.Next(s, a)), t.spent,
              Limits.Next(t, b).spent[|t.spent|]);
    }
  }

  lemma StepTogether(actor: CustomerId, op: Operation, since: nat, s: Ledger.State, a: Ledger.Action,
                     t: Limits.State, b: Limits.Action, serves: seq<nat>)
    requires Together(actor, op, since, s, t, serves) && Joined(actor, op, s, a, t, b, serves)
    ensures Together(actor, op, since, Ledger.Next(s, a), Limits.Next(t, b), serves)
  {
    LedgerInvariant.NextInv(s, a);
    StepMatches(actor, op, since, s, a, t, b, serves);
    SpendsAppends(t, b);
    LedgerTheorems.NextKeepsRequests(s, a);
  }

  lemma {:induction false} RunTogether(actor: CustomerId, op: Operation, ledger: Ledger.State,
      ledgerActions: seq<Ledger.Action>, limits: Limits.State, limitActions: seq<Limits.Action>, serves: seq<nat>)
    requires Ledger.Init(ledger) && Limits.Init(limits)
    requires SameRequests(actor, op, ledger.sessions, limits.sessions, serves)
    requires InStep(actor, op, ledger, ledgerActions, limits, limitActions, serves)
    ensures Together(actor, op, |ledger.db.rows|, Ledger.Run(ledger, ledgerActions),
                     Limits.Run(limits, limitActions), serves)
    decreases |ledgerActions|
  {
    if |ledgerActions| == 0 {
      StartTogether(actor, op, ledger, limits, serves);
    } else {
      var n := |ledgerActions| - 1;
      RunTogether(actor, op, ledger, ledgerActions[..n], limits, limitActions[..n], serves);
      StepTogether(actor, op, |ledger.db.rows|, Ledger.Run(ledger, ledgerActions[..n]), ledgerActions[n],
                   Limits.Run(limits, limitActions[..n]), limitActions[n], serves);
    }
  }

  /** The completed rows of one customer and one operation, on the reservations of one day, add up to at most
      the limit in every run of the ledger whose limit runs on time and uncovers no row. */
  lemma LedgerStaysWithinLimit(actor: CustomerId, op: Operation, ledger: Ledger.State,
      ledgerActions: seq<Ledger.Action>, limits: Limits.State, limitActions: seq<Limits.Action>, serves: seq<nat>,
      day: nat)
    requires Ledger.Init(ledger) && Limits.Init(limits)
    requires SameRequests(actor, op, ledger.sessions, limits.sessions, serves)
    requires InStep(actor, op, ledger, ledgerActions, limits, limitActions, serves)
    requires Limits.OnTimeRun(limits, limitActions) && NeverUncovers(limits, limitActions)
    ensures var rows := CompletedSince(actor, op, |ledger.db.rows|, Ledger.Run(ledger, ledgerActions));
      var spent := Limits.Run(limits, limitActions).spent;
      Matches(rows, spent) && AmountsOn(rows, spent, day) <= Limits.Run(limits, limitActions).limit
  {
    RunTogether(actor, op, ledger, ledgerActions, limits, limitActions, serves);
    DailyLimitHolds(limits, limitActions, day);
    MatchedSums(CompletedSince(actor, op, |ledger.db.rows|, Ledger.Run(ledger, ledgerActions)),
                Limits.Run(limits, limitActions).spent, day);
  }
}
