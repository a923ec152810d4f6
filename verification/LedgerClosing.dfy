/**
 closeAccount only closes an empty account, but a credit does not look at the status again after the
 checks. So a closed account can end up with money: exactly when a transaction commits whose credit met a
 closed account. It cannot when every close waits until no open transaction has read the account.
 */
module LedgerClosing {
  import opened Prelude
  import opened LedgerStatements
  import opened LedgerMachine
  import opened LedgerInvariant
  import opened LedgerTheorems

  ghost predicate ClosedEmpty(s: State) {
    forall id :: id in s.db.accounts && s.db.accounts[id].status == Closed ==> s.db.accounts[id].balance == 0
  }

  // ---------- exactly when a closed account gets money ----------

  /** The step commits a body transaction that credits a closed account. */
  predicate CreditsClosed(s: State, a: Action) {
    && Commits(s, a)
    && var sess := s.sessions[a.session];
    && sess.phase.purpose.Body? && sess.req.To().Some? && sess.req.amount > 0
    && sess.req.To().value in s.db.accounts && s.db.accounts[sess.req.To().value].status == Closed
  }

  lemma CommitFillsExactly(s: State, p: nat)
    requires Inv(s) && ClosedEmpty(s) && p < |s.sessions|
    requires s.sessions[p].phase.InTransaction? && s.sessions[p].phase.stage == Committing
    ensures ClosedEmpty(AdvanceTransaction(s, p)) <==> !CreditsClosed(s, Advance(p))
  {
    var t := AdvanceTransaction(s, p);
    var sess := s.sessions[p];
    assert SessionInv(s, sess);
    forall id | id in s.db.accounts
      ensures t.db.accounts[id].balance == s.db.accounts[id].balance + RowEffect(sess.phase.work.row.value, id)
    {
      CommitWritesRow(s, p, id);
    }
    if CreditsClosed(s, Advance(p)) {
      CreditedIsNotEmpty(s, p);
    } else {
      forall id | id in t.db.accounts && t.db.accounts[id].status == Closed ensures t.db.accounts[id].balance == 0 {
        assert s.db.accounts[id].balance == 0;
        assert t.db.accounts[id].balance >= 0;
      }
    }
  }

  lemma CreditedIsNotEmpty(s: State, p: nat)
    requires Inv(s) && CreditsClosed(s, Advance(p)) && ClosedEmpty(s)
    ensures !ClosedEmpty(AdvanceTransaction(s, p))
  {
    var sess := s.sessions[p];
    var id := sess.req.To().value;
    assert SessionInv(s, sess);
    CommitWritesRow(s, p, id);
    assert AdvanceTransaction(s, p).db.accounts[id].status == Closed;
    assert s.db.accounts[id].balance == 0;
  }

  /** A step leaves money on a closed account exactly if it commits a credit to one. */
  lemma ClosedFillsExactly(s: State, a: Action)
    requires Inv(s) && ClosedEmpty(s)
    ensures ClosedEmpty(Next(s, a)) <==> !CreditsClosed(s, a)
  {
    if Commits(s, a) {
      CommitFillsExactly(s, a.session);
    } else {
      OnlyCommitsWrite(s, a);
      if a.SetStatus? {
        CloseWantsEmpty(s, a.actor, a.account, a.status);
      }
    }
  }

  lemma CloseWantsEmpty(s: State, actor: CustomerId, id: AccountId, status: AccountStatus)
    requires ClosedEmpty(s)
    ensures ClosedEmpty(ChangeStatus(s, actor, id, status))
  {
  }

  ghost predicate AlwaysEmpty(s: State, actions: seq<Action>) {
    ClosedEmpty(Run(s, actions)) && (|actions| > 0 ==> AlwaysEmpty(s, actions[..|actions| - 1]))
  }

  ghost predicate NeverCreditsClosed(s: State, actions: seq<Action>) {
    |actions| > 0 ==>
      var front := actions[..|actions| - 1];
      NeverCreditsClosed(s, front) && !CreditsClosed(Run(s, front), actions[|actions| - 1])
  }

  /** Closed accounts are empty all along a run exactly if no step of it commits a credit to one. */
  lemma {:induction false} ClosedStaysEmptyExactly(s: State, actions: seq<Action>)
    requires Init(s) && ClosedEmpty(s)
    ensures AlwaysEmpty(s, actions) <==> NeverCreditsClosed(s, actions)
  {
    InitInv(s);
    if |actions| > 0 {
      var front := actions[..|actions| - 1];
      ClosedStaysEmptyExactly(s, front);
      RunInv(s, front);
      if AlwaysEmpty(s, front) {
        AlwaysEmptyNow(s, front);
        ClosedFillsExactly(Run(s, front), actions[|actions| - 1]);
      }
    }
  }

  lemma AlwaysEmptyNow(s: State, actions: seq<Action>)
    requires AlwaysEmpty(s, actions)
    ensures ClosedEmpty(Run(s, actions))
  {
  }

  // ---------- how the status moves ----------

  /** A step changes an account's status only as its owner asks, while no open transaction holds the account:
      freezing an active one, unfreezing a frozen one, and closing an empty one. */
  lemma StatusMoves(s: State, a: Action, id: AccountId)
    requires id in s.db.accounts
    ensures id in Next(s, a).db.accounts
    ensures var before, after := s.db.accounts[id], Next(s, a).db.accounts[id];
      var asked := a.SetStatus? && a.account == id && a.actor == before.owner &&
                   (forall q: nat :: !HoldsAccount(s, q, id));
      after.status ==
        if asked && a.status == Frozen && before.status == Active then Frozen
        else if asked && a.status == Active && before.status == Frozen then Active
        else if asked && a.status == Closed && before.balance == 0 then Closed
        else before.status
  {
  }

  /** Closed is final. */
  lemma {:induction false} ClosedIsFinal(s: State, actions: seq<Action>, id: AccountId)
    requires id in s.db.accounts && s.db.accounts[id].status == Closed
    ensures id in Run(s, actions).db.accounts && Run(s, actions).db.accounts[id].status == Closed
  {
    if |actions| > 0 {
      ClosedIsFinal(s, actions[..|actions| - 1], id);
      StatusMoves(Run(s, actions[..|actions| - 1]), actions[|actions| - 1], id);
    }
  }

  // ---------- the status the credit met ----------

  /** While a transaction holds an account, its row lock keeps the status as it is. */
  lemma HeldStatusIsFixed(s: State, a: Action, p: nat, id: AccountId)
    requires HoldsAccount(s, p, id) && id in s.db.accounts
    ensures id in Next(s, a).db.accounts && Next(s, a).db.accounts[id].status == s.db.accounts[id].status
  {
  }

  /** p holds the account all along. */
  ghost predicate HeldAlong(s: State, actions: seq<Action>, p: nat, id: AccountId) {
    HoldsAccount(Run(s, actions), p, id) && (|actions| > 0 ==> HeldAlong(s, actions[..|actions| - 1], p, id))
  }

  /** So the status a commit finds is the one its credit statement met: looking at the status there, as
      the decrement looks at the balance, is all that is missing. */
  lemma {:induction false} CreditMeetsTheStatus(s: State, actions: seq<Action>, p: nat, id: AccountId)
    requires id in s.db.accounts && HeldAlong(s, actions, p, id)
    ensures id in Run(s, actions).db.accounts
    ensures Run(s, actions).db.accounts[id].status == s.db.accounts[id].status
  {
    if |actions| > 0 {
      CreditMeetsTheStatus(s, actions[..|actions| - 1], p, id);
      HeldNow(s, actions[..|actions| - 1], p, id);
      HeldStatusIsFixed(Run(s, actions[..|actions| - 1]), actions[|actions| - 1], p, id);
    }
  }

  lemma HeldNow(s: State, actions: seq<Action>, p: nat, id: AccountId)
    requires HeldAlong(s, actions, p, id)
    ensures HoldsAccount(Run(s, actions), p, id)
  {
  }

  // ---------- closes that wait ----------

  predicate HasRead(s: State, p: nat, id: AccountId) {
    p < |s.sessions| && s.sessions[p].phase.InTransaction? && id in s.sessions[p].phase.work.seen
  }

  /** A close that arrives while no open transaction has read the account. */
  ghost predicate Quiet(s: State, a: Action) {
    a.SetStatus? && a.status == Closed ==> forall p: nat :: !HasRead(s, p, a.account)
  }

  ghost predicate QuietRun(s: State, actions: seq<Action>) {
    |actions| > 0 ==>
      var front := actions[..|actions| - 1];
      QuietRun(s, front) && Quiet(Run(s, front), actions[|actions| - 1])
  }

  /** Past its checks a body transaction has seen every account it uses as active. */
  ghost predicate SeenActive(sess: Session) {
    sess.phase.InTransaction? && sess.phase.purpose.Body? &&
    !sess.phase.stage.Reading? && !sess.phase.stage.Checking? ==>
      forall i :: 0 <= i < |Reads(sess.req)| ==>
        Reads(sess.req)[i] in sess.phase.work.seen && sess.phase.work.seen[Reads(sess.req)[i]].status == Active
  }

  /** What an open transaction saw open is still not closed. */
  ghost predicate StillOpen(s: State, sess: Session) {
    sess.phase.InTransaction? ==>
      forall id :: id in sess.phase.work.seen ==>
        id in s.db.accounts &&
        (sess.phase.work.seen[id].status != Closed ==> s.db.accounts[id].status != Closed)
  }

  ghost predicate ClosingInv(s: State) {
    && Inv(s) && ClosedEmpty(s)
    && (forall p :: 0 <= p < |s.sessions| ==> SeenActive(s.sessions[p]) && StillOpen(s, s.sessions[p]))
  }

  lemma CommitKeepsEmpty(s: State, p: nat)
    requires ClosingInv(s) && p < |s.sessions|
    requires s.sessions[p].phase.InTransaction? && s.sessions[p].phase.stage == Committing
    ensures ClosedEmpty(AdvanceTransaction(s, p))
  {
    var sess := s.sessions[p];
    assert SessionInv(s, sess);
    assert SeenActive(sess) && StillOpen(s, sess);
    var moves := Moves(sess.req);
    forall id | id in sess.phase.work.writes ensures id in s.db.accounts && s.db.accounts[id].status != Closed {
      var i :| 0 <= i < MovesDone(sess.req, sess.phase.purpose, Committing) && moves[i].account == id;
      assert id in Reads(sess.req);
    }
  }

  lemma StatementKeepsClosing(s: State, p: nat)
    requires ClosingInv(s) && p < |s.sessions| && s.sessions[p].phase.InTransaction?
    requires s.sessions[p].phase.stage != Committing
    ensures var t := AdvanceTransaction(s, p);
      t.db == s.db && |t.sessions| == |s.sessions| &&
      SeenActive(t.sessions[p]) && StillOpen(t, t.sessions[p])
  {
    var sess := s.sessions[p];
    assert SessionInv(s, sess);
    assert SeenActive(sess) && StillOpen(s, sess);
  }

  lemma AdvanceKeepsClosing(s: State, p: nat)
    requires ClosingInv(s) && p < |s.sessions| && s.sessions[p].phase.InTransaction? && !Blocked(s, p)
    ensures ClosingInv(AdvanceTransaction(s, p))
  {
    var t := AdvanceTransaction(s, p);
    TransactionKeepsInv(s, p);
    if s.sessions[p].phase.stage == Committing {
      CommitKeepsEmpty(s, p);
    } else {
      StatementKeepsClosing(s, p);
    }
    forall q | 0 <= q < |t.sessions| ensures SeenActive(t.sessions[q]) && StillOpen(t, t.sessions[q]) {
      if q != p {
        assert SeenActive(s.sessions[q]) && StillOpen(s, s.sessions[q]);
      }
    }
  }

  lemma StatusKeepsClosing(s: State, actor: CustomerId, id: AccountId, status: AccountStatus)
    requires ClosingInv(s) && Quiet(s, SetStatus(actor, id, status))
    ensures ClosingInv(ChangeStatus(s, actor, id, status))
  {
    var t := ChangeStatus(s, actor, id, status);
    StatusKeepsInv(s, actor, id, status);
    forall q | 0 <= q < |t.sessions| ensures SeenActive(t.sessions[q]) && StillOpen(t, t.sessions[q]) {
      assert SeenActive(s.sessions[q]) && StillOpen(s, s.sessions[q]);
      if s.sessions[q].phase.InTransaction? {
        assert forall seen :: seen in s.sessions[q].phase.work.seen ==> HasRead(s, q, seen);
      }
    }
  }

  /** Steps outside a transaction, and throws, change no table and open only fresh transactions. */
  lemma OutsideKeepsClosing(s: State, t: State, p: nat)
    requires ClosingInv(s) && Inv(t) && t.db == s.db && p < |s.sessions| == |t.sessions|
    requires t.sessions == s.sessions[p := t.sessions[p]]
    requires t.sessions[p] == s.sessions[p] || !t.sessions[p].phase.InTransaction? ||
             (t.sessions[p].phase.work == FreshWork &&
              (t.sessions[p].phase.purpose.Body? ==> t.sessions[p].phase.stage.Reading?))
    ensures ClosingInv(t)
  {
    forall q | 0 <= q < |t.sessions| ensures SeenActive(t.sessions[q]) && StillOpen(t, t.sessions[q]) {
      assert SeenActive(s.sessions[q]) && StillOpen(s, s.sessions[q]);
    }
  }

  lemma NextKeepsClosing(s: State, a: Action)
    requires ClosingInv(s) && Quiet(s, a)
    ensures ClosingInv(Next(s, a))
  {
    if a.SetStatus? {
      StatusKeepsClosing(s, a.actor, a.account, a.status);
    } else if a.session < |s.sessions| {
      NextInv(s, a);
      if a.Advance? && s.sessions[a.session].phase.InTransaction? {
        if !Blocked(s, a.session) {
          AdvanceKeepsClosing(s, a.session);
        }
      } else {
        assert s.sessions == s.sessions[a.session := s.sessions[a.session]];
        OutsideKeepsClosing(s, Next(s, a), a.session);
      }
    }
  }

  /** Closes that wait are one way to keep closed accounts empty: a run of them never credits one. */
  lemma {:induction false} QuietNeverCreditsClosed(s: State, actions: seq<Action>)
    requires Init(s) && ClosedEmpty(s) && QuietRun(s, actions)
    ensures NeverCreditsClosed(s, actions) && ClosingInv(Run(s, actions))
  {
    if |actions| == 0 {
      InitInv(s);
    } else {
      var front, a := actions[..|actions| - 1], actions[|actions| - 1];
      QuietNeverCreditsClosed(s, front);
      NextKeepsClosing(Run(s, front), a);
      ClosedFillsExactly(Run(s, front), a);
    }
  }

  // ---------- a close between the checks and the credit ----------

  const DEPOSIT := DepositRequest(7, "r", 1, 5)
  const EMPTY := State(Tables(map[1 := Account(7, Active, 0)], [], []), [Session(DEPOSIT, 0, Looking, 0)], 0)
  const LATE_CLOSE := [Advance(0), Advance(0), Advance(0), SetStatus(7, 1, Closed),
                       Advance(0), Advance(0), Advance(0), Advance(0), Advance(0)]

  lemma {:induction false} RunTo(s: State, actions: seq<Action>, k: nat)
    requires 0 < k <= |actions|
    ensures Run(s, actions[..k]) == Next(Run(s, actions[..k - 1]), actions[k - 1])
  {
    assert actions[..k][..k - 1] == actions[..k - 1];
  }

  lemma Lands(k: nat, before: State, after: State)
    requires 0 < k <= |LATE_CLOSE| && Run(EMPTY, LATE_CLOSE[..k - 1]) == before
    requires Next(before, LATE_CLOSE[k - 1]) == after
    ensures Run(EMPTY, LATE_CLOSE[..k]) == after
  {
    RunTo(EMPTY, LATE_CLOSE, k);
  }

  /** The one-account, one-request state with everything filled in. */
  function At(status: AccountStatus, phase: Phase, nextId: nat): State {
    State(Tables(map[1 := Account(7, status, 0)], [], []), [Session(DEPOSIT, 0, phase, 0)], nextId)
  }

  const SEEN := FreshWork.(seen := map[1 := Account(7, Active, 0)])
  const HELD := SEEN.(row := Some(PendingRow(DEPOSIT, 0)))
  const PAID := HELD.(writes := map[1 := 5])

  lemma BeforeTheClose()
    ensures Run(EMPTY, LATE_CLOSE[..3]) == At(Active, InTransaction(Body, Inserting, SEEN), 0)
  {
    assert LATE_CLOSE[..0] == [];
    RunTo(EMPTY, LATE_CLOSE, 1);
    RunTo(EMPTY, LATE_CLOSE, 2);
    RunTo(EMPTY, LATE_CLOSE, 3);
    var s1 := Run(EMPTY, LATE_CLOSE[..1]);
    assert s1 == At(Active, BodyStart, 0);
    var s2 := Run(EMPTY, LATE_CLOSE[..2]);
    assert s2 == At(Active, InTransaction(Body, Checking, SEEN), 0);
  }

  /** Nobody holds the account, so the close goes through. */
  lemma CloseStep(s: State)
    requires s == At(Active, InTransaction(Body, Inserting, SEEN), 0)
    ensures ChangeStatus(s, 7, 1, Closed) == At(Closed, InTransaction(Body, Inserting, SEEN), 0)
  {
    assert forall q :: 0 <= q < |s.sessions| ==> !HoldsAccount(s, q, 1);
    assert s.db.accounts[1 := Account(7, Closed, 0)] == map[1 := Account(7, Closed, 0)];
  }

  lemma CloseLands()
    ensures Run(EMPTY, LATE_CLOSE[..4]) == At(Closed, InTransaction(Body, Inserting, SEEN), 0)
  {
    var before := At(Active, InTransaction(Body, Inserting, SEEN), 0);
    BeforeTheClose();
    CloseStep(before);
    Lands(4, before, At(Closed, InTransaction(Body, Inserting, SEEN), 0));
  }

  lemma InsertLands()
    ensures Run(EMPTY, LATE_CLOSE[..5]) == At(Closed, InTransaction(Body, Moving(0), HELD), 1)
  {
    CloseLands();
    RunTo(EMPTY, LATE_CLOSE, 5);
  }

  lemma CreditStatement()
    ensures Statement(At(Closed, Looking, 1).db, DEPOSIT, Body, Moving(0), HELD, 1) == Ok(PAID)
    ensures NextStage(DEPOSIT, Body, Moving(0)) == Marking
  {
    assert map[][1 := 5] == map[1 := 5];
  }

  lemma CreditStep(s: State)
    requires s == At(Closed, InTransaction(Body, Moving(0), HELD), 1)
    ensures Next(s, Advance(0)) == At(Closed, InTransaction(Body, Marking, PAID), 1)
  {
    CreditStatement();
    assert !Blocked(s, 0);
  }

  lemma CreditLands()
    ensures Run(EMPTY, LATE_CLOSE[..6]) == At(Closed, InTransaction(Body, Marking, PAID), 1)
  {
    var before := At(Closed, InTransaction(Body, Moving(0), HELD), 1);
    InsertLands();
    CreditStep(before);
    Lands(6, before, At(Closed, InTransaction(Body, Marking, PAID), 1));
  }

  const MARKED := PAID.(row := Some(PendingRow(DEPOSIT, 0).(status := Completed)))
  const TOLD := MARKED.(event := Some(EventFor(PendingRow(DEPOSIT, 0).(status := Completed))))

  lemma MarkLands()
    ensures Run(EMPTY, LATE_CLOSE[..7]) == At(Closed, InTransaction(Body, Emitting, MARKED), 1)
  {
    CreditLands();
    RunTo(EMPTY, LATE_CLOSE, 7);
  }

  lemma EmitLands()
    ensures Run(EMPTY, LATE_CLOSE[..8]) == At(Closed, InTransaction(Body, Committing, TOLD), 1)
  {
    MarkLands();
    RunTo(EMPTY, LATE_CLOSE, 8);
  }

  /** The deposit is checked against an active empty account, the account is closed, the credit still
      lands: a closed account with balance 5. */
  lemma LateCloseKeepsMoney()
    ensures Init(EMPTY) && ClosedEmpty(EMPTY)
    ensures Run(EMPTY, LATE_CLOSE).db.accounts == map[1 := Account(7, Closed, 5)]
  {
    EmitLands();
    RunTo(EMPTY, LATE_CLOSE, 9);
    assert LATE_CLOSE[..9] == LATE_CLOSE;
  }
}
