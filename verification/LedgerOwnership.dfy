/**
 Whose money moves, in every run: a completed row takes from, or pays into, its actor's own account, and
 every account it names was active at some moment before.
 */
module LedgerOwnership {
  import opened LedgerStatements
  import opened LedgerMachine
  import opened LedgerInvariant
  import opened LedgerTheorems

  /** The account a request acts for: the source, or the destination of a deposit. */
  function OwnAccount(req: Request): AccountId {
    if req.DepositRequest? then req.toId else req.fromId
  }

  function ActiveIds(s: State): set<AccountId> {
    set id | id in s.db.accounts && s.db.accounts[id].status == Active
  }

  /** The accounts that were active at some moment of a run. */
  function EverActive(s: State, actions: seq<Action>): set<AccountId> {
    ActiveIds(Run(s, actions)) + (if |actions| == 0 then {} else EverActive(s, actions[..|actions| - 1]))
  }

  /** What an open transaction has read: existing accounts under their owners, the active ones active at the time. */
  ghost predicate ReadTruly(s: State, met: set<AccountId>, sess: Session) {
    sess.phase.InTransaction? ==>
      forall id :: id in sess.phase.work.seen ==>
        && id in s.db.accounts && s.db.accounts[id].owner == sess.phase.work.seen[id].owner
        && (sess.phase.work.seen[id].status == Active ==> id in met)
  }

  predicate PastChecks(sess: Session) {
    sess.phase.InTransaction? && sess.phase.purpose.Body? && !sess.phase.stage.Reading? && !sess.phase.stage.Checking?
  }

  /** Past its checks a body has seen every account it names active, and its own as the actor's. */
  ghost predicate CheckedTruly(sess: Session) {
    PastChecks(sess) ==>
      && (forall i :: 0 <= i < |Reads(sess.req)| ==>
            Reads(sess.req)[i] in sess.phase.work.seen && sess.phase.work.seen[Reads(sess.req)[i]].status == Active)
      && OwnAccount(sess.req) in sess.phase.work.seen
      && sess.phase.work.seen[OwnAccount(sess.req)].owner == sess.req.actor
  }

  ghost predicate OwnMoney(s: State, met: set<AccountId>, row: Row) {
    row.status == Completed ==>
      && (row.from.Some? ==> row.from.value in s.db.accounts && row.from.value in met &&
                             s.db.accounts[row.from.value].owner == row.key.actor)
      && (row.to.Some? ==> row.to.value in s.db.accounts && row.to.value in met)
      && (row.from.None? ==> row.to.Some? && s.db.accounts[row.to.value].owner == row.key.actor)
  }

  ghost predicate OwnedInv(s: State, met: set<AccountId>, since: nat) {
    && Inv(s) && ActiveIds(s) <= met && since <= |s.db.rows|
    && (forall p :: 0 <= p < |s.sessions| ==> ReadTruly(s, met, s.sessions[p]) && CheckedTruly(s.sessions[p]))
    && (forall i :: since <= i < |s.db.rows| ==> OwnMoney(s, met, s.db.rows[i]))
  }

  /** Accounts keep their owners. */
  lemma OwnersStay(s: State, a: Action)
    ensures s.db.accounts.Keys == Next(s, a).db.accounts.Keys
    ensures forall id :: id in s.db.accounts ==> Next(s, a).db.accounts[id].owner == s.db.accounts[id].owner
  {
  }

  /** A read adds an account as it is now; whatever is active now is among the accounts met. */
  lemma ReadingOwned(s: State, met: set<AccountId>, p: nat)
    requires Inv(s) && ActiveIds(s) <= met && p < |s.sessions|
    requires s.sessions[p].phase.InTransaction? && s.sessions[p].phase.stage.Reading?
    requires ReadTruly(s, met, s.sessions[p])
    ensures var t := AdvanceTransaction(s, p);
      t.db == s.db && |t.sessions| == |s.sessions| && ReadTruly(t, met, t.sessions[p]) && !PastChecks(t.sessions[p])
  {
    var sess := s.sessions[p];
    assert SessionInv(s, sess);
    var id := Reads(sess.req)[sess.phase.stage.next];
    if id in s.db.accounts {
      assert s.db.accounts[id].status == Active ==> id in ActiveIds(s);
    }
  }

  lemma StatementOwned(s: State, met: set<AccountId>, p: nat)
    requires Inv(s) && ActiveIds(s) <= met && p < |s.sessions|
    requires s.sessions[p].phase.InTransaction? && s.sessions[p].phase.stage != Committing
    requires ReadTruly(s, met, s.sessions[p]) && CheckedTruly(s.sessions[p])
    ensures var t := AdvanceTransaction(s, p);
      t.db == s.db && |t.sessions| == |s.sessions| && ReadTruly(t, met, t.sessions[p]) && CheckedTruly(t.sessions[p])
  {
    if s.sessions[p].phase.stage.Reading? {
      ReadingOwned(s, met, p);
    } else {
      assert SessionInv(s, s.sessions[p]);
    }
  }

  lemma CommitOwned(s: State, met: set<AccountId>, p: nat)
    requires Inv(s) && p < |s.sessions|
    requires s.sessions[p].phase.InTransaction? && s.sessions[p].phase.stage == Committing
    requires ReadTruly(s, met, s.sessions[p]) && CheckedTruly(s.sessions[p])
    ensures var row := s.sessions[p].phase.work.row;
      row.Some? && AdvanceTransaction(s, p).db.rows == s.db.rows + [row.value] && OwnMoney(s, met, row.value)
  {
    var sess := s.sessions[p];
    assert SessionInv(s, sess);
    assert sess.phase.purpose.Body? ==> PastChecks(sess);
    if sess.phase.purpose.Body? && sess.req.TransferRequest? {
      assert Reads(sess.req)[1] == sess.req.toId;
    }
    assert Reads(sess.req)[0] == OwnAccount(sess.req);
  }

  lemma MoneyStaysOwned(s: State, met: set<AccountId>, a: Action, more: set<AccountId>, row: Row)
    requires OwnMoney(s, met, row) && met <= more
    ensures OwnMoney(Next(s, a), more, row)
  {
    OwnersStay(s, a);
  }

  /** Where the step changes no session but p, the others have read as truly as before. */
  lemma OthersOwned(s: State, met: set<AccountId>, a: Action, more: set<AccountId>, q: nat)
    requires q < |s.sessions| && met <= more && ReadTruly(s, met, s.sessions[q]) && CheckedTruly(s.sessions[q])
    requires q < |Next(s, a).sessions| && Next(s, a).sessions[q] == s.sessions[q]
    ensures ReadTruly(Next(s, a), more, Next(s, a).sessions[q]) && CheckedTruly(Next(s, a).sessions[q])
  {
    OwnersStay(s, a);
  }

  /** The session that moves: a statement, a commit, or a step outside a transaction. */
  lemma MoverOwned(s: State, met: set<AccountId>, since: nat, a: Action)
    requires OwnedInv(s, met, since) && !a.SetStatus? && a.session < |s.sessions|
    ensures |Next(s, a).sessions| == |s.sessions|
    ensures var sess := Next(s, a).sessions[a.session];
      ReadTruly(Next(s, a), met, sess) && CheckedTruly(sess)
  {
    var p := a.session;
    assert ReadTruly(s, met, s.sessions[p]) && CheckedTruly(s.sessions[p]);
    if a.Advance? && s.sessions[p].phase.InTransaction? && !Blocked(s, p) && s.sessions[p].phase.stage != Committing {
      StatementOwned(s, met, p);
    }
  }

  lemma NewRowsOwned(s: State, met: set<AccountId>, since: nat, a: Action, i: nat)
    requires OwnedInv(s, met, since) && since <= i < |Next(s, a).db.rows|
    ensures OwnMoney(Next(s, a), met, Next(s, a).db.rows[i])
  {
    if Commits(s, a) {
      assert ReadTruly(s, met, s.sessions[a.session]) && CheckedTruly(s.sessions[a.session]);
      CommitOwned(s, met, a.session);
    } else {
      OnlyCommitsWrite(s, a);
    }
    var row := Next(s, a).db.rows[i];
    if i < |s.db.rows| {
      assert row == s.db.rows[i];
    }
    MoneyStaysOwned(s, met, a, met, row);
  }

  lemma NextOwned(s: State, met: set<AccountId>, since: nat, a: Action)
    requires OwnedInv(s, met, since)
    ensures OwnedInv(Next(s, a), met + ActiveIds(Next(s, a)), since)
  {
    var t := Next(s, a);
    var more := met + ActiveIds(t);
    NextInv(s, a);
    RowsGrow(s, a);
    forall q | 0 <= q < |t.sessions| ensures ReadTruly(t, more, t.sessions[q]) && CheckedTruly(t.sessions[q]) {
      SessionOwned(s, met, since, a, q);
    }
    forall i | since <= i < |t.db.rows| ensures OwnMoney(t, more, t.db.rows[i]) {
      NewRowsOwned(s, met, since, a, i);
    }
  }

  lemma RowsGrow(s: State, a: Action)
    ensures |s.db.rows| <= |Next(s, a).db.rows| && |Next(s, a).sessions| == |s.sessions|
    ensures forall q :: 0 <= q < |s.sessions| && (a.SetStatus? || q != a.session) ==>
              Next(s, a).sessions[q] == s.sessions[q]
  {
  }

  lemma SessionOwned(s: State, met: set<AccountId>, since: nat, a: Action, q: nat)
    requires OwnedInv(s, met, since) && q < |Next(s, a).sessions|
    ensures var t := Next(s, a);
      ReadTruly(t, met + ActiveIds(t), t.sessions[q]) && CheckedTruly(t.sessions[q])
  {
    RowsGrow(s, a);
    if !a.SetStatus? && q == a.session {
      MoverOwned(s, met, since, a);
    } else {
      OthersOwned(s, met, a, met + ActiveIds(Next(s, a)), q);
    }
  }

  lemma {:induction false} RunOwned(s: State, actions: seq<Action>)
    requires Init(s)
    ensures OwnedInv(Run(s, actions), EverActive(s, actions), |s.db.rows|)
  {
    if |actions| == 0 {
      InitInv(s);
    } else {
      var front, a := actions[..|actions| - 1], actions[|actions| - 1];
      RunOwned(s, front);
      NextOwned(Run(s, front), EverActive(s, front), |s.db.rows|, a);
      assert EverActive(s, actions) == EverActive(s, front) + ActiveIds(Run(s, actions));
    }
  }

  /** Every completed row committed in a run takes its money from an account of its actor, or, for a deposit,
      pays into one; each account it names exists and was active at some moment of the run. */
  lemma OnlyOwnMoneyMoves(s: State, actions: seq<Action>, i: nat)
    requires Init(s) && |s.db.rows| <= i < |Run(s, actions).db.rows|
    requires Run(s, actions).db.rows[i].status == Completed
    ensures var t := Run(s, actions);
      var Row(_, key, from, to, _, _, _, _) := t.db.rows[i];
      && (from.Some? ==> from.value in t.db.accounts && t.db.accounts[from.value].owner == key.actor)
      && (from.None? ==> to.Some? && to.value in t.db.accounts && t.db.accounts[to.value].owner == key.actor)
      && (from.Some? ==> from.value in EverActive(s, actions))
      && (to.Some? ==> to.value in t.db.accounts && to.value in EverActive(s, actions))
  {
    RunOwned(s, actions);
    assert OwnMoney(Run(s, actions), EverActive(s, actions), Run(s, actions).db.rows[i]);
  }
}
