/** What the ledger promises over whole runs, whatever the interleaving, the faults and the retries. */
module LedgerTheorems {
  import opened Prelude
  import opened LedgerStatements
  import opened LedgerMachine
  import opened LedgerInvariant

  // ---------- conservation ----------

  function RowEffect(row: Row, id: AccountId): int {
    if row.status != Completed then 0
    else (if row.to == Some(id) then row.amount else 0) - (if row.from == Some(id) then row.amount else 0)
  }

  /** Completed credits to an account minus completed debits from it. */
  function Net(rows: seq<Row>, id: AccountId): int {
    if |rows| == 0 then 0 else Net(rows[..|rows| - 1], id) + RowEffect(rows[|rows| - 1], id)
  }

  /** At its commit a body transaction has written exactly what its row says. */
  lemma CommitWritesRow(s: State, p: nat, id: AccountId)
    requires Inv(s) && p < |s.sessions| && id in s.db.accounts
    requires s.sessions[p].phase.InTransaction? && s.sessions[p].phase.stage == Committing
    ensures Commit(s.db, s.sessions[p].phase.work).accounts[id].balance
         == s.db.accounts[id].balance + RowEffect(s.sessions[p].phase.work.row.value, id)
  {
    var sess := s.sessions[p];
    assert SessionInv(s, sess);
    if sess.phase.purpose.Body? {
      var moves := Moves(sess.req);
      assert moves[0].account in sess.phase.work.writes;
      assert |moves| == 2 ==> moves[1].account in sess.phase.work.writes;
      assert Some(id) == sess.req.From() || Some(id) == sess.req.To() <==>
             id == moves[0].account || (|moves| == 2 && id == moves[1].account);
    }
  }

  lemma CommitConserves(s: State, p: nat, id: AccountId)
    requires Inv(s) && p < |s.sessions| && id in s.db.accounts
    requires s.sessions[p].phase.InTransaction? && s.sessions[p].phase.stage == Committing
    ensures var t := AdvanceTransaction(s, p);
      id in t.db.accounts &&
      t.db.accounts[id].balance - Net(t.db.rows, id) == s.db.accounts[id].balance - Net(s.db.rows, id)
  {
    assert SessionInv(s, s.sessions[p]);
    CommitWritesRow(s, p, id);
    assert (s.db.rows + [s.sessions[p].phase.work.row.value])[..|s.db.rows|] == s.db.rows;
  }

  predicate Commits(s: State, a: Action) {
    a.Advance? && a.session < |s.sessions| && s.sessions[a.session].phase.InTransaction? &&
    s.sessions[a.session].phase.stage == Committing
  }

  /** Only a commit touches balances or rows. */
  lemma OnlyCommitsWrite(s: State, a: Action)
    requires !Commits(s, a)
    ensures Next(s, a).db.rows == s.db.rows && Next(s, a).db.events == s.db.events
    ensures Next(s, a).db.accounts.Keys == s.db.accounts.Keys
    ensures forall id :: id in s.db.accounts ==> Next(s, a).db.accounts[id].balance == s.db.accounts[id].balance
  {
  }

  lemma NextConserves(s: State, a: Action, id: AccountId)
    requires Inv(s) && id in s.db.accounts
    ensures id in Next(s, a).db.accounts
    ensures Next(s, a).db.accounts[id].balance - Net(Next(s, a).db.rows, id)
         == s.db.accounts[id].balance - Net(s.db.rows, id)
  {
    if Commits(s, a) {
      CommitConserves(s, a.session, id);
    } else {
      OnlyCommitsWrite(s, a);
    }
  }

  /** Each balance is its starting value plus the completed credits and minus the completed debits
      committed since, and is never negative. */
  lemma {:induction false} BalancesFollowRows(s: State, actions: seq<Action>, id: AccountId)
    requires Inv(s) && id in s.db.accounts
    ensures id in Run(s, actions).db.accounts
    ensures Run(s, actions).db.accounts[id].balance
         == s.db.accounts[id].balance + Net(Run(s, actions).db.rows, id) - Net(s.db.rows, id)
    ensures Run(s, actions).db.accounts[id].balance >= 0
  {
    RunInv(s, actions);
    if |actions| > 0 {
      var before := Run(s, actions[..|actions| - 1]);
      BalancesFollowRows(s, actions[..|actions| - 1], id);
      RunInv(s, actions[..|actions| - 1]);
      NextConserves(before, actions[|actions| - 1], id);
    }
  }

  const LOOP := TransferRequest(7, "r", 1, 1, 10)
  const LOOP_TABLES := Tables(map[1 := Account(7, Active, 100)], [], [])

  /** Without the same-account rule the transfer loop would debit twice and credit nobody:
      its two updates turn 100 into 80 while the row they serve records no net effect. */
  lemma SameAccountDebitsTwice()
    ensures FraudVerdict(LOOP, []) == Some(SAME_ACCOUNT)
    ensures Moves(LOOP) == [Debit(1), Debit(1)]
    ensures ApplyMove(LOOP_TABLES, FreshWork, Debit(1), 10) == Ok(FreshWork.(writes := map[1 := 90]))
    ensures ApplyMove(LOOP_TABLES, FreshWork.(writes := map[1 := 90]), Debit(1), 10)
         == Ok(FreshWork.(writes := map[1 := 80]))
    ensures RowEffect(PendingRow(LOOP, 0).(status := Completed), 1) == 0
  {
    assert [SameAccountVerdict(LOOP)] + [] == [Some(SAME_ACCOUNT)];
    assert map[1 := 90][1 := 80] == map[1 := 80];
  }

  /** Exactly the transfers between different accounts pass the first rule. */
  lemma ApprovedTransfersDiffer(req: Request, verdicts: seq<Option<string>>)
    requires req.TransferRequest?
    ensures FraudVerdict(req, verdicts).None? <==>
            req.fromId != req.toId && forall i :: 0 <= i < |verdicts| ==> verdicts[i].None?
  {
    var all := [SameAccountVerdict(req)] + verdicts;
    FirstRejectNone(all);
    assert all[0] == SameAccountVerdict(req);
    assert forall i :: 0 <= i < |verdicts| ==> all[i + 1] == verdicts[i];
  }

  lemma {:induction false} FirstRejectNone(verdicts: seq<Option<string>>)
    ensures FirstReject(verdicts).None? <==> forall i :: 0 <= i < |verdicts| ==> verdicts[i].None?
  {
    if |verdicts| > 0 {
      FirstRejectNone(verdicts[1..]);
      assert forall i :: 0 < i < |verdicts| ==> verdicts[i] == verdicts[1..][i - 1];
    }
  }

  // ---------- idempotency ----------

  lemma {:induction false} RowsOnlyGrow(s: State, actions: seq<Action>)
    ensures s.db.rows <= Run(s, actions).db.rows
  {
    if |actions| > 0 {
      RowsOnlyGrow(s, actions[..|actions| - 1]);
    }
  }

  lemma UniqueRow(s: State, a: Row, b: Row)
    requires History(s) && a in s.db.rows && b in s.db.rows && a.key == b.key
    ensures a == b
  {
    var i :| 0 <= i < |s.db.rows| && s.db.rows[i] == a;
    var j :| 0 <= j < |s.db.rows| && s.db.rows[j] == b;
    assert i == j;
  }

  /** Answers that name a transaction agree whenever their keys do. */
  predicate Agree(mine: Outcome, theirs: Outcome) {
    && (mine.Success? && theirs.Success? ==> mine == theirs)
    && (mine.Success? ==> !(theirs.Failure? && theirs.error.FraudRejected?))
    && (mine.Failure? && mine.error.FraudRejected? && theirs.Failure? && theirs.error.FraudRejected? ==> mine == theirs)
  }

  lemma BackedAnswersAgree(s: State, a: Session, b: Session)
    requires History(s) && a.req.UniqueKey() == b.req.UniqueKey()
    requires a.phase.Done? && b.phase.Done?
    requires OutcomeBacked(s.db.rows, a.req, a.phase.outcome, a.commits)
    requires OutcomeBacked(s.db.rows, b.req, b.phase.outcome, b.commits)
    ensures Agree(a.phase.outcome, b.phase.outcome)
  {
    var first := RowNamed(s, a);
    var second := RowNamed(s, b);
    if first.Some? && second.Some? {
      UniqueRow(s, first.value, second.value);
    }
  }

  /** The committed row a finished request speaks of, if it speaks of one. */
  lemma RowNamed(s: State, sess: Session) returns (row: Option<Row>)
    requires sess.phase.Done? && OutcomeBacked(s.db.rows, sess.req, sess.phase.outcome, sess.commits)
    ensures row.Some? ==> row.value in s.db.rows && row.value.key == sess.req.UniqueKey()
    ensures sess.phase.outcome.Success? ==> row == Some(sess.phase.outcome.row) && row.value.status == Completed
    ensures sess.phase.outcome.Failure? && sess.phase.outcome.error.FraudRejected? ==>
              row.Some? && row.value.status == Rejected && row.value.fraudReason == sess.phase.outcome.error.reason
  {
    row := None;
    match sess.phase.outcome
    case Success(r) => row := Some(r);
    case Failure(err) =>
      if err.FraudRejected? {
        var i :| 0 <= i < |s.db.rows| && s.db.rows[i].key == sess.req.UniqueKey() &&
                 s.db.rows[i].status == Rejected && s.db.rows[i].fraudReason == err.reason;
        row := Some(s.db.rows[i]);
      }
    case _ =>
  }

  lemma PairOfSessions(s: State, p: nat, q: nat)
    requires Inv(s) && p < |s.sessions| && q < |s.sessions| && p != q
    requires s.sessions[p].req.UniqueKey() == s.sessions[q].req.UniqueKey()
    ensures s.sessions[p].commits + s.sessions[q].commits <= 1
    ensures s.sessions[p].phase.Done? && s.sessions[q].phase.Done? ==>
              Agree(s.sessions[p].phase.outcome, s.sessions[q].phase.outcome)
  {
    assert SessionInv(s, s.sessions[p]) && SessionInv(s, s.sessions[q]);
    assert Committed(s, p) ==> !Committed(s, q);
    if s.sessions[p].phase.Done? && s.sessions[q].phase.Done? {
      BackedAnswersAgree(s, s.sessions[p], s.sessions[q]);
    }
  }

  /** Two requests with one (actor, operation, reference): at most one of them commits, and when both
      have an answer that names a transaction it is the same answer. */
  lemma SameKeySameAnswer(s: State, actions: seq<Action>, p: nat, q: nat)
    requires Init(s) && p < |s.sessions| && q < |s.sessions| && p != q
    requires s.sessions[p].req.UniqueKey() == s.sessions[q].req.UniqueKey()
    ensures var t := Run(s, actions);
      && |t.sessions| == |s.sessions|
      && t.sessions[p].commits + t.sessions[q].commits <= 1
      && (t.sessions[p].phase.Done? && t.sessions[q].phase.Done? ==>
            Agree(t.sessions[p].phase.outcome, t.sessions[q].phase.outcome))
  {
    InitInv(s);
    RunInv(s, actions);
    SessionsKept(s, actions);
    PairOfSessions(Run(s, actions), p, q);
  }

  lemma {:induction false} SessionsKept(s: State, actions: seq<Action>)
    ensures |Run(s, actions).sessions| == |s.sessions|
    ensures forall p :: 0 <= p < |s.sessions| ==> Run(s, actions).sessions[p].req == s.sessions[p].req
  {
    if |actions| > 0 {
      SessionsKept(s, actions[..|actions| - 1]);
      NextKeepsRequests(Run(s, actions[..|actions| - 1]), actions[|actions| - 1]);
    }
  }

  lemma NextKeepsRequests(s: State, a: Action)
    ensures |Next(s, a).sessions| == |s.sessions|
    ensures forall p :: 0 <= p < |s.sessions| ==> Next(s, a).sessions[p].req == s.sessions[p].req
  {
  }

  /** What a finished request may have answered, and what it may have left behind. */
  lemma AnswersAreTrue(s: State, actions: seq<Action>, p: nat)
    requires Init(s) && p < |s.sessions| && p < |Run(s, actions).sessions|
    requires Run(s, actions).sessions[p].phase.Done?
    ensures var t := Run(s, actions);
      var key := s.sessions[p].req.UniqueKey();
      match t.sessions[p].phase.outcome
      case Success(row) => row in t.db.rows && row.key == key && row.status == Completed
      case Failure(err) =>
        if err.FraudRejected? then HasRejection(t.db.rows, key, err.reason)
        else err != UniqueViolation && t.sessions[p].commits == 0
      case StillInProgress => false
      case Unprocessable => false
  {
    InitInv(s);
    RunInv(s, actions);
    SessionsKept(s, actions);
    assert SessionInv(Run(s, actions), Run(s, actions).sessions[p]);
  }

  // ---------- the loser on the unique key ----------

  /** What a committed row tells whoever asks for its key again. */
  function AnswerOf(row: Row): Outcome {
    if row.status == Completed then Success(row) else Failure(FraudRejected(row.fraudReason))
  }

  /** p was refused by the unique index and has not looked up the winner yet. */
  predicate LostTheKey(s: State, p: nat) {
    p < |s.sessions| &&
    (s.sessions[p].phase == Releasing(UniqueViolation) || s.sessions[p].phase == Resolving(UniqueViolation))
  }

  /** There is exactly one committed row of the key, and the fallback answers with it. */
  lemma FallbackNamesTheWinner(s: State, p: nat)
    requires Inv(s) && LostTheKey(s, p)
    ensures var key := s.sessions[p].req.UniqueKey();
      && FindRow(s.db.rows, key).Some?
      && var row := FindRow(s.db.rows, key).value;
      && row in s.db.rows && row.key == key
      && (forall other :: other in s.db.rows && other.key == key ==> other == row)
      && ResolveFallback(UniqueViolation, FindRow(s.db.rows, key)) == AnswerOf(row)
  {
    var key := s.sessions[p].req.UniqueKey();
    assert SessionInv(s, s.sessions[p]);
    RowBehind(s, key);
    var row := FindRow(s.db.rows, key).value;
    forall other | other in s.db.rows && other.key == key ensures other == row {
      UniqueRow(s, other, row);
    }
  }

  ghost predicate NeverFaults(actions: seq<Action>, p: nat) {
    forall k :: 0 <= k < |actions| ==> !(actions[k].Fault? && actions[k].session == p)
  }

  lemma WinnerStays(s: State, a: Action, p: nat)
    requires Inv(s) && LostTheKey(s, p) && !(a.Fault? && a.session == p)
    ensures p < |Next(s, a).sessions| && Next(s, a).sessions[p].req == s.sessions[p].req
    ensures LostTheKey(Next(s, a), p) ||
            Next(s, a).sessions[p].phase == Done(AnswerOf(FindRow(s.db.rows, s.sessions[p].req.UniqueKey()).value))
  {
    FallbackNamesTheWinner(s, p);
    NextKeepsRequests(s, a);
  }

  /** A request refused by the unique index, whose lookup does not throw, commits nothing and answers with
      the one committed row of its key: the winner's result, or the winner's rejection. */
  lemma {:induction false} LoserGetsTheWinnersAnswer(s: State, actions: seq<Action>, p: nat)
    requires Inv(s) && LostTheKey(s, p) && NeverFaults(actions, p)
    ensures FindRow(s.db.rows, s.sessions[p].req.UniqueKey()).Some?
    ensures var t := Run(s, actions);
      && p < |t.sessions| && t.sessions[p].req == s.sessions[p].req && t.sessions[p].commits == 0
      && FindRow(t.db.rows, s.sessions[p].req.UniqueKey()) == FindRow(s.db.rows, s.sessions[p].req.UniqueKey())
      && (LostTheKey(t, p) ||
          t.sessions[p].phase == Done(AnswerOf(FindRow(s.db.rows, s.sessions[p].req.UniqueKey()).value)))
  {
    FallbackNamesTheWinner(s, p);
    if |actions| == 0 {
      assert SessionInv(s, s.sessions[p]);
    } else {
      var front, last := actions[..|actions| - 1], actions[|actions| - 1];
      var before := Run(s, front);
      LoserGetsTheWinnersAnswer(s, front, p);
      RunInv(s, front);
      FoundRowStays(before, last, s.sessions[p].req.UniqueKey());
      if LostTheKey(before, p) {
        WinnerStays(before, last, p);
        LoserCommitsNothing(before, last, p);
      } else {
        DoneStays(before, last, p);
      }
    }
  }

  lemma LoserCommitsNothing(s: State, a: Action, p: nat)
    requires Inv(s) && LostTheKey(s, p) && s.sessions[p].commits == 0
    ensures p < |Next(s, a).sessions| && Next(s, a).sessions[p].commits == 0
  {
  }

  lemma DoneStays(s: State, a: Action, p: nat)
    requires p < |s.sessions| && s.sessions[p].phase.Done?
    ensures p < |Next(s, a).sessions| && Next(s, a).sessions[p] == s.sessions[p]
  {
  }

  lemma FoundRowStays(s: State, a: Action, key: Key)
    requires FindRow(s.db.rows, key).Some?
    ensures FindRow(Next(s, a).db.rows, key) == FindRow(s.db.rows, key)
  {
    if Commits(s, a) {
      FindInLonger(s.db.rows, Next(s, a).db.rows[|s.db.rows|..], key);
      assert Next(s, a).db.rows == s.db.rows + Next(s, a).db.rows[|s.db.rows|..];
    } else {
      OnlyCommitsWrite(s, a);
    }
  }

  lemma {:induction false} FindInLonger(rows: seq<Row>, more: seq<Row>, key: Key)
    requires FindRow(rows, key).Some?
    ensures FindRow(rows + more, key) == FindRow(rows, key)
  {
    if rows[0].key != key {
      FindInLonger(rows[1..], more, key);
      assert (rows + more)[1..] == rows[1..] + more;
    }
  }

  /** And if the winner has answered too, both answers are the same. */
  lemma LoserAndWinnerAgree(s: State, actions: seq<Action>, p: nat, q: nat)
    requires Inv(s) && LostTheKey(s, p) && NeverFaults(actions, p) && q < |s.sessions| && p != q
    requires s.sessions[q].req.UniqueKey() == s.sessions[p].req.UniqueKey()
    requires q < |Run(s, actions).sessions| && Committed(Run(s, actions), q) && Run(s, actions).sessions[q].phase.Done?
    requires p < |Run(s, actions).sessions| && Run(s, actions).sessions[p].phase.Done?
    ensures Run(s, actions).sessions[p].phase.outcome == Run(s, actions).sessions[q].phase.outcome
  {
    var t := Run(s, actions);
    LoserGetsTheWinnersAnswer(s, actions, p);
    RunInv(s, actions);
    SessionsKept(s, actions);
    PairOfSessions(t, p, q);
    assert SessionInv(t, t.sessions[q]);
  }

  function TotalCommits(sessions: seq<Session>): int {
    if |sessions| == 0 then 0
    else TotalCommits(sessions[..|sessions| - 1]) + sessions[|sessions| - 1].commits
  }

  lemma {:induction false} CommitsUpdate(sessions: seq<Session>, p: nat, sess: Session)
    requires p < |sessions|
    ensures TotalCommits(sessions[p := sess]) == TotalCommits(sessions) - sessions[p].commits + sess.commits
  {
    var last := |sessions| - 1;
    var updated := sessions[p := sess];
    if p < last {
      CommitsUpdate(sessions[..last], p, sess);
      assert updated[..last] == sessions[..last][p := sess];
    } else {
      assert updated[..last] == sessions[..last];
    }
  }

  /** Rows come only from commits: their number grows by exactly the commits the requests made. */
  lemma {:induction false} RowsCountCommits(s: State, actions: seq<Action>)
    requires Inv(s)
    ensures |Run(s, actions).db.rows| - |s.db.rows| == TotalCommits(Run(s, actions).sessions) - TotalCommits(s.sessions)
  {
    if |actions| > 0 {
      var before := Run(s, actions[..|actions| - 1]);
      RowsCountCommits(s, actions[..|actions| - 1]);
      RunInv(s, actions[..|actions| - 1]);
      StepCountsCommits(before, actions[|actions| - 1]);
    }
  }

  /** A step of request p touches no other request, and appends a row exactly when p commits. */
  lemma StepTouchesOne(s: State, a: Action)
    requires Inv(s) && !a.SetStatus? && a.session < |s.sessions|
    ensures |Next(s, a).sessions| == |s.sessions|
    ensures Next(s, a).sessions == s.sessions[a.session := Next(s, a).sessions[a.session]]
    ensures |Next(s, a).db.rows| - |s.db.rows|
         == Next(s, a).sessions[a.session].commits - s.sessions[a.session].commits
  {
    assert SessionInv(s, s.sessions[a.session]);
    assert s.sessions == s.sessions[a.session := s.sessions[a.session]];
  }

  lemma StepCountsCommits(s: State, a: Action)
    requires Inv(s)
    ensures |Next(s, a).db.rows| - |s.db.rows| == TotalCommits(Next(s, a).sessions) - TotalCommits(s.sessions)
  {
    if !a.SetStatus? && a.session < |s.sessions| {
      StepTouchesOne(s, a);
      CommitsUpdate(s.sessions, a.session, Next(s, a).sessions[a.session]);
    }
  }

  // ---------- transactional outbox ----------

  /** In every reachable state the committed rows are COMPLETED or REJECTED and the i-th event is the
      completed event of a completed i-th row or the failed event of a rejected one. */
  lemma EventsMirrorRows(s: State, actions: seq<Action>, i: nat)
    requires Init(s) && i < |Run(s, actions).db.rows|
    ensures var t := Run(s, actions);
      && |t.db.events| == |t.db.rows|
      && var row, event := t.db.rows[i], t.db.events[i];
      && (row.status == Completed || row.status == Rejected)
      && (event.eventType == TransactionCompleted <==> row.status == Completed)
      && event.resourceId == row.id && event.key == row.key && event.amount == row.amount
      && event.from == row.from && event.to == row.to
      && (forall j :: 0 <= j < |t.db.events| && t.db.events[j].resourceId == row.id ==> j == i)
  {
    InitInv(s);
    RunInv(s, actions);
    var t := Run(s, actions);
    assert Settled(t.db.rows[i]);
    forall j | 0 <= j < |t.db.events| && t.db.events[j].resourceId == t.db.rows[i].id ensures j == i {
      assert t.db.events[j] == EventFor(t.db.rows[j]);
    }
  }

  lemma EventsMatchRows(s: State, actions: seq<Action>)
    requires Init(s)
    ensures |Run(s, actions).db.events| == |Run(s, actions).db.rows|
  {
    InitInv(s);
    RunInv(s, actions);
  }
}
