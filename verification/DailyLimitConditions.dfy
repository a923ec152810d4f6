/**
 When the daily limit holds. Every completed row has to stand on a reservation at least as large as itself;
 two steps break that, and nothing else does. Runs without them keep the limit, requests one at a time per
 reference with one amount never take them, and without either condition a run passes the limit.
 */
module DailyLimitConditions {
  import opened DailyLimit
  import opened DailyLimitRuns

  // ---------- the steps that break the cover ----------

  predicate Covers(store: Store, r: Reference, amount: nat) {
    r in store.refs && store.refs[r].value >= amount
  }

  /** Every completed row has, under its day's keys, a reservation of at least its amount. */
  ghost predicate Covered(s: State) {
    forall i :: 0 <= i < |s.spent| ==> Covers(StoreOf(s, s.spent[i].day), s.spent[i].reference, s.spent[i].amount)
  }

  /** A completed row stands on this reference's reservation of this day. */
  ghost predicate StandsOn(s: State, r: Reference, day: nat) {
    exists i :: 0 <= i < |s.spent| && s.spent[i].reference == r && s.spent[i].day == day
  }

  /** A request commits whose reservation is gone or smaller than its amount, or a release deletes the
      reservation under a completed row. */
  ghost predicate Uncovers(s: State, a: Action) {
    && !a.Tick? && a.session < |s.sessions|
    && var Session(r, amount, phase) := s.sessions[a.session];
    || (a.Commit? && phase.Working? && r !in s.rows && !Covers(StoreOf(s, phase.day), r, amount))
    || (a.RunRelease? && phase.Releasing? &&
        var store := StoreOf(s, DayOf(phase.metaAt));
        r in store.refs && r !in store.released && StandsOn(s, r, DayOf(phase.metaAt)))
  }

  /** A reservation goes on: live keys of the other references, and of this one unless it is released. */
  lemma ReserveCovers(s: State, p: nat)
    requires KeysInv(s) && OnTime(s, RunReserve(p)) && Covered(s)
    requires p < |s.sessions| && s.sessions[p].phase.Reserving?
    ensures Covered(Next(s, RunReserve(p)))
  {
    var Session(r, amount, phase) := s.sessions[p];
    assert MetaInPast(s.sessions[p], s.now);
    var day := DayOf(phase.metaAt);
    KeysReady(s, day);
    ReserveKeeps(StoreOf(s, day), s.limit, r, amount, phase.metaAt, s.now);
    var t := Next(s, RunReserve(p));
    forall i | 0 <= i < |t.spent| ensures Covers(StoreOf(t, t.spent[i].day), t.spent[i].reference, t.spent[i].amount) {
      assert Covers(StoreOf(s, s.spent[i].day), s.spent[i].reference, s.spent[i].amount);
    }
  }

  lemma ReleaseCovers(s: State, p: nat)
    requires KeysInv(s) && OnTime(s, RunRelease(p)) && Covered(s)
    requires p < |s.sessions| && s.sessions[p].phase.Releasing?
    ensures Covered(Next(s, RunRelease(p))) <==> !Uncovers(s, RunRelease(p))
  {
    var Session(r, _, phase) := s.sessions[p];
    assert MetaInPast(s.sessions[p], s.now);
    var day := DayOf(phase.metaAt);
    KeysReady(s, day);
    ReleaseKeeps(StoreOf(s, day), s.limit, r, phase.metaAt, s.now);
    var t := Next(s, RunRelease(p));
    if Uncovers(s, RunRelease(p)) {
      var i :| 0 <= i < |s.spent| && s.spent[i].reference == r && s.spent[i].day == day;
      assert !Covers(StoreOf(t, t.spent[i].day), t.spent[i].reference, t.spent[i].amount);
    } else {
      forall i | 0 <= i < |t.spent|
        ensures Covers(StoreOf(t, t.spent[i].day), t.spent[i].reference, t.spent[i].amount)
      {
        assert Covers(StoreOf(s, s.spent[i].day), s.spent[i].reference, s.spent[i].amount);
        assert t.spent[i].reference == r && t.spent[i].day == day ==> StandsOn(s, r, day);
      }
    }
  }

  lemma CommitCovers(s: State, p: nat)
    requires Covered(s) && p < |s.sessions|
    ensures Covered(Next(s, Commit(p))) <==> !Uncovers(s, Commit(p))
  {
    var t := Next(s, Commit(p));
    var Session(r, amount, phase) := s.sessions[p];
    if phase.Working? && r !in s.rows {
      assert t.spent[|s.spent|] == Spending(r, amount, phase.day, s.now);
      forall i | 0 <= i < |s.spent|
        ensures Covers(StoreOf(t, t.spent[i].day), t.spent[i].reference, t.spent[i].amount)
      {
        assert Covers(StoreOf(s, s.spent[i].day), s.spent[i].reference, s.spent[i].amount);
      }
    }
  }

  /** A step on covered rows leaves them covered exactly when it is neither of the two. */
  lemma UncoveredExactly(s: State, a: Action)
    requires KeysInv(s) && OnTime(s, a) && Covered(s)
    ensures Covered(Next(s, a)) <==> !Uncovers(s, a)
  {
    if a.Tick? || a.session >= |s.sessions| {
      assert Next(s, a).stores == s.stores;
    } else if a.RunReserve? && s.sessions[a.session].phase.Reserving? {
      ReserveCovers(s, a.session);
    } else if a.RunRelease? && s.sessions[a.session].phase.Releasing? {
      ReleaseCovers(s, a.session);
    } else if a.Commit? {
      CommitCovers(s, a.session);
    } else {
      assert Next(s, a).stores == s.stores && Next(s, a).spent == s.spent;
    }
  }

  ghost predicate AlwaysCovered(s: State, actions: seq<Action>) {
    && Covered(Run(s, actions))
    && (|actions| > 0 ==> AlwaysCovered(s, actions[..|actions| - 1]))
  }

  ghost predicate NeverUncovers(s: State, actions: seq<Action>) {
    |actions| > 0 ==>
      var front := actions[..|actions| - 1];
      NeverUncovers(s, front) && !Uncovers(Run(s, front), actions[|actions| - 1])
  }

  /** Along every run on time the rows stay covered exactly when neither step happens. */
  lemma {:induction false} CoveredExactly(s: State, actions: seq<Action>)
    requires Init(s) && OnTimeRun(s, actions)
    ensures AlwaysCovered(s, actions) <==> NeverUncovers(s, actions)
  {
    if |actions| > 0 {
      var front, a := actions[..|actions| - 1], actions[|actions| - 1];
      CoveredExactly(s, front);
      if AlwaysCovered(s, front) {
        RunKeepsKeys(s, front);
        CoveredNow(s, front);
        UncoveredExactly(Run(s, front), a);
      }
    }
  }

  lemma CoveredNow(s: State, actions: seq<Action>)
    requires AlwaysCovered(s, actions)
    ensures Covered(Run(s, actions))
  {
  }

  // ---------- the limit ----------

  function SpentOn(spent: seq<Spending>, day: nat): nat {
    if |spent| == 0 then 0 else (if spent[0].day == day then spent[0].amount else 0) + SpentOn(spent[1..], day)
  }

  /** Completed rows on one day's reservations, each on its own, add up to at most the reservations. */
  lemma {:induction false} SpentBelowReserved(spent: seq<Spending>, day: nat, refs: map<Reference, Entry>)
    requires forall i :: 0 <= i < |spent| && spent[i].day == day ==>
               spent[i].reference in refs && refs[spent[i].reference].value >= spent[i].amount
    requires forall i, j :: 0 <= i < j < |spent| ==> spent[i].reference != spent[j].reference
    ensures SpentOn(spent, day) <= Sum(refs)
  {
    if |spent| > 0 {
      var rest := spent[1..];
      assert forall i :: 0 <= i < |rest| ==> rest[i] == spent[i + 1];
      if spent[0].day == day {
        SumTakes(refs, spent[0].reference);
        SpentBelowReserved(rest, day, refs - {spent[0].reference});
      } else {
        SpentBelowReserved(rest, day, refs);
      }
    }
  }

  /** One completed row per reference. */
  ghost predicate RowsInv(s: State) {
    && (forall i :: 0 <= i < |s.spent| ==>
          s.spent[i].reference in s.rows && s.rows[s.spent[i].reference] == Completed)
    && (forall i, j :: 0 <= i < j < |s.spent| ==> s.spent[i].reference != s.spent[j].reference)
  }

  lemma {:induction false} RunKeepsRows(s: State, actions: seq<Action>)
    requires Init(s)
    ensures RowsInv(Run(s, actions))
  {
    if |actions| > 0 {
      RunKeepsRows(s, actions[..|actions| - 1]);
    }
  }

  /** For any mix of requests, amounts, commits, failures, releases, retries and vanished requests whose scripts
      are on time: while no row is uncovered, what completes on a day's reservations never exceeds the limit. */
  lemma DailyLimitHolds(s: State, actions: seq<Action>, day: nat)
    requires Init(s) && OnTimeRun(s, actions) && NeverUncovers(s, actions)
    ensures SpentOn(Run(s, actions).spent, day) <= Run(s, actions).limit
    ensures var t := Run(s, actions);
      t.now < EndOfDay(day) ==> SpentOn(t.spent, day) <= CurrentTotal(StoreOf(t, day), t.now) <= t.limit
  {
    RunKeepsKeys(s, actions);
    RunKeepsRows(s, actions);
    CoveredExactly(s, actions);
    CoveredNow(s, actions);
    var t := Run(s, actions);
    KeysReady(t, day);
    forall i | 0 <= i < |t.spent| && t.spent[i].day == day
      ensures Covers(StoreOf(t, day), t.spent[i].reference, t.spent[i].amount)
    {
    }
    SpentBelowReserved(t.spent, day, StoreOf(t, day).refs);
    if t.now < EndOfDay(day) {
      TotalIsSum(StoreOf(t, day), t.limit, day, t.now);
    }
  }

  function CommittedOn(spent: seq<Spending>, day: nat): nat {
    if |spent| == 0 then 0
    else (if DayOf(spent[0].committedAt) == day then spent[0].amount else 0) + CommittedOn(spent[1..], day)
  }

  lemma {:induction false} SameDaySameSum(spent: seq<Spending>, day: nat)
    requires forall i :: 0 <= i < |spent| ==> DayOf(spent[i].committedAt) == spent[i].day
    ensures CommittedOn(spent, day) == SpentOn(spent, day)
  {
    if |spent| > 0 {
      SameDaySameSum(spent[1..], day);
    }
  }

  /** When no request crosses midnight between its reservation and its commit, the rows created on a day
      add up to at most the limit. */
  lemma LimitByCreationDay(s: State, actions: seq<Action>, day: nat)
    requires Init(s) && OnTimeRun(s, actions) && NeverUncovers(s, actions)
    requires var spent := Run(s, actions).spent;
      forall i :: 0 <= i < |spent| ==> DayOf(spent[i].committedAt) == spent[i].day
    ensures CommittedOn(Run(s, actions).spent, day) <= Run(s, actions).limit
  {
    DailyLimitHolds(s, actions, day);
    SameDaySameSum(Run(s, actions).spent, day);
  }

  // ---------- one way to keep the rows covered ----------

  predicate Active(session: Session) {
    session.phase != Idle && session.phase != Done
  }

  /** On time, and one active request per reference. */
  ghost predicate Orderly(s: State, a: Action) {
    && OnTime(s, a)
    && (a.Start? && a.session < |s.sessions| && s.sessions[a.session].phase == Idle ==>
          forall q :: 0 <= q < |s.sessions| && Active(s.sessions[q]) ==>
            s.sessions[q].reference != s.sessions[a.session].reference)
  }

  ghost predicate OrderlyRun(s: State, actions: seq<Action>) {
    |actions| > 0 ==>
      var front := actions[..|actions| - 1];
      OrderlyRun(s, front) && Orderly(Run(s, front), actions[|actions| - 1])
  }

  /** Whoever uses a reference asks for the same amount. */
  ghost predicate OneAmount(sessions: seq<Session>) {
    forall p, q :: 0 <= p < |sessions| && 0 <= q < |sessions| && sessions[p].reference == sessions[q].reference ==>
      sessions[p].amount == sessions[q].amount
  }

  /** Every reservation is for what the requests of its reference ask. */
  ghost predicate Priced(store: Store, sessions: seq<Session>) {
    forall p :: 0 <= p < |sessions| && sessions[p].reference in store.refs ==>
      store.refs[sessions[p].reference].value == sessions[p].amount
  }

  ghost predicate SessionInv(s: State, session: Session) {
    && (Active(session) ==> session.reference !in s.rows || s.rows[session.reference] == Rejected)
    && (session.phase.Screening? || session.phase.Reserving? || session.phase.Working? || session.phase.Rejecting? ==>
          session.reference !in s.rows)
    && (session.phase.Working? ==> session.reference in StoreOf(s, session.phase.day).refs)
  }

  ghost predicate OneActive(sessions: seq<Session>) {
    forall p, q :: 0 <= p < q < |sessions| && Active(sessions[p]) && Active(sessions[q]) ==>
      sessions[p].reference != sessions[q].reference
  }

  ghost predicate OrderlyInv(s: State) {
    && OneAmount(s.sessions) && OneActive(s.sessions)
    && (forall day :: day in s.stores ==> Priced(s.stores[day], s.sessions))
    && (forall p :: 0 <= p < |s.sessions| ==> SessionInv(s, s.sessions[p]))
  }

  /** In that state an orderly step uncovers nothing: a working request has its reservation, and a releasing
      one has no completed row. */
  lemma OrderlyCovers(s: State, a: Action)
    requires KeysInv(s) && RowsInv(s) && OrderlyInv(s)
    ensures !Uncovers(s, a)
  {
    if !a.Tick? && a.session < |s.sessions| {
      assert SessionInv(s, s.sessions[a.session]);
    }
  }

  /** A request whose step changes at most its own reservation and its own row. */
  lemma MovedSessions(s: State, t: State, p: nat)
    requires OrderlyInv(s) && p < |s.sessions| && Active(s.sessions[p]) && p < |t.sessions|
    requires t.sessions == s.sessions[p := s.sessions[p].(phase := t.sessions[p].phase)]
    requires forall r, day :: r != s.sessions[p].reference && r in StoreOf(s, day).refs ==> r in StoreOf(t, day).refs
    requires forall r :: r != s.sessions[p].reference ==> (r in t.rows <==> r in s.rows)
    requires forall r :: r in s.rows ==> r in t.rows && t.rows[r] == s.rows[r]
    requires SessionInv(t, t.sessions[p])
    ensures forall q :: 0 <= q < |t.sessions| ==> SessionInv(t, t.sessions[q])
    ensures OneActive(t.sessions) && OneAmount(t.sessions)
  {
    forall q | 0 <= q < |t.sessions| ensures SessionInv(t, t.sessions[q]) {
      if q != p {
        assert SessionInv(s, s.sessions[q]);
      }
    }
  }

  lemma StaysPriced(s: State, t: State, p: nat)
    requires OrderlyInv(s) && t.stores == s.stores && p < |s.sessions| && p < |t.sessions|
    requires t.sessions == s.sessions[p := s.sessions[p].(phase := t.sessions[p].phase)]
    ensures forall day :: day in t.stores ==> Priced(t.stores[day], t.sessions)
  {
    forall day | day in t.stores ensures Priced(t.stores[day], t.sessions) {
      assert Priced(s.stores[day], s.sessions);
    }
  }

  /** A script ran for an active request. */
  lemma ScriptOrderly(s: State, t: State, p: nat, day: nat, store: Store)
    requires OrderlyInv(s) && p < |s.sessions| && Active(s.sessions[p]) && p < |t.sessions|
    requires t == s.(stores := s.stores[day := store],
                     sessions := s.sessions[p := s.sessions[p].(phase := t.sessions[p].phase)])
    requires forall r :: r != s.sessions[p].reference ==> (r in store.refs <==> r in StoreOf(s, day).refs)
    requires forall r :: r in store.refs ==>
               store.refs[r].value == if r in StoreOf(s, day).refs then StoreOf(s, day).refs[r].value
                                      else s.sessions[p].amount
    requires SessionInv(t, t.sessions[p])
    ensures OrderlyInv(t)
  {
    MovedSessions(s, t, p);
    assert Priced(StoreOf(s, day), s.sessions);
    forall d | d in t.stores ensures Priced(t.stores[d], t.sessions) {
      if d != day {
        assert Priced(s.stores[d], s.sessions);
      }
    }
  }

  lemma ReserveOrderly(s: State, p: nat)
    requires KeysInv(s) && OrderlyInv(s) && OnTime(s, RunReserve(p))
    requires p < |s.sessions| && s.sessions[p].phase.Reserving?
    ensures OrderlyInv(Next(s, RunReserve(p)))
  {
    var Session(r, amount, phase) := s.sessions[p];
    var t, day := Next(s, RunReserve(p)), DayOf(phase.metaAt);
    assert MetaInPast(s.sessions[p], s.now) && SessionInv(s, s.sessions[p]);
    KeysReady(s, day);
    ReserveKeeps(StoreOf(s, day), s.limit, r, amount, phase.metaAt, s.now);
    ScriptOrderly(s, t, p, day, t.stores[day]);
  }

  lemma ReleaseOrderly(s: State, p: nat)
    requires KeysInv(s) && OrderlyInv(s) && OnTime(s, RunRelease(p))
    requires p < |s.sessions| && s.sessions[p].phase.Releasing?
    ensures OrderlyInv(Next(s, RunRelease(p)))
  {
    var Session(r, _, phase) := s.sessions[p];
    var t, day := Next(s, RunRelease(p)), DayOf(phase.metaAt);
    assert MetaInPast(s.sessions[p], s.now) && SessionInv(s, s.sessions[p]);
    KeysReady(s, day);
    ReleaseKeeps(StoreOf(s, day), s.limit, r, phase.metaAt, s.now);
    ScriptOrderly(s, t, p, day, t.stores[day]);
  }

  /** A request starts or is answered at once, before which it was not active. */
  lemma StartOrderly(s: State, p: nat)
    requires OrderlyInv(s) && Orderly(s, Start(p)) && p < |s.sessions|
    ensures OrderlyInv(Next(s, Start(p)))
  {
    var t := Next(s, Start(p));
    StaysPriced(s, t, p);
    forall q | 0 <= q < |t.sessions| ensures SessionInv(t, t.sessions[q]) {
      assert SessionInv(s, s.sessions[q]);
    }
  }

  lemma OtherOrderly(s: State, a: Action)
    requires OrderlyInv(s) && !a.Tick? && a.session < |s.sessions|
    requires !a.Start? && !a.RunReserve? && !a.RunRelease?
    ensures OrderlyInv(Next(s, a))
  {
    var p, t := a.session, Next(s, a);
    assert SessionInv(s, s.sessions[p]);
    StaysPriced(s, t, p);
    if Active(s.sessions[p]) {
      MovedSessions(s, t, p);
    } else {
      assert s.sessions[p := s.sessions[p].(phase := s.sessions[p].phase)] == s.sessions;
    }
  }

  lemma NextOrderly(s: State, a: Action)
    requires KeysInv(s) && OrderlyInv(s) && Orderly(s, a)
    ensures OrderlyInv(Next(s, a))
  {
    if a.Tick? || a.session >= |s.sessions| {
      forall p | 0 <= p < |s.sessions| ensures SessionInv(Next(s, a), s.sessions[p]) {
        assert SessionInv(s, s.sessions[p]);
      }
    } else if a.Start? {
      StartOrderly(s, a.session);
    } else if a.RunReserve? {
      if s.sessions[a.session].phase.Reserving? { ReserveOrderly(s, a.session); }
    } else if a.RunRelease? {
      if s.sessions[a.session].phase.Releasing? { ReleaseOrderly(s, a.session); }
    } else {
      OtherOrderly(s, a);
    }
  }

  /** Requests with at most one active per reference, all for that reference's one amount, never uncover a row. */
  lemma {:induction false} OrderlyNeverUncovers(s: State, actions: seq<Action>)
    requires Init(s) && OneAmount(s.sessions) && OrderlyRun(s, actions)
    ensures OnTimeRun(s, actions) && NeverUncovers(s, actions)
    ensures OrderlyInv(Run(s, actions))
  {
    if |actions| > 0 {
      var front, a := actions[..|actions| - 1], actions[|actions| - 1];
      OrderlyNeverUncovers(s, front);
      RunKeepsKeys(s, front);
      RunKeepsRows(s, front);
      OrderlyCovers(Run(s, front), a);
      NextOrderly(Run(s, front), a);
    }
  }
}
