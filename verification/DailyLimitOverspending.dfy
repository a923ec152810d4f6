/**
 Runs that pass the daily limit: two amounts under one reference, two requests at once under one reference,
 a commit after midnight and a script after midnight.
 */
module DailyLimitOverspending {
  import opened DailyLimit
  import opened DailyLimitRuns
  import opened DailyLimitConditions

  // ---------- putting runs together ----------

  /** A run on time from s to t; `alone` says that it is orderly too. */
  ghost predicate Leads(s: State, actions: seq<Action>, t: State, alone: bool) {
    Run(s, actions) == t && OnTimeRun(s, actions) && (alone ==> OrderlyRun(s, actions))
  }

  lemma {:induction false} LeadsOn(s: State, a: seq<Action>, m: State, b: seq<Action>, t: State, alone: bool)
    requires Leads(s, a, m, alone) && Leads(m, b, t, alone)
    ensures Leads(s, a + b, t, alone)
  {
    if |b| == 0 {
      assert a + b == a;
    } else {
      var front := b[..|b| - 1];
      LeadsOn(s, a, m, front, Run(m, front), alone);
      assert (a + b)[..|a + b| - 1] == a + front;
    }
  }

  lemma LeadsOne(s: State, a: Action, t: State, alone: bool)
    requires OnTime(s, a) && (alone ==> Orderly(s, a)) && t == Next(s, a)
    ensures Leads(s, [a], t, alone)
  {
    assert [a][..0] == [] && Run(s, []) == s;
  }

  /** Lookup and reservation at one moment. */
  lemma Admit(s: State, p: nat, alone: bool) returns (actions: seq<Action>, t: State)
    requires p < |s.sessions| && s.sessions[p].phase == Idle && s.sessions[p].reference !in s.rows
    requires alone ==> Orderly(s, Start(p))
    ensures Leads(s, actions, t, alone)
    ensures var day := DayOf(s.now);
      var (allowed, store) := Reserve(StoreOf(s, day), s.limit, s.sessions[p].reference, s.sessions[p].amount,
                                      TtlSeconds(s.now), s.now);
      t == Put(s, p, if allowed then Working(day) else Rejecting).(stores := s.stores[day := store])
  {
    TtlCoversTheDay(s.now, s.now);
    var s1, s2 := Put(s, p, Screening), Put(s, p, Reserving(s.now));
    LeadsOne(s, Start(p), s1, alone);
    LeadsOne(s1, Compute(p), s2, alone);
    t := Next(s2, RunReserve(p));
    LeadsOne(s2, RunReserve(p), t, alone);
    LeadsOn(s, [Start(p)], s1, [Compute(p)], s2, alone);
    LeadsOn(s, [Start(p)] + [Compute(p)], s2, [RunReserve(p)], t, alone);
    actions := [Start(p)] + [Compute(p)] + [RunReserve(p)];
  }

  /** Database work fails, and the reservation is released, at one moment. */
  lemma GiveBack(s: State, p: nat, alone: bool) returns (actions: seq<Action>, t: State)
    requires p < |s.sessions| && s.sessions[p].phase.Working?
    ensures Leads(s, actions, t, alone)
    ensures var day := DayOf(s.now);
      var store := Release(StoreOf(s, day), s.sessions[p].reference, TtlSeconds(s.now), s.now);
      t == Put(s, p, Done).(stores := s.stores[day := store])
  {
    TtlCoversTheDay(s.now, s.now);
    var s1, s2 := Put(s, p, Failing), Put(s, p, Releasing(s.now));
    LeadsOne(s, Fail(p), s1, alone);
    LeadsOne(s1, ComputeRelease(p), s2, alone);
    t := Next(s2, RunRelease(p));
    LeadsOne(s2, RunRelease(p), t, alone);
    LeadsOn(s, [Fail(p)], s1, [ComputeRelease(p)], s2, alone);
    LeadsOn(s, [Fail(p)] + [ComputeRelease(p)], s2, [RunRelease(p)], t, alone);
    actions := [Fail(p)] + [ComputeRelease(p)] + [RunRelease(p)];
  }

  /** The completed row. */
  lemma Complete(s: State, p: nat, alone: bool) returns (t: State)
    requires p < |s.sessions| && s.sessions[p].phase.Working? && s.sessions[p].reference !in s.rows
    ensures Leads(s, [Commit(p)], t, alone)
    ensures var Session(r, amount, phase) := s.sessions[p];
      t == Put(s, p, Done).(rows := s.rows[r := Completed],
                            spent := s.spent + [Spending(r, amount, phase.day, s.now)])
  {
    t := Next(s, Commit(p));
    LeadsOne(s, Commit(p), t, alone);
  }

  // ---------- two amounts ----------

  /** Admitted and given back. */
  lemma Round(s: State, p: nat, alone: bool) returns (actions: seq<Action>, t: State)
    requires p < |s.sessions| && s.sessions[p].phase == Idle && s.sessions[p].reference !in s.rows
    requires alone ==> Orderly(s, Start(p))
    requires var day := DayOf(s.now);
      Reserve(StoreOf(s, day), s.limit, s.sessions[p].reference, s.sessions[p].amount, TtlSeconds(s.now), s.now).0
    ensures Leads(s, actions, t, alone)
    ensures var day, r := DayOf(s.now), s.sessions[p].reference;
      var reserved := Reserve(StoreOf(s, day), s.limit, r, s.sessions[p].amount, TtlSeconds(s.now), s.now).1;
      t == Put(s, p, Done).(stores := s.stores[day := Release(reserved, r, TtlSeconds(s.now), s.now)])
  {
    var admit, m := Admit(s, p, alone);
    var back;
    back, t := GiveBack(m, p, alone);
    LeadsOn(s, admit, m, back, t, alone);
    actions := admit + back;
    assert t.stores == s.stores[DayOf(s.now) := t.stores[DayOf(s.now)]];
  }

  function ThreeRequests(limit: nat, r: Reference, amount: nat): State {
    State(limit, 0, map[], map[], [], [Session(r, 1, Idle), Session(r, 1, Idle), Session(r, amount, Idle)])
  }

  /** The first of them fails and releases; the second reserves again and fails, but its release is a no-op. */
  lemma TwoFailures(limit: nat, r: Reference, amount: nat) returns (actions: seq<Action>, t: State)
    requires limit > 0
    ensures Leads(ThreeRequests(limit, r, amount), actions, t, true)
    ensures t.now == 0 && t.rows == map[] && t.spent == [] && Exists(StoreOf(t, 0).refs, r, 0)
    ensures t.sessions == [Session(r, 1, Done), Session(r, 1, Done), Session(r, amount, Idle)]
  {
    var s := ThreeRequests(limit, r, amount);
    ReserveKeeps(NO_KEYS, limit, r, 1, 0, 0);
    var first, s1 := Round(s, 0, true);
    ReleaseUndoesReserve(NO_KEYS, limit, r, 1, 0, 0);
    SecondReleaseIsANoOp(StoreOf(s1, 0), limit, r, 1, 0, 0);
    var second;
    second, t := Round(s1, 1, true);
    LeadsOn(s, first, s1, second, t, true);
    actions := first + second;
  }

  /** One after the other under one reference: the reservation left over by two failures lets the third
      complete with any amount. */
  lemma TwoAmountsPassTheLimit(limit: nat, r: Reference, amount: nat) returns (actions: seq<Action>)
    requires limit > 0
    ensures var s := ThreeRequests(limit, r, amount);
      Init(s) && OrderlyRun(s, actions) && SpentOn(Run(s, actions).spent, 0) == amount
  {
    var failures, s2 := TwoFailures(limit, r, amount);
    ReserveIgnoresTheAmount(StoreOf(s2, 0), s2.limit, r, amount, TtlSeconds(0), 0);
    var third, s3 := Admit(s2, 2, true);
    var s4 := Complete(s3, 2, true);
    LeadsOn(s2, third, s3, [Commit(2)], s4, true);
    LeadsOn(ThreeRequests(limit, r, amount), failures, s2, third + [Commit(2)], s4, true);
    actions := failures + (third + [Commit(2)]);
  }

  // ---------- two requests at once ----------

  lemma {:induction false} SpentAppend(spent: seq<Spending>, e: Spending, day: nat)
    ensures SpentOn(spent + [e], day) == SpentOn(spent, day) + (if e.day == day then e.amount else 0)
  {
    if |spent| > 0 {
      SpentAppend(spent[1..], e, day);
      assert (spent + [e])[1..] == spent[1..] + [e];
    }
  }

  /** Two requests under one reference are both admitted on one reservation; the second fails and gives it
      back, and the first completes: the row is there and the keys know nothing of it. */
  lemma Twins(s: State, p: nat, q: nat) returns (actions: seq<Action>, t: State)
    requires p < q < |s.sessions| && s.sessions[p] == s.sessions[q] && s.sessions[p].phase == Idle
    requires var r, store := s.sessions[p].reference, StoreOf(s, DayOf(s.now));
      && r !in s.rows && r !in store.refs && r !in store.released
      && StoreInv(store, s.limit, DayOf(s.now)) && Sum(store.refs) + s.sessions[p].amount <= s.limit
    ensures Leads(s, actions, t, false)
    ensures var Session(r, amount, _) := s.sessions[p];
      var day := DayOf(s.now);
      && t.now == s.now && t.limit == s.limit && t.rows == s.rows[r := Completed]
      && t.spent == s.spent + [Spending(r, amount, day, s.now)]
      && t.sessions == s.sessions[p := Session(r, amount, Done)][q := Session(r, amount, Done)]
      && StoreInv(StoreOf(t, day), s.limit, day) && StoreOf(t, day).refs == StoreOf(s, day).refs
      && (forall other :: other in StoreOf(t, day).released ==> other == r || other in StoreOf(s, day).released)
  {
    var Session(r, amount, _) := s.sessions[p];
    var now, store := s.now, StoreOf(s, DayOf(s.now));
    TtlCoversTheDay(now, now);
    ReserveKeeps(store, s.limit, r, amount, now, now);
    var a1, s1 := Admit(s, p, false);
    var reserved := StoreOf(s1, DayOf(now));
    TotalIsSum(reserved, s.limit, DayOf(now), now);
    var a2, s2 := Admit(s1, q, false);
    SharedReservationIsLost(store, s.limit, r, amount, now, now);
    ReleaseKeeps(reserved, s.limit, r, now, now);
    var a3, s3 := GiveBack(s2, q, false);
    t := Complete(s3, p, false);
    LeadsOn(s, a1, s1, a2, s2, false);
    LeadsOn(s, a1 + a2, s2, a3, s3, false);
    LeadsOn(s, a1 + a2 + a3, s3, [Commit(p)], t, false);
    actions := a1 + a2 + a3 + [Commit(p)];
  }

  /** n references, two requests under each, all for the whole limit. */
  function Pairs(limit: nat, n: nat): State {
    State(limit, 0, map[], map[], [], seq(2 * n, i requires 0 <= i < 2 * n => Session(Name(i / 2), limit, Idle)))
  }

  function Name(i: nat): Reference {
    seq(i, _ => 'r')
  }

  lemma {:induction false} SomePairs(limit: nat, n: nat, done: nat) returns (actions: seq<Action>, t: State)
    requires done <= n
    ensures Leads(Pairs(limit, n), actions, t, false)
    ensures SpentOn(t.spent, 0) == done * limit
    ensures t.now == 0 && t.limit == limit && |t.sessions| == 2 * n
    ensures forall i :: 2 * done <= i < 2 * n ==> t.sessions[i] == Session(Name(i / 2), limit, Idle)
    ensures forall r :: r in t.rows || r in StoreOf(t, 0).released ==> |r| < done
    ensures StoreInv(StoreOf(t, 0), limit, 0) && StoreOf(t, 0).refs == map[]
    decreases done
  {
    if done == 0 {
      actions, t := [], Pairs(limit, n);
    } else {
      var front, m := SomePairs(limit, n, done - 1);
      var last;
      last, t := Twins(m, 2 * done - 2, 2 * done - 1);
      LeadsOn(Pairs(limit, n), front, m, last, t, false);
      SpentAppend(m.spent, t.spent[|m.spent|], 0);
      actions := front + last;
      assert done * limit == (done - 1) * limit + limit;
    }
  }

  /** One amount per reference, and two requests at a time under each: any multiple of the limit completes on
      one day. */
  lemma OverlapsPassTheLimit(limit: nat, n: nat) returns (actions: seq<Action>)
    ensures var s := Pairs(limit, n);
      && Init(s) && OneAmount(s.sessions) && OnTimeRun(s, actions)
      && SpentOn(Run(s, actions).spent, 0) == n * limit
  {
    var t;
    actions, t := SomePairs(limit, n, n);
  }

  // ---------- midnight ----------

  /** The first reservation of a day, completed some time later. */
  lemma Spend(s: State, p: nat, wait: nat) returns (actions: seq<Action>, t: State)
    requires p < |s.sessions| && s.sessions[p].phase == Idle && s.sessions[p].reference !in s.rows
    requires s.sessions[p].amount <= s.limit && StoreOf(s, DayOf(s.now)) == NO_KEYS
    requires Orderly(s, Start(p))
    ensures Leads(s, actions, t, true)
    ensures var Session(r, amount, _) := s.sessions[p];
      && t.now == s.now + wait && t.limit == s.limit && t.rows == s.rows[r := Completed]
      && t.spent == s.spent + [Spending(r, amount, DayOf(s.now), t.now)]
      && t.sessions == s.sessions[p := Session(r, amount, Done)]
      && (forall day :: day != DayOf(s.now) ==> StoreOf(t, day) == StoreOf(s, day))
      && StoreOf(t, DayOf(s.now)) == Reserve(NO_KEYS, s.limit, r, amount, TtlSeconds(s.now), s.now).1
  {
    TtlCoversTheDay(s.now, s.now);
    ReserveKeeps(NO_KEYS, s.limit, s.sessions[p].reference, s.sessions[p].amount, s.now, s.now);
    var admit, s1 := Admit(s, p, true);
    var s2 := s1.(now := s.now + wait);
    LeadsOne(s1, Tick(wait), s2, true);
    t := Complete(s2, p, true);
    LeadsOn(s1, [Tick(wait)], s2, [Commit(p)], t, true);
    LeadsOn(s, admit, s1, [Tick(wait)] + [Commit(p)], t, true);
    actions := admit + ([Tick(wait)] + [Commit(p)]);
  }

  function TwoRequests(limit: nat): State {
    State(limit, 0, map[], map[], [], [Session("a", limit, Idle), Session("b", limit, Idle)])
  }

  lemma TwoRows(limit: nat)
    ensures CommittedOn([Spending("a", limit, 0, DAY_MS), Spending("b", limit, 1, DAY_MS)], 1) == 2 * limit
  {
    var spent := [Spending("a", limit, 0, DAY_MS), Spending("b", limit, 1, DAY_MS)];
    assert DayOf(DAY_MS) == 1 && spent[1..] == [Spending("b", limit, 1, DAY_MS)];
    assert CommittedOn(spent[1..], 1) == limit + CommittedOn(spent[1..][1..], 1) == limit;
  }

  /** The two of them, one on each side of midnight. */
  lemma AcrossMidnight(limit: nat) returns (actions: seq<Action>, t: State)
    ensures Leads(TwoRequests(limit), actions, t, true)
    ensures t.spent == [Spending("a", limit, 0, DAY_MS), Spending("b", limit, 1, DAY_MS)]
  {
    var s := TwoRequests(limit);
    assert DayOf(0) == 0 && DayOf(DAY_MS) == 1;
    var first, m := Spend(s, 0, DAY_MS);
    assert StoreOf(m, 1) == NO_KEYS;
    var second;
    second, t := Spend(m, 1, 0);
    LeadsOn(s, first, m, second, t, true);
    actions := first + second;
  }

  /** A request reserved before midnight and committed after it, and one of the next day: each is covered by
      its own day's keys, and the rows created on that next day add up to twice the limit. */
  lemma MidnightPassesTheLimit(limit: nat) returns (actions: seq<Action>)
    ensures var s := TwoRequests(limit);
      && Init(s) && OnTimeRun(s, actions) && NeverUncovers(s, actions)
      && CommittedOn(Run(s, actions).spent, 1) == 2 * limit
  {
    var t;
    actions, t := AcrossMidnight(limit);
    OrderlyNeverUncovers(TwoRequests(limit), actions);
    TwoRows(limit);
  }

  /** A run that uncovers nothing, on time or not. */
  ghost predicate Covering(s: State, actions: seq<Action>, t: State) {
    Run(s, actions) == t && NeverUncovers(s, actions)
  }

  lemma StepOn(s: State, actions: seq<Action>, m: State, a: Action, t: State)
    requires Covering(s, actions, m) && !Uncovers(m, a) && t == Next(m, a)
    ensures Covering(s, actions + [a], t)
  {
    assert (actions + [a])[..|actions|] == actions;
  }

  /** Keys computed in the last millisecond of a day, and a script that runs in the next: the day's total has
      expired, so the whole limit is reserved a second time. */
  lemma LateReserve(limit: nat, s: State, actions: seq<Action>, m: State) returns (more: seq<Action>, t: State)
    requires Covering(s, actions, m) && m.now == DAY_MS - 1 && m.limit == limit && |m.sessions| == 2
    requires m.sessions[1] == Session("b", limit, Idle) && "b" !in m.rows && "b" !in StoreOf(m, 0).refs
    requires StoreOf(m, 0).total.Some? && StoreOf(m, 0).total.value.expiresAt == DAY_MS
    ensures Covering(s, more, t) && t.rows == m.rows && t.spent == m.spent && |t.sessions| == 2
    ensures t.sessions[1] == Session("b", limit, Working(0)) && Covers(StoreOf(t, 0), "b", limit)
  {
    assert DayOf(DAY_MS - 1) == 0;
    var m1, m2 := Put(m, 1, Screening), Put(m, 1, Reserving(m.now));
    var m3 := m2.(now := DAY_MS);
    StepOn(s, actions, m, Start(1), m1);
    StepOn(s, actions + [Start(1)], m1, Compute(1), m2);
    StepOn(s, actions + [Start(1)] + [Compute(1)], m2, Tick(1), m3);
    t := Next(m3, RunReserve(1));
    StepOn(s, actions + [Start(1)] + [Compute(1)] + [Tick(1)], m3, RunReserve(1), t);
    more := actions + [Start(1)] + [Compute(1)] + [Tick(1)] + [RunReserve(1)];
  }

  /** So that day's reservations, each under its own reference and for its whole row, pass the limit. */
  lemma LateScriptPassesTheLimit(limit: nat) returns (actions: seq<Action>)
    ensures var s := TwoRequests(limit);
      Init(s) && OneAmount(s.sessions) && NeverUncovers(s, actions) && SpentOn(Run(s, actions).spent, 0) == 2 * limit
  {
    var s := TwoRequests(limit);
    assert DayOf(0) == 0 && TtlSeconds(0) * 1000 == DAY_MS;
    ReserveKeeps(NO_KEYS, limit, "a", limit, 0, 0);
    var first, m := Spend(s, 0, DAY_MS - 1);
    OrderlyNeverUncovers(s, first);
    var late, m4 := LateReserve(limit, s, first, m);
    var t := Next(m4, Commit(1));
    StepOn(s, late, m4, Commit(1), t);
    actions := late + [Commit(1)];
    SpentAppend([], Spending("a", limit, 0, DAY_MS - 1), 0);
    SpentAppend(m.spent, Spending("b", limit, 0, m4.now), 0);
  }
}
