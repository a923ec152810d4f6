/**
 Whole runs of the requests of one user and one operation against the daily limit: lookup, screening,
 reservation, database work, commit or failure, and release, interleaved freely. Requests may fail at
 any point, lose their release or vanish.
 */
module DailyLimitRuns {
  import opened DailyLimit

  datatype Phase =
    | Idle
    | Screening
    | Reserving(metaAt: Millis)      // day bucket and TTL computed, script not run yet
    | Working(day: nat)              // allowed under this day's keys
    | Rejecting
    | Failing                        // catch block, before the release computes its day
    | Releasing(metaAt: Millis)
    | Done

  datatype Session = Session(reference: Reference, amount: nat, phase: Phase)

  datatype RowStatus = Completed | Rejected

  /** A COMPLETED row: which reservation it stands on and when it committed. */
  datatype Spending = Spending(reference: Reference, amount: nat, day: nat, committedAt: Millis)

  datatype State = State(limit: nat, now: Millis, stores: map<nat, Store>, rows: map<Reference, RowStatus>,
                         spent: seq<Spending>, sessions: seq<Session>)

  datatype Action =
    | Tick(ms: nat)
    | Start(session: nat)            // lookup
    | EarlierReject(session: nat)    // a rule before the daily one rejects
    | Compute(session: nat)          // getUtcDayMeta for the reservation
    | RunReserve(session: nat)
    | Commit(session: nat)           // the completed row, or a unique violation
    | CommitRejection(session: nat)
    | Fail(session: nat)             // anything else throws
    | ComputeRelease(session: nat)   // getUtcDayMeta for the release
    | RunRelease(session: nat)
    | Vanish(session: nat)           // the release is skipped, or the process dies

  function StoreOf(s: State, day: nat): Store {
    if day in s.stores then s.stores[day] else NO_KEYS
  }

  function Put(s: State, p: nat, phase: Phase): State
    requires p < |s.sessions|
  {
    s.(sessions := s.sessions[p := s.sessions[p].(phase := phase)])
  }

  function Step(s: State, a: Action): State
    requires !a.Tick? && a.session < |s.sessions|
  {
    var p := a.session;
    var r := s.sessions[p].reference;
    var phase := s.sessions[p].phase;
    match a
    case Start(_) => if phase != Idle then s else Put(s, p, if r in s.rows then Done else Screening)
    case EarlierReject(_) => if phase == Screening then Put(s, p, Rejecting) else s
    case Compute(_) => if phase == Screening then Put(s, p, Reserving(s.now)) else s
    case RunReserve(_) =>
      if !phase.Reserving? then s
      else
        var day := DayOf(phase.metaAt);
        var (allowed, after) :=
          Reserve(StoreOf(s, day), s.limit, r, s.sessions[p].amount, TtlSeconds(phase.metaAt), s.now);
        Put(s, p, if allowed then Working(day) else Rejecting).(stores := s.stores[day := after])
    case Commit(_) =>
      if !phase.Working? then s
      else if r in s.rows then Put(s, p, Done)
      else Put(s, p, Done).(rows := s.rows[r := Completed],
                            spent := s.spent + [Spending(r, s.sessions[p].amount, phase.day, s.now)])
    case CommitRejection(_) =>
      if phase != Rejecting then s
      else if r in s.rows then Put(s, p, Done)
      else Put(s, p, Failing).(rows := s.rows[r := Rejected])
    case Fail(_) =>
      if phase == Screening || phase.Reserving? || phase.Working? || phase == Rejecting then Put(s, p, Failing) else s
    case ComputeRelease(_) => if phase == Failing then Put(s, p, Releasing(s.now)) else s
    case RunRelease(_) =>
      if !phase.Releasing? then s
      else
        var day := DayOf(phase.metaAt);
        Put(s, p, Done).(stores := s.stores[day := Release(StoreOf(s, day), r, TtlSeconds(phase.metaAt), s.now)])
    case Vanish(_) => if phase == Idle then s else Put(s, p, Done)
  }

  function Next(s: State, a: Action): State {
    if a.Tick? then s.(now := s.now + a.ms)
    else if a.session < |s.sessions| then Step(s, a) else s
  }

  function Run(s: State, actions: seq<Action>): State {
    if |actions| == 0 then s else Next(Run(s, actions[..|actions| - 1]), actions[|actions| - 1])
  }

  /** Each script runs on the day its keys were computed. */
  predicate OnTime(s: State, a: Action) {
    && (a.RunReserve? && a.session < |s.sessions| && s.sessions[a.session].phase.Reserving? ==>
          s.now < EndOfDay(DayOf(s.sessions[a.session].phase.metaAt)))
    && (a.RunRelease? && a.session < |s.sessions| && s.sessions[a.session].phase.Releasing? ==>
          s.now < EndOfDay(DayOf(s.sessions[a.session].phase.metaAt)))
  }

  ghost predicate OnTimeRun(s: State, actions: seq<Action>) {
    |actions| > 0 ==>
      var front := actions[..|actions| - 1];
      OnTimeRun(s, front) && OnTime(Run(s, front), actions[|actions| - 1])
  }

  /** No keys yet, and nobody started. */
  ghost predicate Fresh(s: State) {
    s.stores == map[] && forall p :: 0 <= p < |s.sessions| ==> s.sessions[p].phase == Idle
  }

  /** And nothing spent on them; earlier rows may be there. */
  ghost predicate Init(s: State) {
    Fresh(s) && s.spent == []
  }

  // ---------- the keys in every run ----------

  /** Every day's total is the sum of its reservations, within the limit, and outlives the day. */
  ghost predicate KeysInv(s: State) {
    && (forall day :: day in s.stores ==> StoreInv(s.stores[day], s.limit, day))
    && (forall p :: 0 <= p < |s.sessions| ==> MetaInPast(s.sessions[p], s.now))
  }

  predicate MetaInPast(session: Session, now: Millis) {
    && (session.phase.Reserving? ==> session.phase.metaAt <= now)
    && (session.phase.Releasing? ==> session.phase.metaAt <= now)
  }

  lemma KeysReady(s: State, day: nat)
    requires KeysInv(s)
    ensures StoreInv(StoreOf(s, day), s.limit, day)
  {
    NoKeysInv(s.limit, day);
  }

  lemma ScriptKeepsKeys(s: State, a: Action)
    requires KeysInv(s) && OnTime(s, a) && !a.Tick? && a.session < |s.sessions|
    ensures forall day :: day in Step(s, a).stores ==> StoreInv(Step(s, a).stores[day], s.limit, day)
  {
    var session := s.sessions[a.session];
    assert MetaInPast(session, s.now);
    if a.RunReserve? && session.phase.Reserving? {
      var metaAt := session.phase.metaAt;
      KeysReady(s, DayOf(metaAt));
      ReserveKeeps(StoreOf(s, DayOf(metaAt)), s.limit, session.reference, session.amount, metaAt, s.now);
    } else if a.RunRelease? && session.phase.Releasing? {
      var metaAt := session.phase.metaAt;
      KeysReady(s, DayOf(metaAt));
      ReleaseKeeps(StoreOf(s, DayOf(metaAt)), s.limit, session.reference, metaAt, s.now);
    } else {
      assert Step(s, a).stores == s.stores;
    }
  }

  lemma NextKeepsKeys(s: State, a: Action)
    requires KeysInv(s) && OnTime(s, a)
    ensures KeysInv(Next(s, a)) && Next(s, a).limit == s.limit
  {
    var t := Next(s, a);
    forall p | 0 <= p < |t.sessions| ensures MetaInPast(t.sessions[p], t.now) {
      assert MetaInPast(s.sessions[p], s.now);
    }
    if !a.Tick? && a.session < |s.sessions| {
      ScriptKeepsKeys(s, a);
    }
  }

  lemma {:induction false} RunKeepsKeys(s: State, actions: seq<Action>)
    requires Fresh(s) && OnTimeRun(s, actions)
    ensures KeysInv(Run(s, actions))
  {
    if |actions| > 0 {
      RunKeepsKeys(s, actions[..|actions| - 1]);
      NextKeepsKeys(Run(s, actions[..|actions| - 1]), actions[|actions| - 1]);
    }
  }

  /** In every state of every run whose scripts are on time, any number of requests per reference and any
      amounts: until a day ends its stored total is the sum of its live reservations and within the limit,
      and no total, reservation or release mark of it has expired. */
  lemma TotalAgreesInEveryRun(s: State, actions: seq<Action>, day: nat)
    requires Fresh(s) && OnTimeRun(s, actions)
    ensures var t := Run(s, actions);
      t.now < EndOfDay(day) ==>
        var store := StoreOf(t, day);
        && CurrentTotal(store, t.now) == Sum(store.refs) <= t.limit
        && (store.total.Some? ==> t.now < store.total.value.expiresAt)
        && (forall r :: r in store.refs ==> Exists(store.refs, r, t.now))
        && (forall r :: r in store.released ==> Exists(store.released, r, t.now))
  {
    RunKeepsKeys(s, actions);
    var t := Run(s, actions);
    KeysReady(t, day);
    if t.now < EndOfDay(day) {
      TotalIsSum(StoreOf(t, day), t.limit, day, t.now);
    }
  }

  /** And the clamp at zero of a release never changes anything. */
  lemma ClampNeverFires(s: State, actions: seq<Action>, p: nat)
    requires Fresh(s) && OnTimeRun(s, actions + [RunRelease(p)])
    requires p < |Run(s, actions).sessions| && Run(s, actions).sessions[p].phase.Releasing?
    ensures var t := Run(s, actions);
      var store, r := StoreOf(t, DayOf(t.sessions[p].phase.metaAt)), t.sessions[p].reference;
      r in store.refs ==> store.refs[r].value <= CurrentTotal(store, t.now)
  {
    var t := Run(s, actions);
    assert (actions + [RunRelease(p)])[..|actions|] == actions;
    RunKeepsKeys(s, actions);
    assert MetaInPast(t.sessions[p], t.now);
    var metaAt := t.sessions[p].phase.metaAt;
    KeysReady(t, DayOf(metaAt));
    ReleaseKeeps(StoreOf(t, DayOf(metaAt)), t.limit, t.sessions[p].reference, metaAt, t.now);
  }

  // ---------- who releases ----------

  predicate AboutToRelease(phase: Phase) {
    phase == Failing || phase.Releasing?
  }

  /** One step of it; references stay, and rows are never removed. */
  lemma StepReleases(s: State, a: Action)
    ensures |Next(s, a).sessions| == |s.sessions| && s.rows.Keys <= Next(s, a).rows.Keys
    ensures forall p :: 0 <= p < |s.sessions| ==>
              var before, after := s.sessions[p], Next(s, a).sessions[p];
              && after.reference == before.reference
              && (AboutToRelease(after.phase) && !AboutToRelease(before.phase) ==>
                    a == Fail(p) || (a == CommitRejection(p) && before.reference in Next(s, a).rows))
  {
  }

  /** Whoever is about to release has thrown: by an error, or to answer a rejection of its own. A request that lost
      its key to another's row, or completed, releases nothing. */
  lemma {:induction false} ReleasesOnlyAfterErrors(s: State, actions: seq<Action>, p: nat)
    requires Init(s) && p < |s.sessions|
    ensures var t := Run(s, actions);
      && |t.sessions| == |s.sessions| && t.sessions[p].reference == s.sessions[p].reference
      && (t.sessions[p].phase == Failing || t.sessions[p].phase.Releasing? ==>
            Fail(p) in actions || (CommitRejection(p) in actions && s.sessions[p].reference in t.rows))
  {
    if |actions| > 0 {
      var front, a := actions[..|actions| - 1], actions[|actions| - 1];
      assert actions == front + [a];
      ReleasesOnlyAfterErrors(s, front, p);
      StepReleases(Run(s, front), a);
    }
  }
}
