/**
 Logins of one customer that interleave: each reads the customer's row, reads the clock and checks the
 password, and then writes the counter or the reset; other logins run in between. The lockout bound grows
 with how many are between their first read and their write, and is attained for every such number.
 */
module LoginOverlap {
  import opened Prelude
  import opened LoginLock

  datatype Visit =
    | Arrived(wrong: bool)
    | Loaded(wrong: bool, seen: Lock)      // findUnique
    | Checked(wrong: bool)                 // not locked at that time, password compared
    | TurnedAway
    | Settled(wrong: bool)

  datatype Door = Door(now: Millis, lock: Lock, visits: seq<Visit>)

  datatype Action = Arrive(wrong: bool) | Tick(ms: nat) | Read(visit: nat) | Check(visit: nat) | Write(visit: nat)

  function Put(s: Door, v: nat, visit: Visit): Door
    requires v < |s.visits|
  {
    s.(visits := s.visits[v := visit])
  }

  function Next(cfg: Settings, s: Door, a: Action): Door {
    match a
    case Arrive(wrong) => s.(visits := s.visits + [Arrived(wrong)])
    case Tick(ms) => s.(now := s.now + ms)
    case Read(v) =>
      if v < |s.visits| && s.visits[v].Arrived? then Put(s, v, Loaded(s.visits[v].wrong, s.lock)) else s
    case Check(v) =>
      if v < |s.visits| && s.visits[v].Loaded?
      then Put(s, v, if Blocks(s.visits[v].seen, s.now) then TurnedAway else Checked(s.visits[v].wrong)) else s
    case Write(v) =>
      if v < |s.visits| && s.visits[v].Checked?
      then Put(s, v, Settled(s.visits[v].wrong)).(lock := Settle(cfg, s.lock, !s.visits[v].wrong, s.now)) else s
  }

  function Run(cfg: Settings, s: Door, actions: seq<Action>): Door {
    if |actions| == 0 then s else Next(cfg, Run(cfg, s, actions[..|actions| - 1]), actions[|actions| - 1])
  }

  lemma {:induction false} RunConcat(cfg: Settings, s: Door, a: seq<Action>, b: seq<Action>)
    ensures Run(cfg, s, a + b) == Run(cfg, Run(cfg, s, a), b)
  {
    if |b| == 0 {
      assert a + b == a;
    } else {
      RunConcat(cfg, s, a, b[..|b| - 1]);
      assert (a + b)[..|a + b| - 1] == a + b[..|b| - 1];
    }
  }

  const START := Door(0, OPEN, [])

  // ---------- counting visits ----------

  /** Visits that failed, that are between first read and write, or that can still write before a time. */
  datatype Kind = Failures | InFlight | Early(bound: Millis)

  predicate Counts(kind: Kind, visit: Visit) {
    match kind
    case Failures => visit == Settled(true)
    case InFlight => visit.Loaded? || visit.Checked?
    case Early(bound) =>
      visit.Checked? || (visit.Loaded? && (visit.seen.lockUntil.None? || visit.seen.lockUntil.value < bound))
  }

  function Count(kind: Kind, visits: seq<Visit>): nat {
    if |visits| == 0 then 0
    else Count(kind, visits[..|visits| - 1]) + (if Counts(kind, visits[|visits| - 1]) then 1 else 0)
  }

  function WrongPasswords(s: Door): nat {
    Count(Failures, s.visits)
  }

  lemma CountAppend(kind: Kind, visits: seq<Visit>, visit: Visit)
    ensures Count(kind, visits + [visit]) == Count(kind, visits) + (if Counts(kind, visit) then 1 else 0)
  {
    assert (visits + [visit])[..|visits|] == visits;
  }

  lemma {:induction false} CountUpdate(kind: Kind, visits: seq<Visit>, v: nat, visit: Visit)
    requires v < |visits|
    ensures Count(kind, visits[v := visit])
         == Count(kind, visits) - (if Counts(kind, visits[v]) then 1 else 0) + (if Counts(kind, visit) then 1 else 0)
  {
    var last := |visits| - 1;
    if v < last {
      CountUpdate(kind, visits[..last], v, visit);
      assert visits[v := visit][..last] == visits[..last][v := visit];
    } else {
      assert visits[v := visit][..last] == visits[..last];
    }
  }

  lemma {:induction false} EarlyFly(visits: seq<Visit>, bound: Millis)
    ensures Count(Early(bound), visits) <= Count(InFlight, visits)
  {
    if |visits| > 0 {
      EarlyFly(visits[..|visits| - 1], bound);
    }
  }

  // ---------- the lock follows the counter ----------

  /** Nobody has logged in yet. */
  ghost predicate NobodyIn(visits: seq<Visit>) {
    forall v :: 0 <= v < |visits| ==> visits[v] != Settled(false)
  }

  ghost predicate DoorInv(cfg: Settings, s: Door) {
    && LockInv(cfg, s.lock)
    && (NobodyIn(s.visits) ==> s.lock.failed == WrongPasswords(s))
  }

  lemma MoveKeepsDoor(cfg: Settings, s: Door, v: nat, visit: Visit, lock: Lock)
    requires DoorInv(cfg, s) && v < |s.visits| && !s.visits[v].Settled?
    requires LockInv(cfg, lock)
    requires visit == Settled(false) || lock.failed == s.lock.failed + (if visit == Settled(true) then 1 else 0)
    ensures DoorInv(cfg, Put(s, v, visit).(lock := lock))
  {
    var after := s.visits[v := visit];
    CountUpdate(Failures, s.visits, v, visit);
    if NobodyIn(after) {
      assert after[v] == visit;
      forall w | 0 <= w < |s.visits| ensures s.visits[w] != Settled(false) {
        assert w == v || after[w] == s.visits[w];
      }
    }
  }

  lemma NextKeepsDoor(cfg: Settings, s: Door, a: Action)
    requires cfg.Valid() && DoorInv(cfg, s)
    ensures DoorInv(cfg, Next(cfg, s, a))
  {
    match a
    case Arrive(wrong) =>
      CountAppend(Failures, s.visits, Arrived(wrong));
      assert NobodyIn(s.visits + [Arrived(wrong)]) ==> NobodyIn((s.visits + [Arrived(wrong)])[..|s.visits|]);
      assert (s.visits + [Arrived(wrong)])[..|s.visits|] == s.visits;
    case Tick(_) =>
    case _ =>
      var t := Next(cfg, s, a);
      if a.visit < |s.visits| && t != s {
        MoveKeepsDoor(cfg, s, a.visit, t.visits[a.visit], t.lock);
      }
  }

  /** Under any interleaving no failure is lost: before the first success the counter is the number of
      wrong passwords, and the lock is always set exactly at or above the threshold. */
  lemma {:induction false} NoFailureIsLost(cfg: Settings, actions: seq<Action>)
    requires cfg.Valid()
    ensures DoorInv(cfg, Run(cfg, START, actions))
  {
    if |actions| > 0 {
      NoFailureIsLost(cfg, actions[..|actions| - 1]);
      NextKeepsDoor(cfg, Run(cfg, START, actions[..|actions| - 1]), actions[|actions| - 1]);
    }
  }

  // ---------- a bound by how many logins overlap ----------

  /** All along, at most k logins are between their first read and their write, and no password is right. */
  ghost predicate Steady(cfg: Settings, s: Door, actions: seq<Action>, k: nat) {
    && Count(InFlight, Run(cfg, s, actions).visits) <= k
    && (|actions| > 0 ==>
          var front, a := actions[..|actions| - 1], actions[|actions| - 1];
          var before := Run(cfg, s, front);
          && Steady(cfg, s, front, k)
          && !(a.Write? && a.visit < |before.visits| && before.visits[a.visit] == Checked(false)))
  }

  function Times(n: nat, k: nat): nat {
    if n == 0 then 0 else Times(n - 1, k) + k
  }

  lemma {:induction false} TimesIsProduct(n: nat, k: nat)
    ensures Times(n, k) == n * k
  {
    if n > 0 {
      TimesIsProduct(n - 1, k);
      assert n * k == (n - 1) * k + k;
    }
  }

  /** The failures that set the lock come in rounds. A round starts with one of them, takes a lock duration,
      and has only the logins that were in flight when it started: whoever reads the row later finds it
      locked until the round is over. */
  datatype Rounds = Rounds(count: nat, startedAt: Millis)

  ghost predicate RoundsInv(cfg: Settings, s: Door, k: nat, since: Millis, locking: nat, r: Rounds) {
    && since <= s.now && Count(InFlight, s.visits) <= k
    && locking <= Times(r.count, k)
    && (r.count > 0 ==>
          && since + Times(r.count - 1, cfg.durationMs) <= r.startedAt <= s.now
          && s.lock.lockUntil.Some? && r.startedAt + cfg.durationMs <= s.lock.lockUntil.value
          && (s.now < r.startedAt + cfg.durationMs ==>
                locking + Count(Early(r.startedAt + cfg.durationMs), s.visits) <= Times(r.count, k)))
  }

  /** A failure that sets the lock. */
  lemma LockingWrite(cfg: Settings, s: Door, k: nat, since: Millis, locking: nat, r: Rounds, v: nat)
    returns (r': Rounds)
    requires cfg.Valid() && RoundsInv(cfg, s, k, since, locking, r)
    requires v < |s.visits| && s.visits[v] == Checked(true) && s.lock.failed + 1 >= cfg.threshold
    ensures RoundsInv(cfg, Next(cfg, s, Write(v)), k, since, locking + 1, r')
  {
    var t := Next(cfg, s, Write(v));
    CountUpdate(InFlight, s.visits, v, Settled(true));
    if r.count > 0 && s.now < r.startedAt + cfg.durationMs {
      r' := r;
      CountUpdate(Early(r.startedAt + cfg.durationMs), s.visits, v, Settled(true));
    } else {
      r' := Rounds(r.count + 1, s.now);
      EarlyFly(t.visits, s.now + cfg.durationMs);
    }
  }

  /** A failure below the threshold starts no round. */
  lemma EarlyWrite(cfg: Settings, s: Door, k: nat, since: Millis, r: Rounds, v: nat)
    requires cfg.Valid() && RoundsInv(cfg, s, k, since, 0, r) && LockInv(cfg, s.lock)
    requires v < |s.visits| && s.visits[v] == Checked(true) && s.lock.failed + 1 < cfg.threshold
    ensures RoundsInv(cfg, Next(cfg, s, Write(v)), k, since, 0, r)
  {
    CountUpdate(InFlight, s.visits, v, Settled(true));
  }

  /** Reading, checking, arriving and waiting add nobody who could still write in the running round. */
  lemma OtherStep(cfg: Settings, s: Door, k: nat, since: Millis, locking: nat, r: Rounds, a: Action)
    requires cfg.Valid() && RoundsInv(cfg, s, k, since, locking, r) && !Writes(s, a)
    requires Count(InFlight, Next(cfg, s, a).visits) <= k
    ensures RoundsInv(cfg, Next(cfg, s, a), k, since, locking, r)
    ensures WrongPasswords(Next(cfg, s, a)) == WrongPasswords(s) && Next(cfg, s, a).lock == s.lock
  {
    var t := Next(cfg, s, a);
    var bound := r.startedAt + cfg.durationMs;
    match a
    case Arrive(wrong) =>
      CountAppend(Failures, s.visits, Arrived(wrong));
      CountAppend(Early(bound), s.visits, Arrived(wrong));
    case Read(v) =>
      if v < |s.visits| && s.visits[v].Arrived? {
        CountUpdate(Failures, s.visits, v, t.visits[v]);
        CountUpdate(Early(bound), s.visits, v, t.visits[v]);
      }
    case Check(v) =>
      if v < |s.visits| && s.visits[v].Loaded? {
        CountUpdate(Failures, s.visits, v, t.visits[v]);
        CountUpdate(Early(bound), s.visits, v, t.visits[v]);
      }
    case _ =>
  }

  predicate Writes(s: Door, a: Action) {
    a.Write? && a.visit < |s.visits| && s.visits[a.visit].Checked?
  }

  lemma {:induction false} OverlapRounds(cfg: Settings, s: Door, actions: seq<Action>, k: nat)
    returns (c: nat, r: Rounds)
    requires cfg.Valid() && LockInv(cfg, s.lock) && Steady(cfg, s, actions, k)
    ensures var t := Run(cfg, s, actions);
      && WrongPasswords(t) == WrongPasswords(s) + c
      && t.lock.failed == s.lock.failed + c && LockInv(cfg, t.lock)
      && RoundsInv(cfg, t, k, s.now, Locking(cfg, s.lock.failed, c), r)
  {
    if |actions| == 0 {
      c, r := 0, Rounds(0, 0);
    } else {
      var front, a := actions[..|actions| - 1], actions[|actions| - 1];
      var before := Run(cfg, s, front);
      c, r := OverlapRounds(cfg, s, front, k);
      var locking := Locking(cfg, s.lock.failed, c);
      if Writes(before, a) {
        CountUpdate(Failures, before.visits, a.visit, Settled(true));
        if before.lock.failed + 1 >= cfg.threshold {
          r := LockingWrite(cfg, before, k, s.now, locking, r, a.visit);
        } else {
          EarlyWrite(cfg, before, k, s.now, r, a.visit);
        }
        c := c + 1;
      } else {
        OtherStep(cfg, before, k, s.now, locking, r, a);
      }
    }
  }

  /** Whatever state it starts in, a stretch of interleaved logins without a success, of which at most k
      overlap at a time, has at most threshold − 1 + k × (floor(length / duration) + 1) failed checks; for
      k = 1 that is the serial bound. */
  lemma OverlapBound(cfg: Settings, s: Door, actions: seq<Action>, k: nat, length: nat)
    requires cfg.Valid() && LockInv(cfg, s.lock) && Steady(cfg, s, actions, k)
    requires Run(cfg, s, actions).now <= s.now + length
    ensures WrongPasswords(Run(cfg, s, actions))
         <= WrongPasswords(s) + cfg.threshold - 1 + k * (length / cfg.durationMs + 1)
  {
    var c, r := OverlapRounds(cfg, s, actions, k);
    TimesIsProduct(r.count, k);
    if r.count > 0 {
      TimesIsProduct(r.count - 1, cfg.durationMs);
      assert r.count * cfg.durationMs == (r.count - 1) * cfg.durationMs + cfg.durationMs;
    }
    if r.count > length / cfg.durationMs + 1 {
      QuotientExceeded(r.count, cfg.durationMs, length);
    }
    Scale(r.count, length / cfg.durationMs + 1, k);
  }

  // ---------- the bound is attained ----------

  lemma {:induction false} SteadyConcat(cfg: Settings, s: Door, a: seq<Action>, b: seq<Action>, k: nat)
    requires Steady(cfg, s, a, k) && Steady(cfg, Run(cfg, s, a), b, k)
    ensures Steady(cfg, s, a + b, k)
  {
    RunConcat(cfg, s, a, b);
    if |b| == 0 {
      assert a + b == a;
    } else {
      SteadyConcat(cfg, s, a, b[..|b| - 1], k);
      RunConcat(cfg, s, a, b[..|b| - 1]);
      assert (a + b)[..|a + b| - 1] == a + b[..|b| - 1];
    }
  }

  /** A steady run from s to t. */
  ghost predicate Leads(cfg: Settings, s: Door, actions: seq<Action>, t: Door, k: nat) {
    Run(cfg, s, actions) == t && Steady(cfg, s, actions, k)
  }

  lemma LeadsOn(cfg: Settings, s: Door, a: seq<Action>, m: Door, b: seq<Action>, t: Door, k: nat)
    requires Leads(cfg, s, a, m, k) && Leads(cfg, m, b, t, k)
    ensures Leads(cfg, s, a + b, t, k)
  {
    RunConcat(cfg, s, a, b);
    SteadyConcat(cfg, s, a, b, k);
  }

  lemma LeadsNowhere(cfg: Settings, s: Door, k: nat)
    requires Count(InFlight, s.visits) <= k
    ensures Leads(cfg, s, [], s, k)
  {
  }

  lemma LeadsOne(cfg: Settings, s: Door, a: Action, t: Door, k: nat)
    requires Count(InFlight, s.visits) <= k && t == Next(cfg, s, a) && Count(InFlight, t.visits) <= k
    requires !(a.Write? && a.visit < |s.visits| && s.visits[a.visit] == Checked(false))
    ensures Leads(cfg, s, [a], t, k)
  {
    assert [a][..0] == [] && Run(cfg, s, []) == s && Steady(cfg, s, [], k);
  }

  /** A wrong password is let in and compared. */
  lemma EnterOne(cfg: Settings, s: Door, k: nat) returns (actions: seq<Action>, t: Door)
    requires !Blocks(s.lock, s.now) && Count(InFlight, s.visits) < k
    ensures Leads(cfg, s, actions, t, k)
    ensures t == s.(visits := s.visits + [Checked(true)])
  {
    var m := |s.visits|;
    var s1, s2 := s.(visits := s.visits + [Arrived(true)]), s.(visits := s.visits + [Loaded(true, s.lock)]);
    var s3 := s.(visits := s.visits + [Checked(true)]);
    CountAppend(InFlight, s.visits, Arrived(true));
    CountAppend(InFlight, s.visits, Loaded(true, s.lock));
    CountAppend(InFlight, s.visits, Checked(true));
    LeadsOne(cfg, s, Arrive(true), s1, k);
    assert Next(cfg, s1, Read(m)) == s2;
    LeadsOne(cfg, s1, Read(m), s2, k);
    assert Next(cfg, s2, Check(m)) == s3;
    LeadsOne(cfg, s2, Check(m), s3, k);
    LeadsOn(cfg, s, [Arrive(true)], s1, [Read(m)], s2, k);
    LeadsOn(cfg, s, [Arrive(true)] + [Read(m)], s2, [Check(m)], s3, k);
    actions, t := [Arrive(true)] + [Read(m)] + [Check(m)], s3;
  }

  /** The visits from lo on are in flight with a wrong password. */
  ghost predicate Inside(s: Door, lo: nat, n: nat) {
    lo + n <= |s.visits| && forall v :: lo <= v < lo + n ==> s.visits[v] == Checked(true)
  }

  /** n of them at once. */
  lemma {:induction false} EnterAll(cfg: Settings, s: Door, n: nat, k: nat) returns (actions: seq<Action>, t: Door)
    requires !Blocks(s.lock, s.now) && Count(InFlight, s.visits) == 0 && n <= k
    ensures Leads(cfg, s, actions, t, k)
    ensures t.now == s.now && t.lock == s.lock && |t.visits| == |s.visits| + n && Inside(t, |s.visits|, n)
    ensures Count(InFlight, t.visits) == n && WrongPasswords(t) == WrongPasswords(s)
  {
    if n == 0 {
      actions, t := [], s;
      LeadsNowhere(cfg, s, k);
    } else {
      var front, m := EnterAll(cfg, s, n - 1, k);
      CountAppend(InFlight, m.visits, Checked(true));
      CountAppend(Failures, m.visits, Checked(true));
      var last;
      last, t := EnterOne(cfg, m, k);
      LeadsOn(cfg, s, front, m, last, t, k);
      actions := front + last;
    }
  }

  /** The last of them writes its failure. */
  lemma LeaveOne(cfg: Settings, s: Door, lo: nat, n: nat, k: nat) returns (t: Door)
    requires Inside(s, lo, n) && n > 0 && Count(InFlight, s.visits) <= k
    ensures Leads(cfg, s, [Write(lo + n - 1)], t, k)
    ensures t.now == s.now && t.lock == Fail(cfg, s.lock, s.now) && Inside(t, lo, n - 1)
    ensures Count(InFlight, t.visits) == Count(InFlight, s.visits) - 1 && WrongPasswords(t) == WrongPasswords(s) + 1
  {
    var v := lo + n - 1;
    t := Next(cfg, s, Write(v));
    CountUpdate(InFlight, s.visits, v, Settled(true));
    CountUpdate(Failures, s.visits, v, Settled(true));
    LeadsOne(cfg, s, Write(v), t, k);
  }

  /** All of them do, the last ones first. */
  lemma {:induction false} LeaveAll(cfg: Settings, s: Door, lo: nat, n: nat, k: nat)
    returns (actions: seq<Action>, t: Door)
    requires Inside(s, lo, n) && n > 0 && Count(InFlight, s.visits) <= k
    ensures Leads(cfg, s, actions, t, k)
    ensures t.now == s.now && t.lock.failed == s.lock.failed + n
    ensures t.lock.lockUntil == if t.lock.failed >= cfg.threshold then Some(s.now + cfg.durationMs) else None
    ensures Count(InFlight, t.visits) == Count(InFlight, s.visits) - n && WrongPasswords(t) == WrongPasswords(s) + n
    decreases n
  {
    var m := LeaveOne(cfg, s, lo, n, k);
    if n == 1 {
      actions, t := [Write(lo)], m;
    } else {
      var rest;
      rest, t := LeaveAll(cfg, m, lo, n - 1, k);
      LeadsOn(cfg, s, [Write(lo + n - 1)], m, rest, t, k);
      actions := [Write(lo + n - 1)] + rest;
    }
  }

  /** The customer is at rest: nobody in flight, and the lock as the counter and the last write left it. */
  ghost predicate AtRest(cfg: Settings, s: Door, failed: nat) {
    && Count(InFlight, s.visits) == 0 && WrongPasswords(s) == failed && s.lock.failed == failed
    && s.lock.lockUntil == if failed >= cfg.threshold then Some(s.now + cfg.durationMs) else None
  }

  /** m wrong passwords that all get in before any of them is counted. */
  lemma OneRush(cfg: Settings, s: Door, m: nat, k: nat) returns (actions: seq<Action>, t: Door)
    requires 0 < m <= k && !Blocks(s.lock, s.now)
    requires Count(InFlight, s.visits) == 0 && WrongPasswords(s) == s.lock.failed
    ensures Leads(cfg, s, actions, t, k)
    ensures t.now == s.now && AtRest(cfg, t, s.lock.failed + m)
  {
    var enter, inside := EnterAll(cfg, s, m, k);
    var leave;
    leave, t := LeaveAll(cfg, inside, |s.visits|, m, k);
    LeadsOn(cfg, s, enter, inside, leave, t, k);
    actions := enter + leave;
  }

  /** Below the threshold, one after the other at the very start. */
  lemma {:induction false} UpToThreshold(cfg: Settings, n: nat, k: nat) returns (actions: seq<Action>, t: Door)
    requires n < cfg.threshold && k > 0
    ensures Leads(cfg, START, actions, t, k)
    ensures t.now == 0 && AtRest(cfg, t, n)
  {
    if n == 0 {
      actions, t := [], START;
      LeadsNowhere(cfg, START, k);
    } else {
      var front, m := UpToThreshold(cfg, n - 1, k);
      var last;
      last, t := OneRush(cfg, m, 1, k);
      LeadsOn(cfg, START, front, m, last, t, k);
      actions := front + last;
    }
  }

  /** For every k and every number of lock periods there is a run with at most k in flight, and no success,
      that has exactly as many failed checks as the bound allows. */
  lemma {:induction false} OverlapBoundIsAttained(cfg: Settings, k: nat, periods: nat)
    returns (actions: seq<Action>, t: Door)
    requires cfg.Valid() && k > 0
    ensures Run(cfg, START, actions) == t && Steady(cfg, START, actions, k)
    ensures t.now == Times(periods, cfg.durationMs)
    ensures AtRest(cfg, t, cfg.threshold - 1 + Times(periods + 1, k))
  {
    var front, m;
    if periods == 0 {
      front, m := UpToThreshold(cfg, cfg.threshold - 1, k);
      assert Times(1, k) == Times(0, k) + k;
    } else {
      var before, s := OverlapBoundIsAttained(cfg, k, periods - 1);
      m := s.(now := s.now + cfg.durationMs);
      LeadsOne(cfg, s, Tick(cfg.durationMs), m, k);
      LeadsOn(cfg, START, before, s, [Tick(cfg.durationMs)], m, k);
      front := before + [Tick(cfg.durationMs)];
    }
    var last;
    last, t := OneRush(cfg, m, k, k);
    LeadsOn(cfg, START, front, m, last, t, k);
    actions := front + last;
  }

  /** Without a limit on how many overlap there is no bound: any number of wrong passwords can be checked at
      one instant, because the row is read before the counter is written. */
  lemma OverlapBreaksTheBound(cfg: Settings, n: nat) returns (actions: seq<Action>)
    requires n > 0
    ensures Run(cfg, START, actions).now == 0 && WrongPasswords(Run(cfg, START, actions)) == n
  {
    var t;
    actions, t := OneRush(cfg, START, n, n);
  }

  /** The serial bound, for every run with at most k logins overlapping. */
  ghost predicate SerialBoundHolds(cfg: Settings, k: nat)
    requires cfg.Valid()
  {
    forall actions: seq<Action> :: Steady(cfg, START, actions, k) ==>
      WrongPasswords(Run(cfg, START, actions)) <= cfg.threshold + Run(cfg, START, actions).now / cfg.durationMs
  }

  /** It holds exactly when logins do not overlap: two at a time already break it. */
  lemma SerialBoundExactly(cfg: Settings, k: nat)
    requires cfg.Valid()
    ensures SerialBoundHolds(cfg, k) <==> k <= 1
  {
    if k <= 1 {
      forall actions: seq<Action> | Steady(cfg, START, actions, k)
        ensures var t := Run(cfg, START, actions); WrongPasswords(t) <= cfg.threshold + t.now / cfg.durationMs
      {
        OverlapBound(cfg, START, actions, k, Run(cfg, START, actions).now);
        Scale(k, 1, Run(cfg, START, actions).now / cfg.durationMs + 1);
      }
    } else {
      var actions, t := OverlapBoundIsAttained(cfg, k, 0);
      assert Times(1, k) == Times(0, k) + k;
      assert WrongPasswords(t) == cfg.threshold - 1 + k && t.now / cfg.durationMs == 0;
    }
  }
}
