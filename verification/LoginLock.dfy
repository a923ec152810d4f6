/**
 The failed-attempt counter and lock of a customer, and the lockout bound of logins served one after the
 other; LoginOverlap has those that interleave.
 */
module LoginLock {
  import opened Prelude

  type Millis = nat

  datatype Settings = Settings(threshold: nat, durationMs: nat) {
    predicate Valid() {
      threshold > 0 && durationMs > 0
    }
  }

  datatype Lock = Lock(failed: nat, lockUntil: Option<Millis>)

  const OPEN := Lock(0, None)

  predicate Blocks(lock: Lock, now: Millis) {
    lock.lockUntil.Some? && lock.lockUntil.value > now
  }

  /** The single UPDATE of a wrong password. */
  function Fail(cfg: Settings, lock: Lock, now: Millis): Lock {
    Lock(lock.failed + 1, if lock.failed + 1 >= cfg.threshold then Some(now + cfg.durationMs) else None)
  }

  function Settle(cfg: Settings, lock: Lock, valid: bool, now: Millis): Lock {
    if valid then OPEN else Fail(cfg, lock, now)
  }

  /** The lock is set exactly when the counter has reached the threshold. */
  ghost predicate LockInv(cfg: Settings, lock: Lock) {
    lock.lockUntil.Some? <==> lock.failed >= cfg.threshold
  }

  // ---------- serial logins ----------

  datatype Attempt = Attempt(checkedAt: Millis, settledAt: Millis, valid: bool)

  function Try(cfg: Settings, lock: Lock, a: Attempt): Lock {
    if Blocks(lock, a.checkedAt) then lock else Settle(cfg, lock, a.valid, a.settledAt)
  }

  function After(cfg: Settings, lock: Lock, attempts: seq<Attempt>): Lock {
    if |attempts| == 0 then lock
    else Try(cfg, After(cfg, lock, attempts[..|attempts| - 1]), attempts[|attempts| - 1])
  }

  /** How many attempts had their password checked and found wrong. */
  function FailedChecks(cfg: Settings, lock: Lock, attempts: seq<Attempt>): nat {
    if |attempts| == 0 then 0
    else
      var front, a := attempts[..|attempts| - 1], attempts[|attempts| - 1];
      FailedChecks(cfg, lock, front) + (if !a.valid && !Blocks(After(cfg, lock, front), a.checkedAt) then 1 else 0)
  }

  /** No attempt logs in. */
  predicate NoSuccess(cfg: Settings, lock: Lock, attempts: seq<Attempt>) {
    |attempts| > 0 ==>
      var front, a := attempts[..|attempts| - 1], attempts[|attempts| - 1];
      NoSuccess(cfg, lock, front) && (a.valid ==> Blocks(After(cfg, lock, front), a.checkedAt))
  }

  /** Each attempt starts after the one before it ended, the first one not before `since`. */
  predicate InOrder(attempts: seq<Attempt>, since: Millis) {
    |attempts| > 0 ==>
      var front, a := attempts[..|attempts| - 1], attempts[|attempts| - 1];
      InOrder(front, since) && EndOf(front, since) <= a.checkedAt <= a.settledAt
  }

  function EndOf(attempts: seq<Attempt>, since: Millis): Millis {
    if |attempts| == 0 then since else attempts[|attempts| - 1].settledAt
  }

  lemma {:induction false} LockFollowsCounter(cfg: Settings, lock: Lock, attempts: seq<Attempt>)
    requires cfg.Valid() && LockInv(cfg, lock)
    ensures LockInv(cfg, After(cfg, lock, attempts))
  {
    if |attempts| > 0 {
      LockFollowsCounter(cfg, lock, attempts[..|attempts| - 1]);
    }
  }

  /** How many of c failures, counted from `failed`, set the lock. */
  function Locking(cfg: Settings, failed: nat, c: nat): nat {
    if failed >= cfg.threshold then c else if failed + c < cfg.threshold then 0 else failed + c - cfg.threshold + 1
  }

  /** With m locking failures since `since`, the last of them set a lock m durations after it or later. */
  ghost predicate Spaced(cfg: Settings, lock: Lock, m: nat, since: Millis, end: Millis) {
    m > 0 ==> lock.lockUntil.Some? && since + m * cfg.durationMs <= lock.lockUntil.value <= end + cfg.durationMs
  }

  lemma FailureKeepsSpacing(cfg: Settings, lock: Lock, m: nat, since: Millis, end: Millis, a: Attempt)
    requires cfg.Valid() && Spaced(cfg, lock, m, since, end) && since <= end <= a.checkedAt <= a.settledAt
    requires !Blocks(lock, a.checkedAt) && lock.failed + 1 >= cfg.threshold
    ensures Spaced(cfg, Fail(cfg, lock, a.settledAt), m + 1, since, a.settledAt)
  {
    assert (m + 1) * cfg.durationMs == m * cfg.durationMs + cfg.durationMs;
  }

  /** Each failure that sets the lock comes a full lock duration after the one before it. */
  lemma {:induction false} LockingFailuresAreSpaced(cfg: Settings, lock: Lock, attempts: seq<Attempt>, since: Millis)
    requires cfg.Valid() && LockInv(cfg, lock) && NoSuccess(cfg, lock, attempts) && InOrder(attempts, since)
    ensures var c, after := FailedChecks(cfg, lock, attempts), After(cfg, lock, attempts);
      && since <= EndOf(attempts, since)
      && after.failed == lock.failed + c
      && Spaced(cfg, after, Locking(cfg, lock.failed, c), since, EndOf(attempts, since))
  {
    if |attempts| > 0 {
      var front, a := attempts[..|attempts| - 1], attempts[|attempts| - 1];
      LockingFailuresAreSpaced(cfg, lock, front, since);
      var c, before := FailedChecks(cfg, lock, front), After(cfg, lock, front);
      if !Blocks(before, a.checkedAt) && before.failed + 1 >= cfg.threshold {
        FailureKeepsSpacing(cfg, before, Locking(cfg, lock.failed, c), since, EndOf(front, since), a);
        assert Locking(cfg, lock.failed, c + 1) == Locking(cfg, lock.failed, c) + 1;
      }
    }
  }

  lemma {:induction false} Scale(a: nat, b: nat, d: nat)
    requires a <= b
    ensures a * d <= b * d
    decreases b
  {
    if a < b {
      Scale(a, b - 1, d);
      assert b * d == (b - 1) * d + d;
    }
  }

  lemma QuotientExceeded(m: nat, d: nat, span: nat)
    requires d > 0 && m > span / d + 1
    ensures m * d > span + d
  {
    var q := span / d;
    assert span < q * d + d;
    Scale(q + 2, m, d);
    assert (q + 2) * d == q * d + d + d;
  }

  /** Any stretch of serial logins without a success has at most threshold + floor(length / duration)
      failed password checks, whatever state it starts in. */
  lemma LockoutBound(cfg: Settings, lock: Lock, attempts: seq<Attempt>, since: Millis, length: nat)
    requires cfg.Valid() && LockInv(cfg, lock) && NoSuccess(cfg, lock, attempts)
    requires InOrder(attempts, since) && EndOf(attempts, since) <= since + length
    ensures FailedChecks(cfg, lock, attempts) <= cfg.threshold + length / cfg.durationMs
  {
    LockingFailuresAreSpaced(cfg, lock, attempts, since);
    var c := FailedChecks(cfg, lock, attempts);
    var m := Locking(cfg, lock.failed, c);
    if m > length / cfg.durationMs + 1 {
      QuotientExceeded(m, cfg.durationMs, length);
    }
  }

  /** A wrong password as soon as the lock allows, k times over. */
  function Hammer(cfg: Settings, k: nat): seq<Attempt> {
    if k == 0 then [] else Hammer(cfg, k - 1) + [Attempt(HammerTime(cfg, k), HammerTime(cfg, k), false)]
  }

  function HammerTime(cfg: Settings, k: nat): nat {
    if k <= cfg.threshold then 0 else HammerTime(cfg, k - 1) + cfg.durationMs
  }

  /** One more wrong password that is let in. */
  lemma OneMoreFailure(cfg: Settings, attempts: seq<Attempt>, a: Attempt)
    requires InOrder(attempts, 0) && NoSuccess(cfg, OPEN, attempts) && EndOf(attempts, 0) <= a.checkedAt <= a.settledAt
    requires !a.valid && !Blocks(After(cfg, OPEN, attempts), a.checkedAt)
    ensures InOrder(attempts + [a], 0) && NoSuccess(cfg, OPEN, attempts + [a])
    ensures EndOf(attempts + [a], 0) == a.settledAt
    ensures FailedChecks(cfg, OPEN, attempts + [a]) == FailedChecks(cfg, OPEN, attempts) + 1
    ensures After(cfg, OPEN, attempts + [a]) == Fail(cfg, After(cfg, OPEN, attempts), a.settledAt)
  {
    assert (attempts + [a])[..|attempts|] == attempts;
  }

  function HammerLock(cfg: Settings, k: nat): Lock {
    Lock(k, if k >= cfg.threshold then Some(HammerTime(cfg, k) + cfg.durationMs) else None)
  }

  /** The next try comes just when the lock runs out. */
  lemma NextTryGetsThrough(cfg: Settings, k: nat)
    requires cfg.Valid()
    ensures HammerTime(cfg, k) <= HammerTime(cfg, k + 1)
    ensures !Blocks(HammerLock(cfg, k), HammerTime(cfg, k + 1))
    ensures Fail(cfg, HammerLock(cfg, k), HammerTime(cfg, k + 1)) == HammerLock(cfg, k + 1)
  {
    assert HammerTime(cfg, k + 1) == if k + 1 <= cfg.threshold then 0 else HammerTime(cfg, k) + cfg.durationMs;
  }

  ghost predicate GetsThrough(cfg: Settings, attempts: seq<Attempt>, k: nat) {
    && InOrder(attempts, 0) && NoSuccess(cfg, OPEN, attempts)
    && EndOf(attempts, 0) == HammerTime(cfg, k)
    && FailedChecks(cfg, OPEN, attempts) == k
    && After(cfg, OPEN, attempts) == HammerLock(cfg, k)
  }

  lemma AppendTry(cfg: Settings, attempts: seq<Attempt>, k: nat, a: Attempt)
    requires cfg.Valid() && GetsThrough(cfg, attempts, k)
    requires a == Attempt(HammerTime(cfg, k + 1), HammerTime(cfg, k + 1), false)
    ensures GetsThrough(cfg, attempts + [a], k + 1)
  {
    NextTryGetsThrough(cfg, k);
    OneMoreFailure(cfg, attempts, a);
  }

  lemma {:induction false} HammerAlwaysGetsThrough(cfg: Settings, k: nat)
    requires cfg.Valid()
    ensures GetsThrough(cfg, Hammer(cfg, k), k)
  {
    if k > 0 {
      HammerAlwaysGetsThrough(cfg, k - 1);
      AppendTry(cfg, Hammer(cfg, k - 1), k - 1, Attempt(HammerTime(cfg, k), HammerTime(cfg, k), false));
    }
  }

  lemma {:induction false} HammerTimeIs(cfg: Settings, periods: nat)
    ensures HammerTime(cfg, cfg.threshold + periods) == periods * cfg.durationMs
  {
    if periods > 0 {
      HammerTimeIs(cfg, periods - 1);
      assert periods * cfg.durationMs == (periods - 1) * cfg.durationMs + cfg.durationMs;
    }
  }

  /** The bound is reached for every number of lock periods. */
  lemma BoundIsReached(cfg: Settings, periods: nat)
    requires cfg.Valid()
    ensures var attempts := Hammer(cfg, cfg.threshold + periods);
      && InOrder(attempts, 0) && NoSuccess(cfg, OPEN, attempts)
      && EndOf(attempts, 0) == periods * cfg.durationMs
      && FailedChecks(cfg, OPEN, attempts) == cfg.threshold + periods
  {
    HammerAlwaysGetsThrough(cfg, cfg.threshold + periods);
    HammerTimeIs(cfg, periods);
  }
}
