/** Fencing, the status machine, the backoff bound and claimability of the outbox, over all runs. */
module OutboxTheorems {
  import opened Prelude
  import opened OutboxMachine

  // ---------- the invariant ----------

  /** The k-th failure waits out its backoff before the next one, while retries last. */
  ghost predicate Spaced(cfg: Config, failures: seq<Failure>) {
    && (forall k :: 0 <= k < |failures| ==> failures[k].decidedAt <= failures[k].writtenAt)
    && (forall k :: 0 < k < |failures| && k <= cfg.maxRetries ==>
          failures[k].decidedAt >= failures[k - 1].decidedAt + cfg.BackoffDelayMs(k))
  }

  /** When the backoff of the last failure is over, if it has one. */
  ghost predicate WaitedOut(cfg: Config, failures: seq<Failure>, at: Millis) {
    0 < |failures| <= cfg.maxRetries ==>
      at >= failures[|failures| - 1].decidedAt + cfg.BackoffDelayMs(|failures|)
  }

  ghost predicate RowInv(cfg: Config, s: Outbox, i: nat)
    requires i < |s.rows| && i < |s.trails|
  {
    var row, trail := s.rows[i], s.trails[i];
    && row.retryCount == |trail.failures|
    && Spaced(cfg, trail.failures)
    && (row.status == Publishing <==> row.claimedAt.Some?)
    && (trail.latestClaim.Some? ==> trail.latestClaim.value <= s.now)
    && (row.status == Pending <==> trail.latestClaim.None?)
    && (row.status == Pending ==> |trail.failures| == 0)
    && (row.status == Publishing ==>
          row.claimedAt == trail.latestClaim && WaitedOut(cfg, trail.failures, row.claimedAt.value))
    && (row.status == Processed <==> row.publishedAt.Some?)
    && (row.status == Processed ==> i in s.broker)
    && (row.status == Failed ==>
          && |trail.failures| > 0
          && row.nextRetryAt == NextRetryAt(cfg, |trail.failures|, trail.failures[|trail.failures| - 1].decidedAt))
  }

  /** A claim is never newer than the latest one of its event; if it is unspent and as new, the event is
      still PUBLISHING under it. */
  ghost predicate ClaimInv(cfg: Config, s: Outbox, c: nat)
    requires c < |s.claims|
  {
    var claim := s.claims[c];
    && claim.event < |s.rows| && claim.event < |s.trails|
    && var trail := s.trails[claim.event];
    && trail.latestClaim.Some? && claim.claimedAt <= trail.latestClaim.value
    && (claim.progress != Spent && claim.claimedAt == trail.latestClaim.value ==>
          Matches(s, claim) && claim.retryCount == |trail.failures|)
    && (claim.progress.Confirmed? ==> claim.event in s.broker)
    && (claim.progress.Refused? ==>
          && claim.claimedAt <= claim.progress.decidedAt <= s.now
          && claim.progress.nextRetryAt == NextRetryAt(cfg, claim.retryCount + 1, claim.progress.decidedAt))
  }

  /** No two unspent claims of one event carry the same time. */
  ghost predicate Fenced(s: Outbox) {
    forall c: nat, d: nat :: c < d < |s.claims| && Current(s, c) && Current(s, d) ==>
      s.claims[c].event != s.claims[d].event
  }

  ghost predicate Current(s: Outbox, c: nat) {
    c < |s.claims| && s.claims[c].progress != Spent && s.claims[c].event < |s.trails| &&
    s.trails[s.claims[c].event].latestClaim == Some(s.claims[c].claimedAt)
  }

  ghost predicate Inv(cfg: Config, s: Outbox) {
    && cfg.Valid() && |s.trails| == |s.rows|
    && (forall i :: 0 <= i < |s.rows| ==> RowInv(cfg, s, i))
    && (forall c :: 0 <= c < |s.claims| ==> ClaimInv(cfg, s, c))
    && Fenced(s)
  }

  // ---------- every step keeps it ----------

  lemma ClaimOneRow(cfg: Config, s: Outbox, i: nat)
    requires Inv(cfg, s) && i < |s.rows| && Claimable(cfg, s.rows[i], s.now)
    ensures RowInv(cfg, ClaimOne(cfg, s, i), i)
    ensures forall c :: 0 <= c < |s.claims| && s.claims[c].progress != Spent && s.claims[c].event == i ==>
              s.claims[c].claimedAt < s.now
  {
    assert RowInv(cfg, s, i);
    forall c | 0 <= c < |s.claims| && s.claims[c].progress != Spent && s.claims[c].event == i
      ensures s.claims[c].claimedAt < s.now
    {
      assert ClaimInv(cfg, s, c);
    }
  }

  lemma ClaimOneClaims(cfg: Config, s: Outbox, i: nat, c: nat)
    requires Inv(cfg, s) && i < |s.rows| && Claimable(cfg, s.rows[i], s.now) && c <= |s.claims|
    ensures c < |ClaimOne(cfg, s, i).claims| && ClaimInv(cfg, ClaimOne(cfg, s, i), c)
  {
    var t := ClaimOne(cfg, s, i);
    assert RowInv(cfg, s, i);
    if c == |s.claims| {
      assert t.claims[c] == Claim(i, s.rows[i].retryCount, s.now, Claimed);
    } else {
      ClaimOneRow(cfg, s, i);
      assert t.claims[c] == s.claims[c] && ClaimInv(cfg, s, c);
    }
  }

  lemma ClaimOneInv(cfg: Config, s: Outbox, i: nat)
    requires Inv(cfg, s)
    ensures Inv(cfg, ClaimOne(cfg, s, i))
  {
    var t := ClaimOne(cfg, s, i);
    if t != s {
      ClaimOneRow(cfg, s, i);
      forall c: nat | c < |t.claims| ensures ClaimInv(cfg, t, c) {
        ClaimOneClaims(cfg, s, i, c);
      }
      forall j | 0 <= j < |t.rows| ensures RowInv(cfg, t, j) {
        if j != i {
          assert RowInv(cfg, s, j);
        }
      }
      assert forall c: nat :: c < |s.claims| && Current(t, c) ==> t.claims[c].event != i && Current(s, c);
    }
  }

  lemma {:induction false} ClaimEachInv(cfg: Config, s: Outbox, ids: seq<nat>)
    requires Inv(cfg, s)
    ensures Inv(cfg, ClaimEach(cfg, s, ids))
  {
    if |ids| > 0 {
      ClaimEachInv(cfg, s, ids[..|ids| - 1]);
      ClaimOneInv(cfg, ClaimEach(cfg, s, ids[..|ids| - 1]), ids[|ids| - 1]);
    }
  }

  /** A step that leaves rows and trails alone and only moves one claim forward. */
  lemma ProgressInv(cfg: Config, s: Outbox, t: Outbox, c: nat)
    requires Inv(cfg, s) && c < |s.claims|
    requires t.rows == s.rows && t.trails == s.trails && t.now == s.now
    requires |t.claims| == |s.claims| && t.claims == s.claims[c := s.claims[c].(progress := t.claims[c].progress)]
    requires t.broker == s.broker || t.broker == s.broker + [s.claims[c].event]
    requires t.claims[c].progress == Spent || s.claims[c].progress == Claimed
    requires t.claims[c].progress.Confirmed? ==> s.claims[c].event in t.broker
    requires t.claims[c].progress.Refused? ==>
               t.claims[c].progress == Refused(s.now, NextRetryAt(cfg, s.claims[c].retryCount + 1, s.now))
    ensures Inv(cfg, t)
  {
    forall d | 0 <= d < |t.claims| ensures ClaimInv(cfg, t, d) {
      assert ClaimInv(cfg, s, d);
      assert RowInv(cfg, s, s.claims[d].event);
    }
    forall i | 0 <= i < |t.rows| ensures RowInv(cfg, t, i) {
      assert RowInv(cfg, s, i);
    }
    assert forall d: nat :: Current(t, d) ==> Current(s, d);
  }

  lemma OthersAreStale(cfg: Config, s: Outbox, c: nat, d: nat)
    requires Inv(cfg, s) && c < |s.claims| && d < |s.claims| && c != d
    requires Matches(s, s.claims[c]) && s.claims[c].progress != Spent
    requires s.claims[d].progress != Spent && s.claims[d].event == s.claims[c].event
    ensures s.claims[d].claimedAt < s.claims[c].claimedAt
  {
    assert RowInv(cfg, s, s.claims[c].event);
    assert ClaimInv(cfg, s, c) && ClaimInv(cfg, s, d);
    assert Current(s, c);
    assert !Current(s, d);
  }

  lemma FinalizeClaims(cfg: Config, s: Outbox, c: nat)
    requires Inv(cfg, s) && Finalizable(s, c) && Matches(s, s.claims[c])
    ensures var t := FinalizeClaim(s, c);
      (forall d :: 0 <= d < |t.claims| ==> ClaimInv(cfg, t, d)) && Fenced(t)
  {
    var t := FinalizeClaim(s, c);
    forall d | 0 <= d < |t.claims| ensures ClaimInv(cfg, t, d) {
      assert ClaimInv(cfg, s, d);
      if d != c && s.claims[d].progress != Spent && s.claims[d].event == s.claims[c].event {
        assert ClaimInv(cfg, s, c);
        OthersAreStale(cfg, s, c, d);
      }
    }
    assert forall d: nat :: Current(t, d) ==> Current(s, d);
  }

  lemma FailureSpaced(cfg: Config, s: Outbox, c: nat)
    requires Inv(cfg, s) && Finalizable(s, c) && Matches(s, s.claims[c]) && s.claims[c].progress.Refused?
    ensures Spaced(cfg, FinalizeClaim(s, c).trails[s.claims[c].event].failures)
  {
    assert ClaimInv(cfg, s, c);
    assert RowInv(cfg, s, s.claims[c].event);
  }

  lemma FinalizeInv(cfg: Config, s: Outbox, c: nat)
    requires Inv(cfg, s) && Finalizable(s, c)
    ensures Inv(cfg, FinalizeClaim(s, c))
  {
    var t := FinalizeClaim(s, c);
    if Matches(s, s.claims[c]) {
      FinalizeClaims(cfg, s, c);
      assert ClaimInv(cfg, s, c);
      if s.claims[c].progress.Refused? {
        FailureSpaced(cfg, s, c);
      }
      forall i | 0 <= i < |t.rows| ensures RowInv(cfg, t, i) {
        assert RowInv(cfg, s, i);
      }
    } else {
      ProgressInv(cfg, s, t, c);
    }
  }

  lemma NextInv(cfg: Config, s: Outbox, a: Action)
    requires Inv(cfg, s)
    ensures Inv(cfg, Next(cfg, s, a))
  {
    var t := Next(cfg, s, a);
    match a
    case ClaimBatch => ClaimEachInv(cfg, s, Batch(cfg, s.rows, s.now, 0, cfg.batchSize));
    case Finalize(c) => if Finalizable(s, c) { FinalizeInv(cfg, s, c); }
    case LoseFinalize(c) => if Finalizable(s, c) { ProgressInv(cfg, s, t, c); }
    case Confirm(c) => if t != s { ProgressInv(cfg, s, t, c); }
    case Refuse(c) => if t != s { ProgressInv(cfg, s, t, c); }
    case Append => AppendInv(cfg, s);
    case Tick(ms) =>
      forall i | 0 <= i < |t.rows| ensures RowInv(cfg, t, i) { assert RowInv(cfg, s, i); }
      forall c | 0 <= c < |t.claims| ensures ClaimInv(cfg, t, c) { assert ClaimInv(cfg, s, c); }
      assert forall d: nat :: Current(t, d) ==> Current(s, d);
  }

  lemma AppendInv(cfg: Config, s: Outbox)
    requires Inv(cfg, s)
    ensures Inv(cfg, Next(cfg, s, Append))
  {
    var t := Next(cfg, s, Append);
    forall i | 0 <= i < |t.rows| ensures RowInv(cfg, t, i) {
      if i < |s.rows| {
        assert RowInv(cfg, s, i);
      }
    }
    forall c | 0 <= c < |t.claims| ensures ClaimInv(cfg, t, c) {
      assert ClaimInv(cfg, s, c);
    }
    assert forall d: nat :: Current(t, d) ==> d < |s.claims| && ClaimInv(cfg, s, d) && Current(s, d);
  }

  lemma {:induction false} RunInv(cfg: Config, s: Outbox, actions: seq<Action>)
    requires Inv(cfg, s)
    ensures Inv(cfg, Run(cfg, s, actions))
  {
    if |actions| > 0 {
      RunInv(cfg, s, actions[..|actions| - 1]);
      NextInv(cfg, Run(cfg, s, actions[..|actions| - 1]), actions[|actions| - 1]);
    }
  }

  // ---------- fencing ----------

  /** At any time at most one unspent claim matches an event. */
  lemma OneMatchingClaim(cfg: Config, actions: seq<Action>, c: nat, d: nat)
    requires cfg.Valid()
    requires var s := Run(cfg, EMPTY, actions);
      c < |s.claims| && d < |s.claims| && s.claims[c].progress != Spent && s.claims[d].progress != Spent &&
      s.claims[c].event == s.claims[d].event && Matches(s, s.claims[c]) && Matches(s, s.claims[d])
    ensures c == d
  {
    RunInv(cfg, EMPTY, actions);
    var s := Run(cfg, EMPTY, actions);
    if c != d {
      OthersAreStale(cfg, s, c, d);
    }
  }

  /** The event has been claimed again since. */
  ghost predicate Overtaken(s: Outbox, c: nat) {
    c < |s.claims| && s.claims[c].event < |s.trails| && s.trails[s.claims[c].event].latestClaim.Some? &&
    s.claims[c].claimedAt < s.trails[s.claims[c].event].latestClaim.value
  }

  lemma {:induction false} ClaimEachKeepsOvertaken(cfg: Config, s: Outbox, ids: seq<nat>, c: nat)
    requires Inv(cfg, s) && Overtaken(s, c)
    ensures Overtaken(ClaimEach(cfg, s, ids), c)
  {
    if |ids| > 0 {
      var front := ClaimEach(cfg, s, ids[..|ids| - 1]);
      ClaimEachKeepsOvertaken(cfg, s, ids[..|ids| - 1], c);
      ClaimEachInv(cfg, s, ids[..|ids| - 1]);
      assert RowInv(cfg, front, front.claims[c].event);
    }
  }

  lemma NextKeepsOvertaken(cfg: Config, s: Outbox, a: Action, c: nat)
    requires Inv(cfg, s) && Overtaken(s, c)
    ensures Overtaken(Next(cfg, s, a), c)
  {
    if a.ClaimBatch? {
      ClaimEachKeepsOvertaken(cfg, s, Batch(cfg, s.rows, s.now, 0, cfg.batchSize), c);
    }
  }

  /** Once overtaken, a claim can never again change its row, whatever happens in between. */
  lemma {:induction false} OvertakenNeverWrites(cfg: Config, s: Outbox, actions: seq<Action>, c: nat)
    requires Inv(cfg, s) && Overtaken(s, c)
    ensures var t := Run(cfg, s, actions);
      && Overtaken(t, c)
      && Next(cfg, t, Finalize(c)).rows == t.rows
      && Next(cfg, t, Finalize(c)).trails == t.trails
  {
    var t := Run(cfg, s, actions);
    RunInv(cfg, s, actions);
    if |actions| > 0 {
      OvertakenNeverWrites(cfg, s, actions[..|actions| - 1], c);
      RunInv(cfg, s, actions[..|actions| - 1]);
      NextKeepsOvertaken(cfg, Run(cfg, s, actions[..|actions| - 1]), actions[|actions| - 1], c);
    }
    assert RowInv(cfg, t, t.claims[c].event);
  }

  // ---------- status machine ----------

  lemma {:induction false} ClaimEachKeepsProcessed(cfg: Config, s: Outbox, ids: seq<nat>, i: nat)
    requires i < |s.rows| && s.rows[i].status == Processed
    ensures i < |ClaimEach(cfg, s, ids).rows| && ClaimEach(cfg, s, ids).rows[i] == s.rows[i]
  {
    if |ids| > 0 {
      ClaimEachKeepsProcessed(cfg, s, ids[..|ids| - 1], i);
    }
  }

  /** PROCESSED is final: the row never changes again. */
  lemma {:induction false} ProcessedIsFinal(cfg: Config, s: Outbox, actions: seq<Action>, i: nat)
    requires i < |s.rows| && s.rows[i].status == Processed
    ensures i < |Run(cfg, s, actions).rows| && Run(cfg, s, actions).rows[i] == s.rows[i]
  {
    if |actions| > 0 {
      var before := Run(cfg, s, actions[..|actions| - 1]);
      ProcessedIsFinal(cfg, s, actions[..|actions| - 1], i);
      if actions[|actions| - 1].ClaimBatch? {
        ClaimEachKeepsProcessed(cfg, before, Batch(cfg, before.rows, before.now, 0, cfg.batchSize), i);
      }
    }
  }

  /** In every reachable state: PUBLISHING exactly when claimed, PROCESSED only after a confirmed publish,
      and as many retries counted as FAILED writes happened. */
  lemma StatusMachine(cfg: Config, actions: seq<Action>, i: nat)
    requires cfg.Valid() && i < |Run(cfg, EMPTY, actions).rows|
    ensures var s := Run(cfg, EMPTY, actions);
      && (s.rows[i].status == Publishing <==> s.rows[i].claimedAt.Some?)
      && (s.rows[i].status == Processed ==> i in s.broker && s.rows[i].publishedAt.Some?)
      && i < |s.trails| && s.rows[i].retryCount == |s.trails[i].failures|
  {
    RunInv(cfg, EMPTY, actions);
    assert RowInv(cfg, Run(cfg, EMPTY, actions), i);
  }

  lemma {:induction false} ClaimEachKeepsClaims(cfg: Config, s: Outbox, ids: seq<nat>)
    ensures s.claims <= ClaimEach(cfg, s, ids).claims
  {
    if |ids| > 0 {
      ClaimEachKeepsClaims(cfg, s, ids[..|ids| - 1]);
    }
  }

  /** From its confirmation on a claim is confirmed or spent, never refused. */
  lemma {:induction false} ConfirmedStays(cfg: Config, s: Outbox, actions: seq<Action>, c: nat)
    requires c < |s.claims| && s.claims[c].progress.Confirmed?
    ensures var t := Run(cfg, s, actions);
      && c < |t.claims| && t.claims[c].event == s.claims[c].event
      && (t.claims[c].progress.Confirmed? || t.claims[c].progress.Spent?)
  {
    if |actions| > 0 {
      var before := Run(cfg, s, actions[..|actions| - 1]);
      ConfirmedStays(cfg, s, actions[..|actions| - 1], c);
      if actions[|actions| - 1].ClaimBatch? {
        ClaimEachKeepsClaims(cfg, before, Batch(cfg, before.rows, before.now, 0, cfg.batchSize));
      }
    }
  }

  /** Once its publish was confirmed, a claim never again writes FAILED or counts a retry: whatever happens
      in between, finalizing it changes at most its own event, and that only to PROCESSED. */
  lemma ConfirmedNeverFails(cfg: Config, s: Outbox, actions: seq<Action>, c: nat, a: Action)
    requires Inv(cfg, s) && c < |s.claims| && s.claims[c].progress.Confirmed?
    requires a == Finalize(c) || a == LoseFinalize(c)
    ensures var t := Run(cfg, s, actions);
      var after := Next(cfg, t, a);
      && after.trails == t.trails && |after.rows| == |t.rows|
      && (forall i :: 0 <= i < |t.rows| && after.rows[i] != t.rows[i] ==>
            i == s.claims[c].event && after.rows[i].status == Processed)
      && c < |after.claims| && after.claims[c].progress == Spent
  {
    RunInv(cfg, s, actions);
    ConfirmedStays(cfg, s, actions, c);
    assert ClaimInv(cfg, Run(cfg, s, actions), c);
  }

  // ---------- backoff ----------

  lemma {:induction false} BackoffSum(cfg: Config, failures: seq<Failure>, k: nat)
    requires Spaced(cfg, failures) && 0 < k <= |failures| && k <= cfg.maxRetries + 1
    ensures failures[k - 1].decidedAt >= failures[0].decidedAt + cfg.baseDelayMs * (Pow2(k - 1) - 1)
  {
    if k > 1 {
      BackoffSum(cfg, failures, k - 1);
      assert cfg.baseDelayMs * (Pow2(k - 2) - 1) + cfg.baseDelayMs * Pow2(k - 2) == cfg.baseDelayMs * (Pow2(k - 1) - 1);
    }
  }

  /** Takeovers included, the k-th FAILED write is decided at least base × (2^(k−1) − 1) ms after the first one. */
  lemma BackoffBound(cfg: Config, actions: seq<Action>, i: nat, k: nat)
    requires cfg.Valid() && i < |Run(cfg, EMPTY, actions).trails|
    requires 0 < k <= |Run(cfg, EMPTY, actions).trails[i].failures| && k <= cfg.maxRetries + 1
    ensures var failures := Run(cfg, EMPTY, actions).trails[i].failures;
      && failures[k - 1].writtenAt >= failures[k - 1].decidedAt
      && failures[k - 1].decidedAt >= failures[0].decidedAt + cfg.baseDelayMs * (Pow2(k - 1) - 1)
  {
    RunInv(cfg, EMPTY, actions);
    assert RowInv(cfg, Run(cfg, EMPTY, actions), i);
    BackoffSum(cfg, Run(cfg, EMPTY, actions).trails[i].failures, k);
  }

  // ---------- claimability ----------

  /** The first moment at which an unprocessed event can be claimed. */
  function ClaimableFrom(cfg: Config, row: EventRow): Millis {
    if row.status == Failed && row.nextRetryAt.Some? then row.nextRetryAt.value
    else if row.status == Publishing && row.claimedAt.Some? then row.claimedAt.value + cfg.claimTtlMs + 1
    else 0
  }

  /** Every unprocessed event of a reachable state becomes claimable at a known time and stays so. */
  lemma AlwaysClaimableAgain(cfg: Config, actions: seq<Action>, i: nat, at: Millis)
    requires cfg.Valid() && i < |Run(cfg, EMPTY, actions).rows|
    ensures var row := Run(cfg, EMPTY, actions).rows[i];
      Claimable(cfg, row, at) <==> row.status != Processed && at >= ClaimableFrom(cfg, row)
  {
    RunInv(cfg, EMPTY, actions);
    assert RowInv(cfg, Run(cfg, EMPTY, actions), i);
  }

  function CountClaimable(cfg: Config, rows: seq<EventRow>, now: Millis, from: nat, to: nat): nat
    decreases to - from
  {
    if from >= to || from >= |rows| then 0
    else (if Claimable(cfg, rows[from], now) then 1 else 0) + CountClaimable(cfg, rows, now, from + 1, to)
  }

  /** An event is in the batch exactly when it is claimable and fewer than `limit` older ones are. */
  lemma {:induction false} InBatch(cfg: Config, rows: seq<EventRow>, now: Millis, from: nat, limit: nat, i: nat)
    requires from <= i < |rows|
    ensures i in Batch(cfg, rows, now, from, limit) <==>
            Claimable(cfg, rows[i], now) && CountClaimable(cfg, rows, now, from, i) < limit
    decreases |rows| - from
  {
    if limit > 0 {
      var next := if Claimable(cfg, rows[from], now) then limit - 1 else limit;
      if from < i {
        InBatch(cfg, rows, now, from + 1, next, i);
      } else {
        BatchStartsAt(cfg, rows, now, from + 1, next);
      }
    }
  }

  lemma {:induction false} BatchStartsAt(cfg: Config, rows: seq<EventRow>, now: Millis, from: nat, limit: nat)
    ensures forall i :: i in Batch(cfg, rows, now, from, limit) ==> i >= from
    decreases |rows| - from
  {
    if from < |rows| && limit > 0 {
      BatchStartsAt(cfg, rows, now, from + 1, if Claimable(cfg, rows[from], now) then limit - 1 else limit);
    }
  }

  /** An event that used up its retries is claimable at once: one more failure is written without any
      time passing, so the number of attempts is not bounded by maxRetries. */
  lemma ExhaustedFailsAgainAtOnce(cfg: Config, s: Outbox, i: nat)
    requires Inv(cfg, s) && i < |s.rows| && s.rows[i].status == Failed && s.rows[i].retryCount > cfg.maxRetries
    ensures var c := |s.claims|;
      var t := Next(cfg, Next(cfg, ClaimOne(cfg, s, i), Refuse(c)), Finalize(c));
      && Claimable(cfg, s.rows[i], s.now)
      && t.now == s.now && |t.rows| == |s.rows|
      && t.rows[i].status == Failed && t.rows[i].retryCount == s.rows[i].retryCount + 1
      && t.rows[i].nextRetryAt.None?
  {
    assert RowInv(cfg, s, i);
  }

  /** The one event of an outbox is claimed, refused and written FAILED at one moment. */
  lemma FailNow(cfg: Config, s: Outbox) returns (actions: seq<Action>, t: Outbox)
    requires cfg.Valid() && |s.rows| == |s.trails| == 1 && Claimable(cfg, s.rows[0], s.now)
    ensures Run(cfg, s, actions) == t && t.now == s.now && |t.trails| == 1
    ensures var retryCount := s.rows[0].retryCount + 1;
      t.rows == [s.rows[0].(status := Failed, retryCount := retryCount,
                            nextRetryAt := NextRetryAt(cfg, retryCount, s.now), claimedAt := None)]
  {
    var c := |s.claims|;
    assert Batch(cfg, s.rows, s.now, 0, cfg.batchSize) == [0];
    assert ClaimEach(cfg, s, [0]) == ClaimOne(cfg, s, 0) by {
      assert [0][..0] == [] && ClaimEach(cfg, s, []) == s;
    }
    var s1 := ClaimOne(cfg, s, 0);
    var s2 := Next(cfg, s1, Refuse(c));
    t := Next(cfg, s2, Finalize(c));
    RunOne(cfg, s, ClaimBatch);
    RunOne(cfg, s1, Refuse(c));
    RunOne(cfg, s2, Finalize(c));
    RunConcat(cfg, s, [ClaimBatch], [Refuse(c)]);
    RunConcat(cfg, s, [ClaimBatch] + [Refuse(c)], [Finalize(c)]);
    actions := [ClaimBatch] + [Refuse(c)] + [Finalize(c)];
  }

  /** The backoff before failure n + 1, counted from the first. */
  function Waited(cfg: Config, n: nat): Millis {
    if n == 0 then 0 else Waited(cfg, n - 1) + (if n <= cfg.maxRetries then cfg.BackoffDelayMs(n) else 0)
  }

  lemma {:induction false} WaitedIsBackoff(cfg: Config, n: nat)
    ensures Waited(cfg, n) == cfg.baseDelayMs * (Pow2(if n <= cfg.maxRetries then n else cfg.maxRetries) - 1)
  {
    if n > 0 {
      WaitedIsBackoff(cfg, n - 1);
      if n <= cfg.maxRetries {
        assert cfg.baseDelayMs * (Pow2(n - 1) - 1) + cfg.baseDelayMs * Pow2(n - 1)
            == cfg.baseDelayMs * (2 * Pow2(n - 1) - 1);
      }
    }
  }

  lemma {:induction false} FailTimes(cfg: Config, n: nat) returns (actions: seq<Action>, t: Outbox)
    requires cfg.Valid()
    ensures Run(cfg, EMPTY, actions) == t && t.now == Waited(cfg, n) && |t.trails| == 1
    ensures t.rows == [EventRow(Failed, n + 1, NextRetryAt(cfg, n + 1, t.now), None, None)]
  {
    var front, m;
    if n == 0 {
      front, m := [Append], Next(cfg, EMPTY, Append);
      RunOne(cfg, EMPTY, Append);
    } else {
      var before, s := FailTimes(cfg, n - 1);
      var wait := Tick(Waited(cfg, n) - s.now);
      m := Next(cfg, s, wait);
      RunOne(cfg, s, wait);
      RunConcat(cfg, EMPTY, before, [wait]);
      front := before + [wait];
    }
    var last;
    last, t := FailNow(cfg, m);
    RunConcat(cfg, EMPTY, front, last);
    actions := front + last;
  }

  /** So from the empty outbox an event can fail any number of times, and however often it does, all of them
      within the backoff of the first maxRetries. */
  lemma AttemptsAreUnbounded(cfg: Config, n: nat) returns (actions: seq<Action>)
    requires cfg.Valid()
    ensures var t := Run(cfg, EMPTY, actions);
      && |t.rows| == 1 && t.rows[0].status == Failed && t.rows[0].retryCount == n + 1
      && t.now == cfg.baseDelayMs * (Pow2(if n <= cfg.maxRetries then n else cfg.maxRetries) - 1)
      && (n >= cfg.maxRetries ==> t.rows[0].nextRetryAt.None?)
  {
    var t;
    actions, t := FailTimes(cfg, n);
    WaitedIsBackoff(cfg, n);
  }
}
