/**
 One worker's tick as written: claim a batch, then publish and finalize event by event with a
 `published` flag, metrics and guarded row updates in place. What the broker and the database answer
 is a parameter. The tick is proved to be a run of the outbox machine.
 */
module OutboxService {
  import opened Prelude
  import opened OutboxMachine

  /** What happens to one claimed event: time passing, the broker's answer, the database's answer. */
  datatype Attempt = Attempt(waitMs: nat, publishes: bool, finalizes: bool)
  {
    /** A failed publish whose FAILED update throws as well ends the tick. */
    predicate Aborts() {
      !publishes && !finalizes
    }
  }

  function AttemptActions(c: nat, a: Attempt): seq<Action> {
    [Tick(a.waitMs), if a.publishes then Confirm(c) else Refuse(c),
     if a.finalizes then Finalize(c) else LoseFinalize(c)]
  }

  function WorkActions(first: nat, attempts: seq<Attempt>): seq<Action>
    decreases |attempts|
  {
    if |attempts| == 0 then []
    else
      AttemptActions(first, attempts[0]) + (if attempts[0].Aborts() then [] else WorkActions(first + 1, attempts[1..]))
  }

  function RefusedIn(attempts: seq<Attempt>): nat {
    if |attempts| == 0 then 0
    else (if attempts[0].publishes then 0 else 1) + (if attempts[0].Aborts() then 0 else RefusedIn(attempts[1..]))
  }

  /** The refused publishes whose events have retries left. */
  function RetriedIn(cfg: Config, batch: seq<Claim>, attempts: seq<Attempt>): nat
    requires |batch| == |attempts|
  {
    if |attempts| == 0 then 0
    else
      (if !attempts[0].publishes && batch[0].retryCount < cfg.maxRetries then 1 else 0) +
      (if attempts[0].Aborts() then 0 else RetriedIn(cfg, batch[1..], attempts[1..]))
  }

  function CountProcessed(rows: seq<EventRow>): nat {
    if |rows| == 0 then 0
    else CountProcessed(rows[..|rows| - 1]) + (if rows[|rows| - 1].status == Processed then 1 else 0)
  }

  lemma {:induction false} CountUpdate(rows: seq<EventRow>, i: nat, row: EventRow)
    requires i < |rows|
    ensures CountProcessed(rows[i := row]) - CountProcessed(rows)
         == (if row.status == Processed then 1 else 0) - (if rows[i].status == Processed then 1 else 0)
  {
    var last := |rows| - 1;
    if i < last {
      CountUpdate(rows[..last], i, row);
      assert rows[i := row][..last] == rows[..last][i := row];
    } else {
      assert rows[i := row][..last] == rows[..last];
    }
  }

  /** ClaimEach from the front. */
  lemma {:induction false} ClaimEachSnoc(cfg: Config, s: Outbox, ids: seq<nat>, i: nat)
    ensures ClaimEach(cfg, s, ids + [i]) == ClaimOne(cfg, ClaimEach(cfg, s, ids), i)
  {
    assert (ids + [i])[..|ids|] == ids;
  }

  lemma AppendHead(front: seq<nat>, head: nat, rest: seq<nat>)
    ensures front + ([head] + rest) == (front + [head]) + rest
  {
  }

  /** What RETURNING hands to the worker: events of the table, freshly claimed. */
  ghost predicate Returned(batch: seq<Claim>, events: nat) {
    forall k :: 0 <= k < |batch| ==> batch[k].progress == Claimed && batch[k].event < events
  }

  class Worker {
    const cfg: Config
    var now: Millis
    var rows: seq<EventRow>
    var broker: seq<nat>
    ghost var trails: seq<Trail>
    ghost var claims: seq<Claim>
    var fetched: nat
    var processed: nat
    var failed: nat
    var retried: nat

    constructor (cfg: Config)
      ensures State() == EMPTY && this.cfg == cfg
    {
      this.cfg := cfg;
      now, rows, broker, trails, claims := 0, [], [], [], [];
      fetched, processed, failed, retried := 0, 0, 0, 0;
    }

    ghost function State(): Outbox
      reads this
    {
      Outbox(now, rows, trails, claims, broker)
    }

    method TakeOne(i: nat)
      requires |trails| == |rows| && i < |rows| && Claimable(cfg, rows[i], now)
      modifies this`rows, this`trails, this`claims
      ensures State() == ClaimOne(cfg, old(State()), i)
      ensures claims == old(claims) + [Claim(i, old(rows[i].retryCount), now, Claimed)]
      ensures |rows| == |trails| == old(|rows|) && CountProcessed(rows) == old(CountProcessed(rows))
      ensures forall j :: 0 <= j < |rows| && j != i ==> rows[j] == old(rows[j])
    {
      claims := claims + [Claim(i, rows[i].retryCount, now, Claimed)];
      trails := trails[i := trails[i].(latestClaim := Some(now))];
      var row := rows[i].(status := Publishing, claimedAt := Some(now));
      CountUpdate(rows, i, row);
      rows := rows[i := row];
    }

    /** The candidates of the claim: the oldest claimable events up to the batch size. */
    method SelectCandidates() returns (ids: seq<nat>)
      ensures ids == Batch(cfg, rows, now, 0, cfg.batchSize)
    {
      ghost var all := Batch(cfg, rows, now, 0, cfg.batchSize);
      ids := [];
      var i := 0;
      while i < |rows| && |ids| < cfg.batchSize
        invariant i <= |rows| && |ids| <= cfg.batchSize
        invariant all == ids + Batch(cfg, rows, now, i, cfg.batchSize - |ids|)
      {
        if Claimable(cfg, rows[i], now) {
          AppendHead(ids, i, Batch(cfg, rows, now, i + 1, cfg.batchSize - |ids| - 1));
          ids := ids + [i];
        }
        i := i + 1;
      }
      assert all == ids + [] == ids;
    }

    /** claimNextBatch: select and update in one statement; it hands back what it claimed. */
    method ClaimNextBatch() returns (batch: seq<Claim>)
      requires |trails| == |rows|
      modifies this`rows, this`trails, this`claims
      ensures State() == Next(cfg, old(State()), ClaimBatch)
      ensures claims == old(claims) + batch && Returned(batch, |rows|)
      ensures |rows| == |trails| == old(|rows|)
      ensures |batch| <= cfg.batchSize && CountProcessed(rows) == old(CountProcessed(rows))
    {
      ghost var start := State();
      var ids := SelectCandidates();
      BatchAscends(cfg, rows, now, 0, cfg.batchSize);
      batch := [];
      for k := 0 to |ids|
        invariant |batch| == k && Returned(batch, |rows|) && |rows| == |trails| == |start.rows|
        invariant State() == ClaimEach(cfg, start, ids[..k])
        invariant claims == start.claims + batch
        invariant CountProcessed(rows) == CountProcessed(start.rows)
      {
        TakeNext(cfg, start, ids, k);
        batch := batch + [Claim(ids[k], rows[ids[k]].retryCount, now, Claimed)];
        TakeOne(ids[k]);
      }
      assert ids[..|ids|] == ids;
    }

    /** updateMany where the event is still PUBLISHING under this claim; answers how many rows matched. */
    method UpdateIfHeld(event: nat, claimedAt: Millis, row: EventRow) returns (count: nat)
      requires event < |rows|
      modifies this`rows
      ensures count ==
              if old(rows[event].status == Publishing && rows[event].claimedAt == Some(claimedAt)) then 1 else 0
      ensures rows == if count == 1 then old(rows)[event := row] else old(rows)
    {
      if rows[event].status == Publishing && rows[event].claimedAt == Some(claimedAt) {
        rows := rows[event := row];
        count := 1;
      } else {
        count := 0;
      }
    }

    /** The PROCESSED update of an event whose publish was confirmed. */
    method FinalizeProcessed(event: nat, claimedAt: Millis, finalizes: bool, ghost c: nat)
      requires |trails| == |rows| && event < |rows| && c < |claims|
      requires claims[c].event == event && claims[c].claimedAt == claimedAt && claims[c].progress == Confirmed
      modifies this`rows, this`claims, this`processed
      ensures State() == Next(cfg, old(State()), if finalizes then Finalize(c) else LoseFinalize(c))
      ensures |rows| == old(|rows|)
      ensures processed - old(processed) == CountProcessed(rows) - old(CountProcessed(rows))
    {
      if finalizes {
        var row := rows[event].(status := Processed, publishedAt := Some(now), nextRetryAt := None, claimedAt := None);
        CountUpdate(rows, event, row);
        var count := UpdateIfHeld(event, claimedAt, row);
        if count == 1 {
          processed := processed + 1;
        }
      }
      claims := claims[c := claims[c].(progress := Spent)];
    }

    /** The FAILED update of an event whose publish threw. */
    method FinalizeFailed(event: nat, retryCount: nat, claimedAt: Millis, nextRetryAt: Option<Millis>,
                          finalizes: bool, ghost c: nat)
      requires |trails| == |rows| && event < |rows| && c < |claims|
      requires claims[c] == Claim(event, retryCount, claimedAt, Refused(now, nextRetryAt))
      modifies this`rows, this`claims, this`trails
      ensures State() == Next(cfg, old(State()), if finalizes then Finalize(c) else LoseFinalize(c))
      ensures |rows| == old(|rows|) == |trails|
      ensures CountProcessed(rows) == old(CountProcessed(rows))
    {
      if finalizes {
        var row := rows[event].(status := Failed, retryCount := retryCount + 1, nextRetryAt := nextRetryAt,
                                claimedAt := None);
        CountUpdate(rows, event, row);
        var count := UpdateIfHeld(event, claimedAt, row);
        if count == 1 {
          trails := trails[event := trails[event].(failures := trails[event].failures + [Failure(now, now)])];
        }
      }
      claims := claims[c := claims[c].(progress := Spent)];
    }

    /** The broker confirms: the flag `published` is set. */
    method PublishConfirmed(event: nat, ghost c: nat)
      requires c < |claims| && claims[c].progress == Claimed && claims[c].event == event
      modifies this`broker, this`claims
      ensures State() == Next(cfg, old(State()), Confirm(c))
    {
      broker := broker + [event];
      claims := claims[c := claims[c].(progress := Confirmed)];
    }

    /** The publish throws: the next retry is computed and counted. */
    method PublishRefused(retryCount: nat, ghost c: nat) returns (nextRetryAt: Option<Millis>)
      requires c < |claims| && claims[c].progress == Claimed && claims[c].retryCount == retryCount
      modifies this`claims, this`failed, this`retried
      ensures State() == Next(cfg, old(State()), Refuse(c))
      ensures c < |claims| && claims[c] == old(claims[c]).(progress := Refused(now, nextRetryAt))
      ensures failed == old(failed) + 1
      ensures retried - old(retried) == (if retryCount + 1 <= cfg.maxRetries then 1 else 0)
      ensures nextRetryAt.Some? <==> retryCount + 1 <= cfg.maxRetries
    {
      var nextRetryCount := retryCount + 1;
      var shouldRetry := nextRetryCount <= cfg.maxRetries;
      failed := failed + 1;
      if shouldRetry {
        retried := retried + 1;
      }
      nextRetryAt := NextRetryAt(cfg, nextRetryCount, now);
      claims := claims[c := claims[c].(progress := Refused(now, nextRetryAt))];
    }

    method ProcessOne(event: nat, retryCount: nat, claimedAt: Millis, attempt: Attempt, ghost c: nat)
      returns (threw: bool)
      requires |trails| == |rows| && event < |rows| && c < |claims|
      requires claims[c] == Claim(event, retryCount, claimedAt, Claimed)
      modifies this`now, this`rows, this`trails, this`claims, this`broker, this`processed, this`failed, this`retried
      ensures State() == Run(cfg, old(State()), AttemptActions(c, attempt))
      ensures threw == attempt.Aborts()
      ensures |trails| == |rows| == old(|rows|) && |claims| == old(|claims|)
      ensures forall d :: 0 <= d < |claims| && d != c ==> claims[d] == old(claims[d])
      ensures processed - old(processed) == CountProcessed(rows) - old(CountProcessed(rows))
      ensures failed == old(failed) + (if attempt.publishes then 0 else 1)
      ensures retried == old(retried) + (if !attempt.publishes && retryCount < cfg.maxRetries then 1 else 0)
    {
      ghost var start := State();
      ThreeSteps(cfg, start, c, attempt);
      OthersUntouched(cfg, start, c, attempt);
      now := now + attempt.waitMs;
      var published := false;
      if attempt.publishes {
        PublishConfirmed(event, c);
        published := true;
        FinalizeProcessed(event, claimedAt, attempt.finalizes, c);
      } else {
        var nextRetryAt := PublishRefused(retryCount, c);
        FinalizeFailed(event, retryCount, claimedAt, nextRetryAt, attempt.finalizes, c);
      }
      threw := !published && !attempt.finalizes;
    }

    /** The claims of a batch not yet worked on. */
    ghost predicate Held(batch: seq<Claim>, first: nat, k: nat)
      reads this
    {
      |claims| >= first + |batch| && |trails| == |rows| && Returned(batch, |rows|) &&
      forall d :: k <= d < |batch| ==> claims[first + d] == batch[d]
    }

    /** The loop over a claimed batch. */
    method WorkThrough(batch: seq<Claim>, attempts: seq<Attempt>, ghost first: nat)
      requires |attempts| == |batch| && Held(batch, first, 0)
      modifies this`now, this`rows, this`trails, this`claims, this`broker, this`processed, this`failed, this`retried
      ensures State() == Run(cfg, old(State()), WorkActions(first, attempts))
      ensures processed - old(processed) == CountProcessed(rows) - old(CountProcessed(rows))
      ensures failed - old(failed) == RefusedIn(attempts) && retried - old(retried) == RetriedIn(cfg, batch, attempts)
    {
      ghost var goal := Run(cfg, State(), WorkActions(first, attempts));
      assert attempts[0..] == attempts && batch[0..] == batch;
      var k := 0;
      while k < |batch|
        invariant k <= |batch| && Held(batch, first, k)
        invariant goal == Run(cfg, State(), WorkActions(first + k, attempts[k..]))
        invariant processed - old(processed) == CountProcessed(rows) - old(CountProcessed(rows))
        invariant failed - old(failed) + RefusedIn(attempts[k..]) == RefusedIn(attempts)
        invariant retried - old(retried) + RetriedIn(cfg, batch[k..], attempts[k..]) == RetriedIn(cfg, batch, attempts)
      {
        ghost var before := State();
        assert attempts[k..][1..] == attempts[k + 1..] && attempts[k..][0] == attempts[k];
        assert batch[k..][1..] == batch[k + 1..] && batch[k..][0] == batch[k];
        RunConcat(cfg, before, AttemptActions(first + k, attempts[k]), WorkActions(first + k + 1, attempts[k + 1..]));
        var threw := ProcessOne(batch[k].event, batch[k].retryCount, batch[k].claimedAt, attempts[k], first + k);
        if threw {
          assert AttemptActions(first + k, attempts[k]) + [] == AttemptActions(first + k, attempts[k]);
          return;
        }
        k := k + 1;
      }
      assert attempts[|batch|..] == [];
    }

    /** One tick: the table ends up where a run of the machine takes it, and the metrics count what happened. */
    method ProcessPendingEvents(attempts: seq<Attempt>) returns (n: nat)
      requires |trails| == |rows| && |attempts| >= cfg.batchSize
      modifies this
      ensures n == |Batch(cfg, old(rows), old(now), 0, cfg.batchSize)| <= |attempts|
      ensures State() == Run(cfg, old(State()), [ClaimBatch] + WorkActions(old(|claims|), attempts[..n]))
      ensures fetched == old(fetched) + n
      ensures processed - old(processed) == CountProcessed(rows) - old(CountProcessed(rows))
      ensures failed - old(failed) == RefusedIn(attempts[..n])
      ensures var claimed := Next(cfg, old(State()), ClaimBatch).claims;
        |claimed| == old(|claims|) + n &&
        retried - old(retried) == RetriedIn(cfg, claimed[old(|claims|)..], attempts[..n])
    {
      ghost var start := State();
      ghost var first := |claims|;
      ClaimEachCount(cfg, start);
      var batch := ClaimNextBatch();
      n := |batch|;
      assert Next(cfg, start, ClaimBatch).claims[first..] == batch;
      RunOne(cfg, start, ClaimBatch);
      RunConcat(cfg, start, [ClaimBatch], WorkActions(first, attempts[..n]));
      fetched := fetched + n;
      WorkThrough(batch, attempts[..n], first);
    }
  }

  /** Claiming in order never disturbs an event whose turn has not come. */
  lemma TakeNext(cfg: Config, s: Outbox, ids: seq<nat>, k: nat)
    requires |s.trails| == |s.rows| && Ascending(ids) && k < |ids|
    requires forall i :: 0 <= i < |ids| ==> ids[i] < |s.rows| && Claimable(cfg, s.rows[ids[i]], s.now)
    ensures var t := ClaimEach(cfg, s, ids[..k]);
      && ids[k] < |t.rows| && Claimable(cfg, t.rows[ids[k]], s.now)
      && ClaimEach(cfg, s, ids[..k + 1]) == ClaimOne(cfg, t, ids[k])
  {
    EachClaims(cfg, s, ids[..k]);
    assert ids[k] !in ids[..k];
    assert ids[..k + 1] == ids[..k] + [ids[k]];
    ClaimEachSnoc(cfg, s, ids[..k], ids[k]);
  }

  /** The claims a batch adds are as many as the events in it. */
  lemma ClaimEachCount(cfg: Config, s: Outbox)
    requires |s.trails| == |s.rows|
    ensures |Next(cfg, s, ClaimBatch).claims| == |s.claims| + |Batch(cfg, s.rows, s.now, 0, cfg.batchSize)|
  {
    BatchAscends(cfg, s.rows, s.now, 0, cfg.batchSize);
    EachClaims(cfg, s, Batch(cfg, s.rows, s.now, 0, cfg.batchSize));
  }

  ghost predicate Ascending(ids: seq<nat>) {
    forall i, j :: 0 <= i < j < |ids| ==> ids[i] < ids[j]
  }

  lemma {:induction false} BatchAscends(cfg: Config, rows: seq<EventRow>, now: Millis, from: nat, limit: nat)
    ensures var ids := Batch(cfg, rows, now, from, limit);
      && Ascending(ids) && |ids| <= limit
      && forall k :: 0 <= k < |ids| ==> from <= ids[k] < |rows| && Claimable(cfg, rows[ids[k]], now)
    decreases |rows| - from
  {
    if from < |rows| && limit > 0 {
      BatchAscends(cfg, rows, now, from + 1, if Claimable(cfg, rows[from], now) then limit - 1 else limit);
    }
  }

  lemma {:induction false} EachClaims(cfg: Config, s: Outbox, ids: seq<nat>)
    requires |s.trails| == |s.rows| && Ascending(ids)
    requires forall k :: 0 <= k < |ids| ==> ids[k] < |s.rows| && Claimable(cfg, s.rows[ids[k]], s.now)
    ensures var t := ClaimEach(cfg, s, ids);
      && |t.claims| == |s.claims| + |ids| && t.now == s.now
      && |t.rows| == |s.rows| == |t.trails|
      && forall i :: 0 <= i < |s.rows| && i !in ids ==> t.rows[i] == s.rows[i]
  {
    if |ids| > 0 {
      EachClaims(cfg, s, ids[..|ids| - 1]);
      assert ids[|ids| - 1] !in ids[..|ids| - 1];
    }
  }

  /** Working on one claim adds no claim and moves no other. */
  lemma OthersUntouched(cfg: Config, s: Outbox, c: nat, a: Attempt)
    requires |s.trails| == |s.rows|
    ensures var t := Run(cfg, s, AttemptActions(c, a));
      && |t.claims| == |s.claims| && |t.trails| == |t.rows| == |s.rows|
      && forall d :: 0 <= d < |s.claims| && d != c ==> t.claims[d] == s.claims[d]
  {
    ThreeSteps(cfg, s, c, a);
    var s1 := Next(cfg, s, Tick(a.waitMs));
    var s2 := Next(cfg, s1, if a.publishes then Confirm(c) else Refuse(c));
    StepUntouched(cfg, s1, if a.publishes then Confirm(c) else Refuse(c), c);
    StepUntouched(cfg, s2, if a.finalizes then Finalize(c) else LoseFinalize(c), c);
  }

  lemma StepUntouched(cfg: Config, s: Outbox, a: Action, c: nat)
    requires |s.trails| == |s.rows| && a in {Confirm(c), Refuse(c), Finalize(c), LoseFinalize(c)}
    ensures var t := Next(cfg, s, a);
      && |t.claims| == |s.claims| && |t.trails| == |t.rows| == |s.rows|
      && forall d :: 0 <= d < |s.claims| && d != c ==> t.claims[d] == s.claims[d]
  {
  }

  lemma ThreeSteps(cfg: Config, s: Outbox, c: nat, a: Attempt)
    ensures var s1 := Next(cfg, s, Tick(a.waitMs));
      var s2 := Next(cfg, s1, if a.publishes then Confirm(c) else Refuse(c));
      Run(cfg, s, AttemptActions(c, a)) == Next(cfg, s2, if a.finalizes then Finalize(c) else LoseFinalize(c))
  {
    var actions := AttemptActions(c, a);
    assert actions[..2][..1] == actions[..1] && actions[..1][..0] == [];
    assert Run(cfg, s, actions[..1]) == Next(cfg, s, Tick(a.waitMs)) by {
      assert Run(cfg, s, []) == s;
    }
    assert Run(cfg, s, actions[..2]) == Next(cfg, Run(cfg, s, actions[..1]), actions[1]);
  }

  // ---------- what a tick does to an event ----------

  /** A claim takes exactly the events of its batch, and hands out their retry counts. */
  lemma BatchIsTaken(cfg: Config, s: Outbox)
    requires |s.trails| == |s.rows|
    ensures var ids, t := Batch(cfg, s.rows, s.now, 0, cfg.batchSize), Next(cfg, s, ClaimBatch);
      && |t.rows| == |s.rows| && t.now == s.now && t.broker == s.broker
      && (forall i :: 0 <= i < |s.rows| ==>
            t.rows[i] == if i in ids then s.rows[i].(status := Publishing, claimedAt := Some(s.now)) else s.rows[i])
      && |t.claims| == |s.claims| + |ids| && t.claims[..|s.claims|] == s.claims
      && (forall k :: 0 <= k < |ids| ==>
            ids[k] < |s.rows| &&
            t.claims[|s.claims| + k] == Claim(ids[k], s.rows[ids[k]].retryCount, s.now, Claimed))
  {
    BatchAscends(cfg, s.rows, s.now, 0, cfg.batchSize);
    EachIsTaken(cfg, s, Batch(cfg, s.rows, s.now, 0, cfg.batchSize));
  }

  lemma {:induction false} EachIsTaken(cfg: Config, s: Outbox, ids: seq<nat>)
    requires |s.trails| == |s.rows| && Ascending(ids)
    requires forall k :: 0 <= k < |ids| ==> ids[k] < |s.rows| && Claimable(cfg, s.rows[ids[k]], s.now)
    ensures var t := ClaimEach(cfg, s, ids);
      && |t.rows| == |s.rows| == |t.trails| && t.now == s.now && t.broker == s.broker
      && (forall i :: 0 <= i < |s.rows| ==>
            t.rows[i] == if i in ids then s.rows[i].(status := Publishing, claimedAt := Some(s.now)) else s.rows[i])
      && |t.claims| == |s.claims| + |ids| && t.claims[..|s.claims|] == s.claims
      && (forall k :: 0 <= k < |ids| ==>
            t.claims[|s.claims| + k] == Claim(ids[k], s.rows[ids[k]].retryCount, s.now, Claimed))
  {
    if |ids| > 0 {
      var front, last := ids[..|ids| - 1], ids[|ids| - 1];
      EachIsTaken(cfg, s, front);
      assert last !in front && ids == front + [last];
    }
  }

  /** Working on a claim that still holds its event: a confirmed publish ends PROCESSED, a refused one FAILED with
      one retry more and, while retries last, a backoff that doubles; where the update is lost the row stays. The
      broker gets the event exactly if it confirms, and no other row changes. */
  lemma AttemptEnds(cfg: Config, s: Outbox, c: nat, a: Attempt)
    requires c < |s.claims| && s.claims[c].progress == Claimed && |s.trails| == |s.rows| && Matches(s, s.claims[c])
    ensures var Claim(i, retryCount, _, _) := s.claims[c];
      var t := Run(cfg, s, AttemptActions(c, a));
      var published := s.rows[i].publishedAt;
      && t.now == s.now + a.waitMs
      && t.broker == (if a.publishes then s.broker + [i] else s.broker)
      && t.rows == (if !a.finalizes then s.rows
                    else if a.publishes
                    then s.rows[i := EventRow(Processed, s.rows[i].retryCount, None, Some(t.now), None)]
                    else if retryCount < cfg.maxRetries
                    then s.rows[i := EventRow(Failed, retryCount + 1,
                                              Some(t.now + cfg.baseDelayMs * Pow2(retryCount)), published, None)]
                    else s.rows[i := EventRow(Failed, retryCount + 1, None, published, None)])
  {
    ThreeSteps(cfg, s, c, a);
  }

  /** On a claim that another one has overtaken no row changes, published or not. */
  lemma StaleAttemptEnds(cfg: Config, s: Outbox, c: nat, a: Attempt)
    requires c < |s.claims| && s.claims[c].progress == Claimed && !Matches(s, s.claims[c])
    ensures var t := Run(cfg, s, AttemptActions(c, a));
      t.rows == s.rows && t.broker == (if a.publishes then s.broker + [s.claims[c].event] else s.broker)
  {
    ThreeSteps(cfg, s, c, a);
  }
}
