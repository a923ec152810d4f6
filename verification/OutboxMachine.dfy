/**
 The outbox table and any number of workers. A worker claims a batch in one statement, publishes each
 event, and finalizes it in one guarded statement; the steps of different workers interleave freely
 and a worker may stop at any point. Trails and the broker log only record what happened.
 */
module OutboxMachine {
  import opened Prelude

  type Millis = nat

  datatype Config = Config(maxRetries: nat, baseDelayMs: nat, claimTtlMs: nat, batchSize: nat)
  {
    /** What parsePositiveInt guarantees. */
    predicate Valid() {
      maxRetries > 0 && baseDelayMs > 0 && claimTtlMs > 0 && batchSize > 0
    }

    function BackoffDelayMs(retryCount: nat): nat
      requires retryCount > 0
    {
      baseDelayMs * Pow2(retryCount - 1)
    }
  }

  datatype EventStatus = Pending | Publishing | Processed | Failed

  datatype EventRow = EventRow(status: EventStatus, retryCount: nat, nextRetryAt: Option<Millis>,
                               publishedAt: Option<Millis>, claimedAt: Option<Millis>)

  const NEW_EVENT := EventRow(Pending, 0, None, None, None)

  /** A FAILED write: when the worker computed it and when the table took it. */
  datatype Failure = Failure(decidedAt: Millis, writtenAt: Millis)

  datatype Trail = Trail(failures: seq<Failure>, latestClaim: Option<Millis>)

  datatype Progress =
    | Claimed
    | Confirmed                                                          // published == true
    | Refused(decidedAt: Millis, nextRetryAt: Option<Millis>)            // publish threw
    | Spent                                                              // finalize statement issued

  /** What a worker remembers of an event it claimed. */
  datatype Claim = Claim(event: nat, retryCount: nat, claimedAt: Millis, progress: Progress)

  /** Rows are in creation order. */
  datatype Outbox = Outbox(now: Millis, rows: seq<EventRow>, trails: seq<Trail>, claims: seq<Claim>, broker: seq<nat>)

  datatype Action =
    | Append                       // a ledger transaction commits a new event
    | Tick(ms: nat)
    | ClaimBatch
    | Confirm(claim: nat)          // the broker confirms the publish
    | Refuse(claim: nat)           // the publish throws
    | Finalize(claim: nat)
    | LoseFinalize(claim: nat)     // the finalize statement throws and changes nothing

  // ---------- claiming ----------

  predicate Claimable(cfg: Config, row: EventRow, now: Millis) {
    || row.status == Pending
    || (row.status == Failed && (row.nextRetryAt.None? || row.nextRetryAt.value <= now))
    || (row.status == Publishing && row.claimedAt.Some? && row.claimedAt.value + cfg.claimTtlMs < now)
  }

  /** The oldest claimable events from index `from` on, at most `limit` of them. */
  function Batch(cfg: Config, rows: seq<EventRow>, now: Millis, from: nat, limit: nat): seq<nat>
    decreases |rows| - from
  {
    if from >= |rows| || limit == 0 then []
    else if Claimable(cfg, rows[from], now) then [from] + Batch(cfg, rows, now, from + 1, limit - 1)
    else Batch(cfg, rows, now, from + 1, limit)
  }

  function ClaimOne(cfg: Config, s: Outbox, i: nat): Outbox {
    if i < |s.rows| && i < |s.trails| && Claimable(cfg, s.rows[i], s.now) then
      s.(rows := s.rows[i := s.rows[i].(status := Publishing, claimedAt := Some(s.now))],
         trails := s.trails[i := s.trails[i].(latestClaim := Some(s.now))],
         claims := s.claims + [Claim(i, s.rows[i].retryCount, s.now, Claimed)])
    else s
  }

  function ClaimEach(cfg: Config, s: Outbox, ids: seq<nat>): Outbox {
    if |ids| == 0 then s
    else ClaimOne(cfg, ClaimEach(cfg, s, ids[..|ids| - 1]), ids[|ids| - 1])
  }

  // ---------- finalizing ----------

  /** The guard of both updates: still PUBLISHING under this very claim. */
  predicate Matches(s: Outbox, claim: Claim) {
    claim.event < |s.rows| && s.rows[claim.event].status == Publishing &&
    s.rows[claim.event].claimedAt == Some(claim.claimedAt)
  }

  function NextRetryAt(cfg: Config, nextRetryCount: nat, now: Millis): Option<Millis>
    requires nextRetryCount > 0
  {
    if nextRetryCount <= cfg.maxRetries then Some(now + cfg.BackoffDelayMs(nextRetryCount)) else None
  }

  function SetProgress(s: Outbox, c: nat, progress: Progress): Outbox
    requires c < |s.claims|
  {
    s.(claims := s.claims[c := s.claims[c].(progress := progress)])
  }

  function FinalizeClaim(s: Outbox, c: nat): Outbox
    requires c < |s.claims|
  {
    var claim := s.claims[c];
    var spent := SetProgress(s, c, Spent);
    if !Matches(s, claim) then spent
    else
      var i := claim.event;
      match claim.progress
      case Confirmed =>
        spent.(rows := s.rows[i := s.rows[i].(status := Processed, publishedAt := Some(s.now),
                                              nextRetryAt := None, claimedAt := None)])
      case Refused(decidedAt, nextRetryAt) =>
        spent.(rows := s.rows[i := s.rows[i].(status := Failed, retryCount := claim.retryCount + 1,
                                              nextRetryAt := nextRetryAt, claimedAt := None)],
               trails := if i >= |s.trails| then s.trails
                         else
                           var failures := s.trails[i].failures + [Failure(decidedAt, s.now)];
                           s.trails[i := s.trails[i].(failures := failures)])
      case _ => spent
  }

  predicate Finalizable(s: Outbox, c: nat) {
    c < |s.claims| && (s.claims[c].progress.Confirmed? || s.claims[c].progress.Refused?)
  }

  function Next(cfg: Config, s: Outbox, a: Action): Outbox {
    match a
    case Append => s.(rows := s.rows + [NEW_EVENT], trails := s.trails + [Trail([], None)])
    case Tick(ms) => s.(now := s.now + ms)
    case ClaimBatch => ClaimEach(cfg, s, Batch(cfg, s.rows, s.now, 0, cfg.batchSize))
    case Confirm(c) =>
      if c < |s.claims| && s.claims[c].progress == Claimed
      then SetProgress(s, c, Confirmed).(broker := s.broker + [s.claims[c].event]) else s
    case Refuse(c) =>
      if c < |s.claims| && s.claims[c].progress == Claimed
      then SetProgress(s, c, Refused(s.now, NextRetryAt(cfg, s.claims[c].retryCount + 1, s.now))) else s
    case Finalize(c) => if Finalizable(s, c) then FinalizeClaim(s, c) else s
    case LoseFinalize(c) => if Finalizable(s, c) then SetProgress(s, c, Spent) else s
  }

  function Run(cfg: Config, s: Outbox, actions: seq<Action>): Outbox {
    if |actions| == 0 then s else Next(cfg, Run(cfg, s, actions[..|actions| - 1]), actions[|actions| - 1])
  }

  lemma {:induction false} RunConcat(cfg: Config, s: Outbox, a: seq<Action>, b: seq<Action>)
    ensures Run(cfg, s, a + b) == Run(cfg, Run(cfg, s, a), b)
  {
    if |b| == 0 {
      assert a + b == a;
    } else {
      RunConcat(cfg, s, a, b[..|b| - 1]);
      assert (a + b)[..|a + b| - 1] == a + b[..|b| - 1];
    }
  }

  lemma RunOne(cfg: Config, s: Outbox, a: Action)
    ensures Run(cfg, s, [a]) == Next(cfg, s, a)
  {
    assert [a][..0] == [];
    assert Run(cfg, s, []) == s;
  }

  const EMPTY := Outbox(0, [], [], [], [])
}
