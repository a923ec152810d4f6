/**
 handleMessage of the two consumers as written: a claim remembered in a local, dispatch, completion,
 and the catch block with markFailed, republish or nack, all updating rows, queues and metrics in
 place. What throws is a parameter. Handling one delivery is proved to be a run of the machine.
 */
module EventConsumer {
  import opened Prelude
  import opened ConsumerMachine

  /** The x-attempts header. */
  datatype Header = Missing | NotANumber | Infinite(positive: bool) | Finite(value: real)

  /** getConsumeMessageAttempts: a finite non-negative number rounded down, otherwise zero. */
  function Attempts(raw: Header): (n: nat)
    ensures raw.Finite? && raw.value >= 0.0 ==> n as real <= raw.value < (n + 1) as real
    ensures !(raw.Finite? && raw.value >= 0.0) ==> n == 0
  {
    if raw.Finite? && raw.value >= 0.0 then raw.value.Floor else 0
  }

  /** What goes wrong while one delivery is handled; None means it does not throw. */
  datatype Luck = Luck(early: Option<bool>, work: Option<bool>, mark: Option<bool>, losesMarkFailed: bool,
                       reply: Republish)

  function Catch(cfg: Config, s: System, i: nat, luck: Luck): System {
    Next(cfg, Next(cfg, s, if luck.losesMarkFailed then LoseMarkFailed(i) else MarkFailed(i)), Settle(i, luck.reply))
  }

  function AfterDispatch(cfg: Config, s: System, i: nat, luck: Luck): System {
    if luck.mark.Some? then Catch(cfg, Next(cfg, s, ThrowWork(i, luck.mark.value)), i, luck)
    else
      var marked := Next(cfg, s, MarkCompleted(i));
      if i < |marked.copies| && marked.copies[i].handling == Marked then Next(cfg, marked, Ack(i))
      else Catch(cfg, marked, i, luck)
  }

  function AfterClaim(cfg: Config, s: System, i: nat, luck: Luck): System {
    if luck.work.Some? then Catch(cfg, Next(cfg, s, ThrowWork(i, luck.work.value)), i, luck)
    else AfterDispatch(cfg, Next(cfg, s, Dispatch(i)), i, luck)
  }

  /** The steps of one delivery, each a step of the machine. */
  function Handle(cfg: Config, s: System, i: nat, luck: Luck): System {
    var received := Next(cfg, s, Deliver(i));
    if luck.early.Some? then Next(cfg, Next(cfg, received, ThrowEarly(i, luck.early.value)), Settle(i, luck.reply))
    else
      var claimed := Next(cfg, received, Claim(i));
      if i < |claimed.copies| && claimed.copies[i].handling.Working? then AfterClaim(cfg, claimed, i, luck) else claimed
  }

  // ---------- how a delivery ends ----------

  /** The consumer has completed this message, or somebody claimed it no longer than the TTL ago. */
  predicate Taken(cfg: Config, s: System, key: RowKey) {
    key in s.rows && (s.rows[key].status == Completed ||
                      (s.rows[key].status == RowStatus.Claimed && s.now <= s.rows[key].claimedAt + cfg.claimTtlMs))
  }

  /** An undisturbed delivery of a message nobody has taken dispatches it once and completes its row. */
  lemma SmoothDelivery(cfg: Config, s: System, i: nat, luck: Luck)
    requires i < |s.copies| && s.copies[i].handling == Queued && !Taken(cfg, s, KeyOf(s.copies[i]))
    requires luck.early.None? && luck.work.None? && luck.mark.None?
    ensures Handle(cfg, s, i, luck) ==
            s.(copies := s.copies[i := s.copies[i].(handling := Acked)],
               rows := s.rows[KeyOf(s.copies[i]) := Row(Completed, s.now)],
               dispatched := s.dispatched + [KeyOf(s.copies[i])])
  {
    var key := KeyOf(s.copies[i]);
    var claimed := s.rows[key := Row(RowStatus.Claimed, s.now)];
    assert claimed[key := Row(Completed, s.now)] == s.rows[key := Row(Completed, s.now)];
  }

  /** A delivery of a taken message is acknowledged and changes nothing else. */
  lemma DuplicateIsAcked(cfg: Config, s: System, i: nat, luck: Luck)
    requires i < |s.copies| && s.copies[i].handling == Queued && Taken(cfg, s, KeyOf(s.copies[i]))
    requires luck.early.None?
    ensures Handle(cfg, s, i, luck) == s.(copies := s.copies[i := s.copies[i].(handling := Acked)])
  {
  }

  /** The error a delivery's catch block gets, if it gets one: before or in the claim, or, where the claim
      succeeds, from the dispatch or the completing update. Whether it is transient. */
  function Thrown(cfg: Config, s: System, i: nat, luck: Luck): Option<bool>
    requires i < |s.copies|
  {
    if luck.early.Some? then luck.early
    else if Taken(cfg, s, KeyOf(s.copies[i])) then None
    else if luck.work.Some? then luck.work
    else luck.mark
  }

  /** What a retry publishes: one copy for each queue bound to the type, one attempt further. */
  function Again(copy: Copy): seq<Copy> {
    seq(|Routes(copy.eventType)|, q requires 0 <= q < |Routes(copy.eventType)| =>
      Copy(Routes(copy.eventType)[q], copy.messageId, copy.eventType, copy.attempts + 1, Queued))
  }

  lemma FreshIsAgain(copy: Copy)
    ensures Fresh(copy.messageId, copy.eventType, copy.attempts + 1) == Again(copy)
  {
  }

  lemma SettleEnds(cfg: Config, s: System, i: nat, reply: Republish)
    requires i < |s.copies| && s.copies[i].handling.Settling?
    ensures var t, copy := Next(cfg, s, Settle(i, reply)), s.copies[i];
      && t == s.(copies := t.copies)
      && t.copies == if !copy.handling.transient || copy.attempts >= cfg.maxRetries then With(s, i, DeadLettered)
                     else match reply
                       case Sent => With(s, i, Acked) + Again(copy)
                       case Unsent => With(s, i, DeadLettered)
                       case SentButRefused => With(s, i, DeadLettered) + Again(copy)
  {
    FreshIsAgain(s.copies[i]);
  }

  /** A permanent error, and a transient one whose attempts are used up, dead-letters the copy and publishes
      nothing. A transient one with attempts left is acknowledged if its retry was sent, and dead-lettered if not. */
  lemma ErrorsEnd(cfg: Config, s: System, i: nat, luck: Luck)
    requires i < |s.copies| && s.copies[i].handling == Queued && Thrown(cfg, s, i, luck).Some?
    ensures var copies, copy := Handle(cfg, s, i, luck).copies, s.copies[i];
      var acked, dead := s.copies[i := copy.(handling := Acked)], s.copies[i := copy.(handling := DeadLettered)];
      if Thrown(cfg, s, i, luck) == Some(false) || copy.attempts >= cfg.maxRetries then copies == dead
      else match luck.reply
        case Sent => copies == acked + Again(copy)
        case Unsent => copies == dead
        case SentButRefused => copies == dead + Again(copy)
  {
    ErrorsSettle(cfg, s, i, luck);
    var settling := Settled(cfg, s, i, luck);
    SettleEnds(cfg, settling, i, luck.reply);
    assert With(settling, i, Acked) == With(s, i, Acked);
    assert With(settling, i, DeadLettered) == With(s, i, DeadLettered);
  }

  /** Before the end of the catch block: the row is marked, and the copy is up for retry or nack. */
  function Settled(cfg: Config, s: System, i: nat, luck: Luck): System
    requires i < |s.copies| && Thrown(cfg, s, i, luck).Some?
  {
    var key := KeyOf(s.copies[i]);
    s.(copies := With(s, i, Settling(Thrown(cfg, s, i, luck).value)),
       rows := if luck.early.Some? then s.rows
               else s.rows[key := Row(if luck.losesMarkFailed then RowStatus.Claimed else Failed, s.now)],
       dispatched := if luck.early.Some? || luck.work.Some? then s.dispatched else s.dispatched + [key])
  }

  function With(s: System, i: nat, handling: Handling): seq<Copy>
    requires i < |s.copies|
  {
    s.copies[i := s.copies[i].(handling := handling)]
  }

  /** The claim of a message nobody has taken. */
  lemma ClaimSucceeds(cfg: Config, s: System, i: nat)
    requires i < |s.copies| && s.copies[i].handling == Queued && !Taken(cfg, s, KeyOf(s.copies[i]))
    ensures Next(cfg, Next(cfg, s, Deliver(i)), Claim(i)) ==
            s.(copies := With(s, i, Working(s.now)),
               rows := s.rows[KeyOf(s.copies[i]) := Row(RowStatus.Claimed, s.now)])
  {
  }

  /** The catch block of a claimed delivery, up to its end. */
  lemma CatchSettles(cfg: Config, s: System, i: nat, luck: Luck)
    requires i < |s.copies| && s.copies[i].handling.Failing? && KeyOf(s.copies[i]) in s.rows
    ensures var key := KeyOf(s.copies[i]);
      Catch(cfg, s, i, luck) ==
      Next(cfg, s.(copies := With(s, i, Settling(s.copies[i].handling.transient)),
                   rows := if luck.losesMarkFailed then s.rows else s.rows[key := s.rows[key].(status := Failed)]),
           Settle(i, luck.reply))
  {
  }

  /** From the claim to the end of the catch block. */
  lemma WorkSettles(cfg: Config, s: System, i: nat, luck: Luck)
    requires i < |s.copies| && s.copies[i].handling.Working? && CanComplete(s.rows, KeyOf(s.copies[i]))
    requires luck.work.Some? || luck.mark.Some?
    ensures var key := KeyOf(s.copies[i]);
      AfterClaim(cfg, s, i, luck) ==
      Next(cfg, s.(copies := With(s, i, Settling(if luck.work.Some? then luck.work.value else luck.mark.value)),
                   rows := if luck.losesMarkFailed then s.rows else s.rows[key := s.rows[key].(status := Failed)],
                   dispatched := if luck.work.Some? then s.dispatched else s.dispatched + [key]),
           Settle(i, luck.reply))
  {
    var claimedAt := s.copies[i].handling.claimedAt;
    if luck.work.Some? {
      var failing := Next(cfg, s, ThrowWork(i, luck.work.value));
      CatchSettles(cfg, failing, i, luck);
      assert With(failing, i, Settling(luck.work.value)) == With(s, i, Settling(luck.work.value));
    } else {
      var sent := Next(cfg, s, Dispatch(i));
      var failing := Next(cfg, sent, ThrowWork(i, luck.mark.value));
      CatchSettles(cfg, failing, i, luck);
      assert With(failing, i, Settling(luck.mark.value)) == With(s, i, Settling(luck.mark.value));
    }
  }

  /** Up to the end of the catch block. */
  lemma ErrorsSettle(cfg: Config, s: System, i: nat, luck: Luck)
    requires i < |s.copies| && s.copies[i].handling == Queued && Thrown(cfg, s, i, luck).Some?
    ensures Handle(cfg, s, i, luck) == Next(cfg, Settled(cfg, s, i, luck), Settle(i, luck.reply))
  {
    var key, transient := KeyOf(s.copies[i]), Thrown(cfg, s, i, luck).value;
    if luck.early.Some? {
      var received := Next(cfg, s, Deliver(i));
      assert With(received, i, Settling(transient)) == With(s, i, Settling(transient));
    } else {
      ClaimSucceeds(cfg, s, i);
      var claimed := Next(cfg, Next(cfg, s, Deliver(i)), Claim(i));
      WorkSettles(cfg, claimed, i, luck);
      assert With(claimed, i, Settling(transient)) == With(s, i, Settling(transient));
      assert claimed.rows[key := Row(Failed, s.now)] == s.rows[key := Row(Failed, s.now)];
    }
  }

  /** After an error the row is FAILED, unless that update was lost, and untouched if nothing was claimed; the
      message was dispatched exactly if it was the completing update that failed. */
  lemma ErrorsLeave(cfg: Config, s: System, i: nat, luck: Luck)
    requires i < |s.copies| && s.copies[i].handling == Queued && Thrown(cfg, s, i, luck).Some?
    ensures var t, key := Handle(cfg, s, i, luck), KeyOf(s.copies[i]);
      && t.now == s.now && t.publishes == s.publishes
      && t.rows == (if luck.early.Some? then s.rows
                    else s.rows[key := Row(if luck.losesMarkFailed then RowStatus.Claimed else Failed, s.now)])
      && t.dispatched == (if luck.early.Some? || luck.work.Some? then s.dispatched else s.dispatched + [key])
  {
    ErrorsSettle(cfg, s, i, luck);
    SettleEnds(cfg, Settled(cfg, s, i, luck), i, luck.reply);
  }

  /** The end of a dispatch, whatever has become of the row meanwhile: it is completed only if it is still CLAIMED.
      Otherwise, as after a takeover that completed or failed it, this handler fails too, as for a transient error. */
  lemma CompletionEnds(cfg: Config, s: System, i: nat, luck: Luck)
    requires i < |s.copies| && s.copies[i].handling.Dispatched? && luck.mark.None?
    ensures var t, key := AfterDispatch(cfg, s, i, luck), KeyOf(s.copies[i]);
      if key in s.rows && s.rows[key].status == RowStatus.Claimed
      then t == s.(copies := s.copies[i := s.copies[i].(handling := Acked)],
                   rows := s.rows[key := s.rows[key].(status := Completed)])
      else
        && t.rows == (if key in s.rows && !luck.losesMarkFailed then s.rows[key := s.rows[key].(status := Failed)]
                      else s.rows)
        && i < |t.copies| && t.dispatched == s.dispatched
        && t.copies[i].handling == (if s.copies[i].attempts < cfg.maxRetries && luck.reply == Sent then Acked
                                    else DeadLettered)
  {
  }

  // ---------- metrics ----------

  datatype Metrics = Metrics(consumed: nat, duplicates: nat, requeued: nat, nacked: nat)

  /** An error counts as requeued if its retry was sent, and as nacked if not. */
  function CountError(cfg: Config, attempts: nat, transient: bool, reply: Republish, m: Metrics): Metrics {
    if transient && attempts < cfg.maxRetries && reply == Sent then m.(requeued := m.requeued + 1)
    else m.(nacked := m.nacked + 1)
  }

  function CountEnd(cfg: Config, attempts: nat, error: Option<bool>, reply: Republish, m: Metrics): Metrics {
    if error.None? then m.(consumed := m.consumed + 1) else CountError(cfg, attempts, error.value, reply, m)
  }

  function CountDelivery(cfg: Config, s: System, i: nat, luck: Luck, m: Metrics): Metrics
    requires i < |s.copies|
  {
    if luck.early.None? && Taken(cfg, s, KeyOf(s.copies[i])) then m.(duplicates := m.duplicates + 1)
    else CountEnd(cfg, s.copies[i].attempts, Thrown(cfg, s, i, luck), luck.reply, m)
  }

  /** The metric that moves tells how the delivery ended: requeued exactly if it was acknowledged beside a retry,
      nacked exactly if it was dead-lettered, consumed exactly if its row was completed by it. */
  lemma MetricsTell(cfg: Config, s: System, i: nat, luck: Luck, m: Metrics)
    requires i < |s.copies| && s.copies[i].handling == Queued
    ensures var t, n := Handle(cfg, s, i, luck), CountDelivery(cfg, s, i, luck, m);
      var sum := n.consumed + n.duplicates + n.requeued + n.nacked;
      && sum == m.consumed + m.duplicates + m.requeued + m.nacked + 1
      && i < |t.copies|
      && (n.nacked > m.nacked <==> t.copies[i].handling == DeadLettered)
      && (n.requeued > m.requeued <==> t.copies[i].handling == Acked && |t.copies| > |s.copies|)
      && (n.consumed > m.consumed <==>
            t.copies[i].handling == Acked && |t.copies| == |s.copies| && t.dispatched != s.dispatched)
  {
    if Thrown(cfg, s, i, luck).Some? {
      ErrorsEnd(cfg, s, i, luck);
    } else if Taken(cfg, s, KeyOf(s.copies[i])) {
      DuplicateIsAcked(cfg, s, i, luck);
    } else {
      SmoothDelivery(cfg, s, i, luck);
    }
  }

  /** ProcessedMessageRepository and EmailProcessedMessageRepository: one table, two consumer names. */
  class ProcessedMessages {
    var rows: map<RowKey, Row>

    constructor ()
      ensures rows == map[]
    {
      rows := map[];
    }

    method Claim(cfg: Config, key: RowKey, now: Millis) returns (claimed: bool)
      modifies this
      ensures claimed == CanClaim(cfg, old(rows), key, now)
      ensures rows == ClaimRow(cfg, old(rows), key, now)
    {
      if key !in rows {
        rows := rows[key := Row(RowStatus.Claimed, now)];
        return true;
      }
      var row := rows[key];
      if row.status == Failed || (row.status == RowStatus.Claimed && row.claimedAt + cfg.claimTtlMs < now) {
        rows := rows[key := Row(RowStatus.Claimed, now)];
        return true;
      }
      claimed := false;
    }

    /** Answers how many rows the update touched; anything but one makes the caller throw. */
    method MarkCompleted(key: RowKey) returns (updated: nat)
      modifies this
      ensures updated == if CanComplete(old(rows), key) then 1 else 0
      ensures rows == CompleteRow(old(rows), key)
    {
      updated := 0;
      if key in rows && rows[key].status == RowStatus.Claimed {
        rows := rows[key := rows[key].(status := Completed)];
        updated := 1;
      }
    }

    method MarkFailed(key: RowKey)
      modifies this
      ensures rows == FailRow(old(rows), key)
    {
      if key in rows {
        rows := rows[key := rows[key].(status := Failed)];
      }
    }
  }

  class Handler {
    const cfg: Config
    const table: ProcessedMessages
    var now: Millis
    var copies: seq<Copy>
    var dispatched: seq<RowKey>
    var publishes: nat
    var metrics: Metrics

    constructor (cfg: Config, table: ProcessedMessages)
      requires table.rows == map[]
      ensures this.cfg == cfg && this.table == table && State() == EMPTY
    {
      this.cfg, this.table := cfg, table;
      now, copies, dispatched, publishes := 0, [], [], 0;
      metrics := Metrics(0, 0, 0, 0);
    }

    function State(): System
      reads this, table
    {
      System(now, copies, table.rows, dispatched, publishes)
    }

    method SetHandling(i: nat, handling: Handling)
      requires i < |copies|
      modifies this`copies
      ensures copies == old(copies)[i := old(copies)[i].(handling := handling)]
    {
      copies := copies[i := copies[i].(handling := handling)];
    }

    /** Republish and ack, or nack. */
    method EndOfCatch(i: nat, reply: Republish)
      requires i < |copies| && copies[i].handling.Settling?
      modifies this`copies, this`metrics
      ensures State() == Next(cfg, old(State()), Settle(i, reply))
      ensures metrics ==
              CountError(cfg, old(copies[i].attempts), old(copies[i].handling.transient), reply, old(metrics))
    {
      var copy := copies[i];
      var nextAttempts := copy.attempts + 1;
      if copy.handling.transient && nextAttempts <= cfg.maxRetries {
        var again := if reply == Unsent then [] else Fresh(copy.messageId, copy.eventType, nextAttempts);
        if reply == Sent {
          metrics := metrics.(requeued := metrics.requeued + 1);
          SetHandling(i, Acked);
          copies := copies + again;
          return;
        }
        metrics := metrics.(nacked := metrics.nacked + 1);
        SetHandling(i, DeadLettered);
        copies := copies + again;
        return;
      }
      metrics := metrics.(nacked := metrics.nacked + 1);
      SetHandling(i, DeadLettered);
    }

    method CatchClaimed(i: nat, luck: Luck)
      requires i < |copies| && copies[i].handling.Failing?
      modifies this`copies, this`metrics, table
      ensures State() == Catch(cfg, old(State()), i, luck)
      ensures metrics ==
              CountError(cfg, old(copies[i].attempts), old(copies[i].handling.transient), luck.reply, old(metrics))
    {
      var key := KeyOf(copies[i]);
      if !luck.losesMarkFailed {
        table.MarkFailed(key);
      }
      SetHandling(i, Settling(copies[i].handling.transient));
      EndOfCatch(i, luck.reply);
    }

    /** The completing update and the ack, or the catch block. */
    method CompleteAndAck(i: nat, luck: Luck)
      requires i < |copies| && copies[i].handling.Dispatched?
      modifies this, table
      ensures State() == AfterDispatch(cfg, old(State()), i, luck)
      ensures var error := if luck.mark.Some? then luck.mark
                           else if old(CanComplete(table.rows, KeyOf(copies[i]))) then None else Some(true);
        metrics == CountEnd(cfg, old(copies[i].attempts), error, luck.reply, old(metrics))
    {
      var claimedAt := copies[i].handling.claimedAt;
      if luck.mark.Some? {
        SetHandling(i, Failing(claimedAt, luck.mark.value));
        CatchClaimed(i, luck);
        return;
      }
      var updated := table.MarkCompleted(KeyOf(copies[i]));
      if updated != 1 {
        SetHandling(i, Failing(claimedAt, true));
        CatchClaimed(i, luck);
        return;
      }
      SetHandling(i, Marked);
      metrics := metrics.(consumed := metrics.consumed + 1);
      SetHandling(i, Acked);
    }

    /** From the claim on. */
    method DispatchAndComplete(i: nat, luck: Luck)
      requires i < |copies| && copies[i].handling.Working? && CanComplete(table.rows, KeyOf(copies[i]))
      modifies this, table
      ensures State() == AfterClaim(cfg, old(State()), i, luck)
      ensures var error := if luck.work.Some? then luck.work else luck.mark;
        metrics == CountEnd(cfg, old(copies[i].attempts), error, luck.reply, old(metrics))
    {
      var claimedAt := copies[i].handling.claimedAt;
      if luck.work.Some? {
        SetHandling(i, Failing(claimedAt, luck.work.value));
        CatchClaimed(i, luck);
        return;
      }
      dispatched := dispatched + [KeyOf(copies[i])];
      SetHandling(i, Dispatched(claimedAt));
      CompleteAndAck(i, luck);
    }

    /** The claim, or the ack of a duplicate. */
    method ClaimMessage(i: nat) returns (claimed: bool)
      requires i < |copies| && copies[i].handling == Received
      modifies this`copies, this`metrics, table
      ensures State() == Next(cfg, old(State()), Claim(i))
      ensures |copies| == |old(copies)| && copies[i] == old(copies[i]).(handling := copies[i].handling)
      ensures claimed == !Taken(cfg, old(State()), KeyOf(old(copies[i])))
      ensures claimed ==> copies[i].handling.Working? && CanComplete(table.rows, KeyOf(copies[i]))
      ensures metrics == if claimed then old(metrics) else old(metrics).(duplicates := old(metrics).duplicates + 1)
    {
      claimed := table.Claim(cfg, KeyOf(copies[i]), now);
      if claimed {
        SetHandling(i, Working(now));
      } else {
        metrics := metrics.(duplicates := metrics.duplicates + 1);
        SetHandling(i, Acked);
      }
    }

    /** One delivery: the system ends up where the machine's steps take it, and the one metric that names how
        it ended counts it. */
    method HandleMessage(i: nat, luck: Luck)
      requires i < |copies| && copies[i].handling == Queued
      modifies this, table
      ensures State() == Handle(cfg, old(State()), i, luck)
      ensures metrics == CountDelivery(cfg, old(State()), i, luck, old(metrics))
    {
      ghost var s := State();
      SetHandling(i, Received);
      assert State() == Next(cfg, s, Deliver(i));
      if luck.early.Some? {
        SetHandling(i, Settling(luck.early.value));
        EndOfCatch(i, luck.reply);
        return;
      }
      var claimed := ClaimMessage(i);
      assert claimed == !Taken(cfg, s, KeyOf(s.copies[i])) && copies[i].attempts == s.copies[i].attempts;
      if claimed {
        DispatchAndComplete(i, luck);
      }
    }
  }
}
