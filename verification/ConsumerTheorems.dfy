/** Deduplication, what keeps a message accounted for, and the bound on retry fan-out, over all runs. */
module ConsumerTheorems {
  import opened Prelude
  import opened ConsumerMachine

  // ---------- what the deployment has to grant ----------

  /** Between its claim and its mark. */
  predicate Holding(copy: Copy) {
    copy.handling.Working? || copy.handling.Dispatched? || copy.handling.Failing?
  }

  /** Time never passes a claim's TTL while its handler is between claim and mark. */
  ghost predicate Timely(cfg: Config, s: System, a: Action) {
    a.Tick? ==> forall i :: 0 <= i < |s.copies| && Holding(s.copies[i]) ==>
                  s.now + a.ms <= s.copies[i].handling.claimedAt + cfg.claimTtlMs
  }

  ghost predicate TimelyRun(cfg: Config, s: System, actions: seq<Action>) {
    forall k :: 0 <= k < |actions| ==> Timely(cfg, Run(cfg, s, actions[..k]), actions[k])
  }

  /** Every FAILED update goes through. */
  ghost predicate Faithful(actions: seq<Action>) {
    forall k :: 0 <= k < |actions| ==> !actions[k].LoseMarkFailed?
  }

  lemma TimelyPrefix(cfg: Config, s: System, actions: seq<Action>)
    requires TimelyRun(cfg, s, actions) && |actions| > 0
    ensures TimelyRun(cfg, s, actions[..|actions| - 1])
    ensures Timely(cfg, Run(cfg, s, actions[..|actions| - 1]), actions[|actions| - 1])
  {
    var front := actions[..|actions| - 1];
    forall k | 0 <= k < |front| ensures Timely(cfg, Run(cfg, s, front[..k]), front[k]) {
      assert front[..k] == actions[..k];
      assert Timely(cfg, Run(cfg, s, actions[..k]), actions[k]);
    }
    assert Timely(cfg, Run(cfg, s, actions[..|actions| - 1]), actions[|actions| - 1]);
  }

  // ---------- deduplication ----------

  /** Who holds a claim is the one its row names, in time, and alone; a marked copy has its row completed. */
  ghost predicate DedupInv(cfg: Config, s: System) {
    && (forall i :: 0 <= i < |s.copies| && Holding(s.copies[i]) ==>
          && KeyOf(s.copies[i]) in s.rows
          && s.rows[KeyOf(s.copies[i])] == Row(Claimed, s.copies[i].handling.claimedAt)
          && s.now <= s.copies[i].handling.claimedAt + cfg.claimTtlMs)
    && (forall i, j :: 0 <= i < j < |s.copies| && Holding(s.copies[i]) && Holding(s.copies[j]) ==>
          KeyOf(s.copies[i]) != KeyOf(s.copies[j]))
    && (forall i :: 0 <= i < |s.copies| && s.copies[i].handling == Marked ==>
          KeyOf(s.copies[i]) in s.rows && s.rows[KeyOf(s.copies[i])].status == Completed)
  }

  lemma NextDedup(cfg: Config, s: System, a: Action)
    requires DedupInv(cfg, s) && Timely(cfg, s, a)
    ensures DedupInv(cfg, Next(cfg, s, a))
  {
    if !a.Publish? && !a.Tick? && a.copy < |s.copies| {
      StepDedup(cfg, s, a);
    }
  }

  /** What a step on copy i leaves alone: other copies and the clock; what it appends is queued. */
  ghost predicate Frame(s: System, t: System, i: nat) {
    && i < |s.copies| <= |t.copies| && t.now == s.now
    && t.copies[i] == s.copies[i].(handling := t.copies[i].handling)
    && (forall j :: 0 <= j < |s.copies| && j != i ==> t.copies[j] == s.copies[j])
    && (forall j :: |s.copies| <= j < |t.copies| ==>
          t.copies[j].handling == Queued && t.copies[j].consumer in Routes(t.copies[j].eventType))
  }

  lemma StepFrame(cfg: Config, s: System, a: Action)
    requires !a.Publish? && !a.Tick? && a.copy < |s.copies|
    ensures Frame(s, StepCopy(cfg, s, a), a.copy)
  {
  }

  lemma StepRows(cfg: Config, s: System, a: Action)
    requires !a.Publish? && !a.Tick? && a.copy < |s.copies|
    ensures var t := StepCopy(cfg, s, a);
      && SameElsewhere(s.rows, t.rows, KeyOf(s.copies[a.copy]))
      && (t.rows == s.rows || Holding(s.copies[a.copy]) || Holding(t.copies[a.copy]))
  {
  }

  ghost predicate SameElsewhere(rows: map<RowKey, Row>, after: map<RowKey, Row>, key: RowKey) {
    forall other :: other != key ==>
      (other in after <==> other in rows) && (other in rows ==> after[other] == rows[other])
  }

  /** The part of the invariant that a step on copy i could break. */
  ghost predicate MoverInv(cfg: Config, s: System, t: System, i: nat)
    requires i < |s.copies| <= |t.copies|
  {
    var key := KeyOf(s.copies[i]);
    && (Holding(t.copies[i]) ==>
          && key in t.rows && t.rows[key] == Row(Claimed, t.copies[i].handling.claimedAt)
          && t.now <= t.copies[i].handling.claimedAt + cfg.claimTtlMs)
    && (t.copies[i].handling == Marked ==> key in t.rows && t.rows[key].status == Completed)
    && (forall j :: 0 <= j < |s.copies| && j != i && KeyOf(s.copies[j]) == key && Holding(s.copies[j]) ==>
          !Holding(t.copies[i]) && t.rows == s.rows)
    && (forall j :: 0 <= j < |s.copies| && j != i && KeyOf(s.copies[j]) == key && s.copies[j].handling == Marked ==>
          t.rows == s.rows)
  }

  lemma MoverKeepsDedup(cfg: Config, s: System, t: System, i: nat)
    requires DedupInv(cfg, s) && Frame(s, t, i) && SameElsewhere(s.rows, t.rows, KeyOf(s.copies[i]))
    requires MoverInv(cfg, s, t, i)
    ensures DedupInv(cfg, t)
  {
    assert forall j :: 0 <= j < |t.copies| && (Holding(t.copies[j]) || t.copies[j].handling == Marked) ==>
                         j < |s.copies|;
  }

  /** The holder of a row has it to itself and keeps or completes it. */
  lemma HolderMoves(cfg: Config, s: System, a: Action)
    requires DedupInv(cfg, s) && !a.Publish? && !a.Tick? && a.copy < |s.copies| && Holding(s.copies[a.copy])
    ensures |s.copies| <= |StepCopy(cfg, s, a).copies| && MoverInv(cfg, s, StepCopy(cfg, s, a), a.copy)
  {
    StepFrame(cfg, s, a);
    var copy := s.copies[a.copy];
    assert s.rows[KeyOf(copy)] == Row(Claimed, copy.handling.claimedAt);
  }

  /** A copy that holds nothing changes a row only by claiming it, and then nobody else held it. */
  lemma OutsiderMoves(cfg: Config, s: System, a: Action)
    requires DedupInv(cfg, s) && !a.Publish? && !a.Tick? && a.copy < |s.copies| && !Holding(s.copies[a.copy])
    ensures |s.copies| <= |StepCopy(cfg, s, a).copies| && MoverInv(cfg, s, StepCopy(cfg, s, a), a.copy)
  {
    StepFrame(cfg, s, a);
    StepRows(cfg, s, a);
  }

  lemma MoverIsFine(cfg: Config, s: System, a: Action)
    requires DedupInv(cfg, s) && !a.Publish? && !a.Tick? && a.copy < |s.copies|
    ensures |s.copies| <= |StepCopy(cfg, s, a).copies| && MoverInv(cfg, s, StepCopy(cfg, s, a), a.copy)
  {
    if Holding(s.copies[a.copy]) {
      HolderMoves(cfg, s, a);
    } else {
      OutsiderMoves(cfg, s, a);
    }
  }

  lemma StepDedup(cfg: Config, s: System, a: Action)
    requires DedupInv(cfg, s) && !a.Publish? && !a.Tick? && a.copy < |s.copies|
    ensures DedupInv(cfg, StepCopy(cfg, s, a))
  {
    StepFrame(cfg, s, a);
    StepRows(cfg, s, a);
    MoverIsFine(cfg, s, a);
    MoverKeepsDedup(cfg, s, StepCopy(cfg, s, a), a.copy);
  }

  lemma {:induction false} RunDedup(cfg: Config, actions: seq<Action>)
    requires TimelyRun(cfg, EMPTY, actions)
    ensures DedupInv(cfg, Run(cfg, EMPTY, actions))
  {
    if |actions| > 0 {
      TimelyPrefix(cfg, EMPTY, actions);
      RunDedup(cfg, actions[..|actions| - 1]);
      NextDedup(cfg, Run(cfg, EMPTY, actions[..|actions| - 1]), actions[|actions| - 1]);
    }
  }

  /** At most one handler per (consumer, message) sits between claim and mark. */
  lemma OneHandlerAtATime(cfg: Config, actions: seq<Action>, i: nat, j: nat)
    requires TimelyRun(cfg, EMPTY, actions)
    requires var s := Run(cfg, EMPTY, actions);
      i < |s.copies| && j < |s.copies| && Holding(s.copies[i]) && Holding(s.copies[j]) &&
      KeyOf(s.copies[i]) == KeyOf(s.copies[j])
    ensures i == j
  {
    RunDedup(cfg, actions);
  }

  function CountKey(log: seq<RowKey>, key: RowKey): nat {
    if |log| == 0 then 0 else CountKey(log[..|log| - 1], key) + (if log[|log| - 1] == key then 1 else 0)
  }

  predicate IsCompleted(s: System, key: RowKey) {
    key in s.rows && s.rows[key].status == Completed
  }

  /** A step on a copy of one consumer never touches the other consumer's rows. */
  lemma ConsumersAreApart(cfg: Config, s: System, a: Action, key: RowKey)
    requires a.Publish? || a.Tick? || a.copy >= |s.copies| || s.copies[a.copy].consumer != key.consumer
    ensures key in Next(cfg, s, a).rows <==> key in s.rows
    ensures key in s.rows ==> Next(cfg, s, a).rows[key] == s.rows[key]
  {
  }

  // ---------- conservation ----------

  /** Still in a queue, in a live handler or dead-lettered. */
  predicate InSight(copy: Copy) {
    copy.handling != Acked && copy.handling != Marked
  }

  ghost predicate Accounted(s: System, key: RowKey) {
    IsCompleted(s, key) || exists i :: 0 <= i < |s.copies| && KeyOf(s.copies[i]) == key && InSight(s.copies[i])
  }

  ghost predicate HasHolder(s: System, key: RowKey) {
    exists i :: 0 <= i < |s.copies| && KeyOf(s.copies[i]) == key && Holding(s.copies[i])
  }

  /** Completed rows stay completed and every copy but one stays where it was: what else was accounted for still is. */
  lemma AccountedElsewhere(s: System, t: System, i: nat, key: RowKey)
    requires i < |s.copies| <= |t.copies| && Accounted(s, key)
    requires forall j :: 0 <= j < |s.copies| && j != i ==> t.copies[j] == s.copies[j]
    requires IsCompleted(s, key) ==> IsCompleted(t, key)
    requires key != KeyOf(s.copies[i])
    ensures Accounted(t, key)
  {
    if !IsCompleted(s, key) {
      var j :| 0 <= j < |s.copies| && KeyOf(s.copies[j]) == key && InSight(s.copies[j]);
      assert t.copies[j] == s.copies[j];
    }
  }

  /** A republish always reaches the queue it came from. */
  lemma RepublishComesBack(cfg: Config, s: System, i: nat)
    requires i < |s.copies| && s.copies[i].consumer in Routes(s.copies[i].eventType) && Retries(cfg, s.copies[i])
    ensures Accounted(SettleCopy(cfg, s, i, Sent), KeyOf(s.copies[i]))
  {
    var t := SettleCopy(cfg, s, i, Sent);
    var copy := s.copies[i];
    var n := |s.copies|;
    assert t.copies[n] == Copy(Audit, copy.messageId, copy.eventType, copy.attempts + 1, Queued);
    if copy.consumer == Email {
      assert t.copies[n + 1] == Copy(Email, copy.messageId, copy.eventType, copy.attempts + 1, Queued);
    }
  }

  // ---------- fan-out ----------

  predicate Ended(copy: Copy) {
    copy.handling == Acked || copy.handling == DeadLettered
  }

  /** One for a finished handling; for a live copy, everything it can still cause. */
  function Charge(cfg: Config, copy: Copy): int {
    if Ended(copy) then 1
    else if copy.attempts <= cfg.maxRetries then Pow2(cfg.maxRetries + 1 - copy.attempts) - 1 else 1
  }

  function TotalCharge(cfg: Config, copies: seq<Copy>): int {
    if |copies| == 0 then 0 else TotalCharge(cfg, copies[..|copies| - 1]) + Charge(cfg, copies[|copies| - 1])
  }

  lemma {:induction false} ChargeUpdate(cfg: Config, copies: seq<Copy>, i: nat, copy: Copy)
    requires i < |copies|
    ensures TotalCharge(cfg, copies[i := copy]) == TotalCharge(cfg, copies) - Charge(cfg, copies[i]) + Charge(cfg, copy)
  {
    var last := |copies| - 1;
    if i < last {
      ChargeUpdate(cfg, copies[..last], i, copy);
      assert copies[i := copy][..last] == copies[..last][i := copy];
    } else {
      assert copies[i := copy][..last] == copies[..last];
    }
  }

  lemma ChargeAppend(cfg: Config, copies: seq<Copy>, id: MessageId, eventType: EventType, attempts: nat)
    requires attempts <= cfg.maxRetries
    ensures TotalCharge(cfg, copies + Fresh(id, eventType, attempts))
         <= TotalCharge(cfg, copies) + 2 * (Pow2(cfg.maxRetries + 1 - attempts) - 1)
  {
    var all := copies + Fresh(id, eventType, attempts);
    PowPositive(cfg.maxRetries + 1 - attempts);
    assert all[..|copies|] == copies;
    if eventType.OtherType? {
      assert all[..|all| - 1] == copies;
    } else {
      assert all[..|all| - 1] == copies + [Copy(Audit, id, eventType, attempts, Queued)];
      assert all[..|all| - 1][..|copies|] == copies;
    }
  }

  ghost predicate Modest(cfg: Config, copies: seq<Copy>) {
    forall i :: 0 <= i < |copies| ==> copies[i].attempts <= cfg.maxRetries
  }

  ghost predicate FanoutInv(cfg: Config, s: System) {
    && Modest(cfg, s.copies)
    && TotalCharge(cfg, s.copies) <= Budget(cfg, s.publishes)
  }

  /** n × (2^(maxRetries+2) − 2), by addition. */
  function Budget(cfg: Config, publishes: nat): int {
    if publishes == 0 then 0 else Budget(cfg, publishes - 1) + 2 * (Pow2(cfg.maxRetries + 1) - 1)
  }

  lemma {:induction false} BudgetIsProduct(cfg: Config, publishes: nat)
    ensures Budget(cfg, publishes) == publishes * (Pow2(cfg.maxRetries + 2) - 2)
  {
    if publishes > 0 {
      BudgetIsProduct(cfg, publishes - 1);
      var unit := Pow2(cfg.maxRetries + 2) - 2;
      assert publishes * unit == (publishes - 1) * unit + unit;
    }
  }

  lemma ChargePositive(cfg: Config, copy: Copy)
    ensures Charge(cfg, copy) >= 1
  {
    if copy.attempts <= cfg.maxRetries {
      assert Pow2(cfg.maxRetries + 1 - copy.attempts) == 2 * Pow2(cfg.maxRetries - copy.attempts);
      PowPositive(cfg.maxRetries - copy.attempts);
    }
  }

  lemma {:induction false} PowPositive(n: nat)
    ensures Pow2(n) >= 1
  {
    if n > 0 {
      PowPositive(n - 1);
    }
  }

  /** Ending a copy pays one; if it fans out, its two successors together owe what it had left. */
  lemma ChargeSplits(cfg: Config, copy: Copy)
    requires copy.attempts <= cfg.maxRetries && !Ended(copy)
    ensures Charge(cfg, copy) >= 1
    ensures copy.attempts < cfg.maxRetries ==> Charge(cfg, copy) == 1 + 2 * (Pow2(cfg.maxRetries - copy.attempts) - 1)
  {
    ChargePositive(cfg, copy);
    assert Pow2(cfg.maxRetries + 1 - copy.attempts) == 2 * Pow2(cfg.maxRetries - copy.attempts);
  }

  lemma ReplaceAndFan(cfg: Config, copies: seq<Copy>, i: nat, end: Handling, fan: seq<Copy>)
    requires i < |copies| && Modest(cfg, copies) && !Ended(copies[i]) && (end == Acked || end == DeadLettered)
    requires fan == [] || (copies[i].attempts < cfg.maxRetries &&
                           fan == Fresh(copies[i].messageId, copies[i].eventType, copies[i].attempts + 1))
    ensures TotalCharge(cfg, copies[i := copies[i].(handling := end)] + fan) <= TotalCharge(cfg, copies)
  {
    var ended := copies[i := copies[i].(handling := end)];
    ChargeSplits(cfg, copies[i]);
    ChargeUpdate(cfg, copies, i, copies[i].(handling := end));
    if fan == [] {
      assert ended + fan == ended;
    } else {
      ChargeAppend(cfg, ended, copies[i].messageId, copies[i].eventType, copies[i].attempts + 1);
    }
  }

  lemma EndingKeepsFanout(cfg: Config, s: System, t: System, i: nat, end: Handling, fan: seq<Copy>)
    requires FanoutInv(cfg, s) && i < |s.copies| && !Ended(s.copies[i]) && (end == Acked || end == DeadLettered)
    requires fan == [] || (s.copies[i].attempts < cfg.maxRetries &&
                           fan == Fresh(s.copies[i].messageId, s.copies[i].eventType, s.copies[i].attempts + 1))
    requires t.copies == s.copies[i := s.copies[i].(handling := end)] + fan && t.publishes == s.publishes
    ensures FanoutInv(cfg, t)
  {
    ReplaceAndFan(cfg, s.copies, i, end, fan);
  }

  lemma SettleFanout(cfg: Config, s: System, i: nat, reply: Republish)
    requires FanoutInv(cfg, s) && i < |s.copies| && s.copies[i].handling.Settling?
    ensures FanoutInv(cfg, SettleCopy(cfg, s, i, reply))
  {
    var copy := s.copies[i];
    var t := SettleCopy(cfg, s, i, reply);
    if !Retries(cfg, copy) {
      EndingKeepsFanout(cfg, s, t, i, DeadLettered, []);
    } else {
      EndingKeepsFanout(cfg, s, t, i, if reply == Sent then Acked else DeadLettered,
                        if reply == Unsent then [] else Fresh(copy.messageId, copy.eventType, copy.attempts + 1));
    }
  }

  lemma MoveKeepsFanout(cfg: Config, s: System, t: System, i: nat)
    requires FanoutInv(cfg, s) && i < |s.copies| == |t.copies| && t.copies == s.copies[i := t.copies[i]]
    requires t.publishes == s.publishes && t.copies[i].attempts == s.copies[i].attempts
    requires Ended(t.copies[i]) || !Ended(s.copies[i])
    ensures FanoutInv(cfg, t)
  {
    ChargePositive(cfg, s.copies[i]);
    ChargeUpdate(cfg, s.copies, i, t.copies[i]);
  }

  lemma StepCharge(cfg: Config, s: System, a: Action)
    requires FanoutInv(cfg, s) && !a.Publish? && !a.Tick? && !a.Settle? && a.copy < |s.copies|
    ensures FanoutInv(cfg, StepCopy(cfg, s, a))
  {
    StepInPlace(cfg, s, a);
    MoveKeepsFanout(cfg, s, StepCopy(cfg, s, a), a.copy);
  }

  lemma StepInPlace(cfg: Config, s: System, a: Action)
    requires !a.Publish? && !a.Tick? && !a.Settle? && a.copy < |s.copies|
    ensures var t := StepCopy(cfg, s, a);
      && |t.copies| == |s.copies| && t.copies == s.copies[a.copy := t.copies[a.copy]]
      && t.publishes == s.publishes
      && t.copies[a.copy].attempts == s.copies[a.copy].attempts
      && (Ended(t.copies[a.copy]) || Ended(t.copies[a.copy]) == Ended(s.copies[a.copy]))
  {
    assert s.copies == s.copies[a.copy := s.copies[a.copy]];
  }

  lemma NextFanout(cfg: Config, s: System, a: Action)
    requires FanoutInv(cfg, s)
    ensures FanoutInv(cfg, Next(cfg, s, a))
  {
    if a.Publish? {
      ChargeAppend(cfg, s.copies, a.messageId, a.eventType, 0);
    } else if !a.Tick? && a.copy < |s.copies| {
      if !a.Settle? {
        StepCharge(cfg, s, a);
      } else if s.copies[a.copy].handling.Settling? {
        SettleFanout(cfg, s, a.copy, a.reply);
      }
    }
  }

  lemma {:induction false} CountBelowCharge(cfg: Config, copies: seq<Copy>)
    ensures |copies| <= TotalCharge(cfg, copies)
  {
    if |copies| > 0 {
      CountBelowCharge(cfg, copies[..|copies| - 1]);
      ChargePositive(cfg, copies[|copies| - 1]);
    }
  }

  lemma {:induction false} RunFanout(cfg: Config, actions: seq<Action>)
    ensures FanoutInv(cfg, Run(cfg, EMPTY, actions))
  {
    if |actions| > 0 {
      RunFanout(cfg, actions[..|actions| - 1]);
      NextFanout(cfg, Run(cfg, EMPTY, actions[..|actions| - 1]), actions[|actions| - 1]);
    }
  }

  /** Whatever fails and however often, n publishes cause at most n × (2^(maxRetries+2) − 2) copies,
      each of which is handled once. No assumption about time or lost updates is needed. */
  lemma FanoutIsBounded(cfg: Config, actions: seq<Action>)
    ensures |Run(cfg, EMPTY, actions).copies| <= Run(cfg, EMPTY, actions).publishes * (Pow2(cfg.maxRetries + 2) - 2)
  {
    RunFanout(cfg, actions);
    CountBelowCharge(cfg, Run(cfg, EMPTY, actions).copies);
    BudgetIsProduct(cfg, Run(cfg, EMPTY, actions).publishes);
  }
}
