/**
 The daily rule with its Redis keys updated in place, and the loops of FraudService: evaluation stops
 at the first rejecting rule, release goes through every rule that has one and swallows its errors.
 */
module FraudService {
  import opened Prelude
  import opened DailyLimit

  /** The daily limit rule, or a rule that keeps no reservation. The per-minute rule answers from what its
      counter says when the rule runs; None if Redis is down or the call fails. */
  datatype Rule =
    | SameAccount
    | AmountExceeded(name: string, threshold: nat)
    | TooManyInMinute(limit: nat, count: Option<nat>)
    | Daily(name: string, limit: nat)

  /** The rule lists of the module, in their order. */
  function WithdrawRules(threshold: nat, limit: nat): seq<Rule> {
    [AmountExceeded("WITHDRAW_AMOUNT_EXCEEDED", threshold), Daily("DAILY_WITHDRAW_LIMIT_EXCEEDED", limit)]
  }

  function TransferRules(threshold: nat, perMinute: nat, count: Option<nat>, limit: nat): seq<Rule> {
    [SameAccount, AmountExceeded("TRANSFER_AMOUNT_EXCEEDED", threshold), TooManyInMinute(perMinute, count),
     Daily("DAILY_TRANSFER_LIMIT_EXCEEDED", limit)]
  }

  /** `from` and `to` coincide only for a same-account transfer; a withdrawal has no destination. */
  datatype Input = Input(reference: Reference, from: nat, to: Option<nat>, amount: nat)

  /** When getUtcDayMeta ran and when the script ran. */
  datatype Clock = Clock(metaAt: Millis, now: Millis)

  /** One rule's verdict and the keys after it. */
  function Judge(rule: Rule, input: Input, store: Store, clock: Clock): (Option<string>, Store) {
    match rule
    case SameAccount => (if input.to == Some(input.from) then Some("SAME_ACCOUNT_TRANSFER") else None, store)
    case AmountExceeded(name, threshold) => (if input.amount > threshold then Some(name) else None, store)
    case TooManyInMinute(limit, count) =>
      (if count.Some? && count.value > limit then Some("TOO_MANY_TRANSFERS_IN_MINUTE") else None, store)
    case Daily(name, limit) =>
      var (allowed, after) := Reserve(store, limit, input.reference, input.amount, TtlSeconds(clock.metaAt), clock.now);
      (if allowed then None else Some(name), after)
  }

  function Evaluate(rules: seq<Rule>, input: Input, store: Store, clock: Clock): (Option<string>, Store) {
    if |rules| == 0 then (None, store)
    else
      var (verdict, after) := Judge(rules[0], input, store, clock);
      if verdict.Some? then (verdict, after) else Evaluate(rules[1..], input, after, clock)
  }

  /** With the daily rule last, as both rule lists have it: an approval has its reservation in the keys,
      and a rejection, whoever makes it, has reserved nothing. */
  lemma {:induction false} DailyRuleLast(rules: seq<Rule>, name: string, limit: nat, input: Input, store: Store,
                                         clock: Clock)
    requires forall i :: 0 <= i < |rules| ==> !rules[i].Daily?
    requires clock.metaAt <= clock.now < EndOfDay(DayOf(clock.metaAt)) && StoreInv(store, limit, DayOf(clock.metaAt))
    ensures var (verdict, after) := Evaluate(rules + [Daily(name, limit)], input, store, clock);
      && StoreInv(after, limit, DayOf(clock.metaAt))
      && (verdict.None? ==> input.reference in after.refs)
      && (verdict.Some? ==> after == store)
      && (verdict.None? <==>
            && (forall i :: 0 <= i < |rules| ==> Judge(rules[i], input, store, clock).0.None?)
            && (input.reference in store.refs || Sum(store.refs) + input.amount <= limit))
  {
    var all := rules + [Daily(name, limit)];
    if |rules| == 0 {
      ReserveKeeps(store, limit, input.reference, input.amount, clock.metaAt, clock.now);
      assert all[1..] == [];
    } else {
      assert all[0] == rules[0] && all[1..] == rules[1..] + [Daily(name, limit)];
      DailyRuleLast(rules[1..], name, limit, input, store, clock);
      assert forall i :: 0 < i < |rules| ==> rules[i] == rules[1..][i - 1];
    }
  }

  /** A withdrawal is approved exactly if its amount is within the threshold and it is reserved already or still
      fits the day; a rejection names the first rule it meets, and only an approval touches the keys. */
  lemma WithdrawVerdict(threshold: nat, limit: nat, input: Input, store: Store, clock: Clock)
    requires clock.metaAt <= clock.now < EndOfDay(DayOf(clock.metaAt)) && StoreInv(store, limit, DayOf(clock.metaAt))
    ensures var (verdict, after) := Evaluate(WithdrawRules(threshold, limit), input, store, clock);
      var fits := input.reference in store.refs || Sum(store.refs) + input.amount <= limit;
      && verdict == (if input.amount > threshold then Some("WITHDRAW_AMOUNT_EXCEEDED")
                     else if !fits then Some("DAILY_WITHDRAW_LIMIT_EXCEEDED")
                     else None)
      && (verdict.Some? ==> after == store)
      && (verdict.None? ==> input.reference in after.refs)
  {
    var rules := [AmountExceeded("WITHDRAW_AMOUNT_EXCEEDED", threshold)];
    assert WithdrawRules(threshold, limit) == rules + [Daily("DAILY_WITHDRAW_LIMIT_EXCEEDED", limit)];
    DailyRuleLast(rules, "DAILY_WITHDRAW_LIMIT_EXCEEDED", limit, input, store, clock);
    var last := WithdrawRules(threshold, limit)[1..];
    assert last == [Daily("DAILY_WITHDRAW_LIMIT_EXCEEDED", limit)] && last[1..] == [];
  }

  /** The same for a transfer, which must also name two accounts and not exceed the transfers of the minute. */
  lemma TransferVerdict(threshold: nat, perMinute: nat, count: Option<nat>, limit: nat, input: Input, store: Store,
                        clock: Clock)
    requires clock.metaAt <= clock.now < EndOfDay(DayOf(clock.metaAt)) && StoreInv(store, limit, DayOf(clock.metaAt))
    ensures var (verdict, after) := Evaluate(TransferRules(threshold, perMinute, count, limit), input, store, clock);
      var fits := input.reference in store.refs || Sum(store.refs) + input.amount <= limit;
      && verdict == (if input.to == Some(input.from) then Some("SAME_ACCOUNT_TRANSFER")
                     else if input.amount > threshold then Some("TRANSFER_AMOUNT_EXCEEDED")
                     else if count.Some? && count.value > perMinute then Some("TOO_MANY_TRANSFERS_IN_MINUTE")
                     else if !fits then Some("DAILY_TRANSFER_LIMIT_EXCEEDED")
                     else None)
      && (verdict.Some? ==> after == store)
      && (verdict.None? ==> input.reference in after.refs)
  {
    var name := "DAILY_TRANSFER_LIMIT_EXCEEDED";
    var amount, minute := AmountExceeded("TRANSFER_AMOUNT_EXCEEDED", threshold), TooManyInMinute(perMinute, count);
    var all := TransferRules(threshold, perMinute, count, limit);
    assert all == [SameAccount, amount, minute] + [Daily(name, limit)];
    DailyRuleLast([SameAccount, amount, minute], name, limit, input, store, clock);
    assert all[1..] == [amount, minute, Daily(name, limit)] && all[1..][1..] == [minute, Daily(name, limit)];
    assert all[2..][1..] == [Daily(name, limit)] && all[3..][1..] == [];
    assert input.to != Some(input.from) ==>
        Evaluate(all, input, store, clock) == Evaluate([amount, minute, Daily(name, limit)], input, store, clock);
    assert input.amount <= threshold ==>
        Evaluate(all[1..], input, store, clock) == Evaluate([minute, Daily(name, limit)], input, store, clock);
    assert !(count.Some? && count.value > perMinute) ==>
        Evaluate(all[1..][1..], input, store, clock) == Evaluate([Daily(name, limit)], input, store, clock);
  }

  /** Only the daily rule keeps reservations, so evaluation without it changes no key. */
  lemma {:induction false} OthersReserveNothing(rules: seq<Rule>, input: Input, store: Store, clock: Clock)
    requires forall i :: 0 <= i < |rules| ==> !rules[i].Daily?
    ensures Evaluate(rules, input, store, clock).1 == store
  {
    if |rules| > 0 {
      OthersReserveNothing(rules[1..], input, store, clock);
    }
  }

  /** The release loop; `lost` tells which calls fail. */
  function ReleaseAll(rules: seq<Rule>, reference: Reference, store: Store, clock: Clock, lost: seq<bool>): Store
    requires |lost| == |rules|
  {
    if |rules| == 0 then store
    else
      var front := ReleaseAll(rules[..|rules| - 1], reference, store, clock, lost[..|rules| - 1]);
      if rules[|rules| - 1].Daily? && !lost[|rules| - 1]
      then Release(front, reference, TtlSeconds(clock.metaAt), clock.now) else front
  }

  /** With the daily rule last, as both rule lists have it, the loop is one RELEASE, or nothing if that
      call is lost; failing calls of other rules do not matter. */
  lemma {:induction false} ReleaseAllIsOneRelease(rules: seq<Rule>, name: string, limit: nat, reference: Reference,
                                                  store: Store, clock: Clock, lost: seq<bool>)
    requires |lost| == |rules| + 1 && forall i :: 0 <= i < |rules| ==> !rules[i].Daily?
    ensures ReleaseAll(rules + [Daily(name, limit)], reference, store, clock, lost)
         == if lost[|rules|] then store else Release(store, reference, TtlSeconds(clock.metaAt), clock.now)
  {
    var all := rules + [Daily(name, limit)];
    assert all[..|all| - 1] == rules;
    OthersReleaseNothing(rules, reference, store, clock, lost[..|rules|]);
  }

  lemma {:induction false} OthersReleaseNothing(rules: seq<Rule>, reference: Reference, store: Store, clock: Clock,
                                                lost: seq<bool>)
    requires |lost| == |rules| && forall i :: 0 <= i < |rules| ==> !rules[i].Daily?
    ensures ReleaseAll(rules, reference, store, clock, lost) == store
  {
    if |rules| > 0 {
      OthersReleaseNothing(rules[..|rules| - 1], reference, store, clock, lost[..|rules| - 1]);
    }
  }

  /** So evaluating and then releasing once gives back what the evaluation reserved. */
  lemma ReleaseGivesBack(rules: seq<Rule>, name: string, limit: nat, input: Input, store: Store, clock: Clock,
                         lost: seq<bool>)
    requires |lost| == |rules| + 1 && !lost[|rules|] && forall i :: 0 <= i < |rules| ==> !rules[i].Daily?
    requires clock.metaAt <= clock.now < EndOfDay(DayOf(clock.metaAt)) && StoreInv(store, limit, DayOf(clock.metaAt))
    requires input.reference !in store.refs && input.reference !in store.released
    ensures var (verdict, after) := Evaluate(rules + [Daily(name, limit)], input, store, clock);
      var released := ReleaseAll(rules + [Daily(name, limit)], input.reference, after, clock, lost);
      verdict.None? ==>
        released.refs == store.refs && CurrentTotal(released, clock.now) == CurrentTotal(store, clock.now)
  {
    var (verdict, after) := Evaluate(rules + [Daily(name, limit)], input, store, clock);
    DailyRuleLast(rules, name, limit, input, store, clock);
    ReleaseAllIsOneRelease(rules, name, limit, input.reference, after, clock, lost);
    if verdict.None? {
      ApprovalReserves(rules, name, limit, input, store, clock);
      ReleaseUndoesReserve(store, limit, input.reference, input.amount, clock.metaAt, clock.now);
    }
  }

  lemma {:induction false} ApprovalReserves(rules: seq<Rule>, name: string, limit: nat, input: Input, store: Store,
                                            clock: Clock)
    requires forall i :: 0 <= i < |rules| ==> !rules[i].Daily?
    requires Evaluate(rules + [Daily(name, limit)], input, store, clock).0.None?
    ensures Evaluate(rules + [Daily(name, limit)], input, store, clock).1
         == Reserve(store, limit, input.reference, input.amount, TtlSeconds(clock.metaAt), clock.now).1
  {
    var all := rules + [Daily(name, limit)];
    if |rules| == 0 {
      assert all[1..] == [];
    } else {
      assert all[0] == rules[0] && all[1..] == rules[1..] + [Daily(name, limit)];
      ApprovalReserves(rules[1..], name, limit, input, store, clock);
    }
  }

  class RedisKeys {
    var total: Option<Entry>
    var refs: map<Reference, Entry>
    var released: map<Reference, Entry>

    constructor ()
      ensures View() == NO_KEYS
    {
      total, refs, released := None, map[], map[];
    }

    function View(): Store
      reads this
    {
      Store(total, refs, released)
    }

    method ReserveScript(limit: nat, reference: Reference, amount: nat, ttlSec: nat, now: Millis)
      returns (allowed: bool)
      modifies this
      ensures (allowed, View()) == Reserve(old(View()), limit, reference, amount, ttlSec, now)
    {
      if reference in refs && now < refs[reference].expiresAt {
        return true;
      }
      var currentTotal := if total.Some? && now < total.value.expiresAt then total.value.value else 0;
      var nextTotal := currentTotal + amount;
      if nextTotal > limit {
        return false;
      }
      total := Some(Entry(nextTotal, now + ttlSec * 1000));
      refs := refs[reference := Entry(amount, now + (ttlSec + 3600) * 1000)];
      allowed := true;
    }

    method ReleaseScript(reference: Reference, ttlSec: nat, now: Millis)
      modifies this
      ensures View() == Release(old(View()), reference, ttlSec, now)
    {
      if reference in released && now < released[reference].expiresAt {
        return;
      }
      var mark := Entry(1, now + (ttlSec + 3600) * 1000);
      if !(reference in refs && now < refs[reference].expiresAt) {
        released := released[reference := mark];
        return;
      }
      var reservedAmount := refs[reference].value;
      var currentTotal := if total.Some? && now < total.value.expiresAt then total.value.value else 0;
      var nextTotal: int := currentTotal - reservedAmount;
      if nextTotal < 0 {
        nextTotal := 0;
      }
      if total.Some? && now < total.value.expiresAt {
        var pttl := total.value.expiresAt - now;
        total := Some(Entry(nextTotal, now + pttl));
      } else {
        total := Some(Entry(nextTotal, now + ttlSec * 1000));
      }
      refs := refs - {reference};
      released := released[reference := mark];
    }
  }

  class Service {
    const redis: RedisKeys
    const rules: seq<Rule>

    constructor (redis: RedisKeys, rules: seq<Rule>)
      ensures this.redis == redis && this.rules == rules
    {
      this.redis, this.rules := redis, rules;
    }

    method EvaluateRule(rule: Rule, input: Input, clock: Clock) returns (verdict: Option<string>)
      modifies redis
      ensures (verdict, redis.View()) == Judge(rule, input, old(redis.View()), clock)
    {
      match rule {
        case SameAccount => verdict := if input.to == Some(input.from) then Some("SAME_ACCOUNT_TRANSFER") else None;
        case AmountExceeded(name, threshold) => verdict := if input.amount > threshold then Some(name) else None;
        case TooManyInMinute(limit, count) =>
          verdict := if count.Some? && count.value > limit then Some("TOO_MANY_TRANSFERS_IN_MINUTE") else None;
        case Daily(name, limit) =>
          var allowed := redis.ReserveScript(limit, input.reference, input.amount, TtlSeconds(clock.metaAt), clock.now);
          verdict := if allowed then None else Some(name);
      }
    }

    /** evaluateTransfer and evaluateWithdraw. */
    method EvaluateRules(input: Input, clock: Clock) returns (verdict: Option<string>)
      modifies redis
      ensures (verdict, redis.View()) == Evaluate(rules, input, old(redis.View()), clock)
    {
      assert rules[0..] == rules;
      for i := 0 to |rules|
        invariant Evaluate(rules[i..], input, redis.View(), clock) == Evaluate(rules, input, old(redis.View()), clock)
      {
        assert rules[i..][1..] == rules[i + 1..];
        verdict := EvaluateRule(rules[i], input, clock);
        if verdict.Some? {
          return;
        }
      }
      verdict := None;
    }

    /** releaseTransferDailyReservation and releaseWithdrawDailyReservation. */
    method ReleaseReservations(reference: Reference, clock: Clock, lost: seq<bool>)
      requires |lost| == |rules|
      modifies redis
      ensures redis.View() == ReleaseAll(rules, reference, old(redis.View()), clock, lost)
    {
      for i := 0 to |rules|
        invariant redis.View() == ReleaseAll(rules[..i], reference, old(redis.View()), clock, lost[..i])
      {
        assert rules[..i + 1][..i] == rules[..i] && lost[..i + 1][..i] == lost[..i];
        if rules[i].Daily? && !lost[i] {
          redis.ReleaseScript(reference, TtlSeconds(clock.metaAt), clock.now);
        }
      }
      assert rules[..|rules|] == rules && lost[..|rules|] == lost;
    }
  }
}
