/**
 The two scripts behind the daily limits, on the Redis keys of one user, one operation and one UTC day:
 a running total, one key per reservation and one key per release, each with its expiry.
 */
module DailyLimit {
  import opened Prelude

  type Millis = nat
  type Reference = string

  const DAY_MS: nat := 86400000

  function DayOf(now: Millis): nat {
    now / DAY_MS
  }

  function EndOfDay(day: nat): Millis {
    (day + 1) * DAY_MS
  }

  function Max(a: int, b: int): int {
    if a < b then b else a
  }

  /** getUtcDayMeta: the seconds to the end of the day, rounded up. */
  function TtlSeconds(now: Millis): nat {
    var ttlMs := Max(1000, EndOfDay(DayOf(now)) - now);
    Max(1, (ttlMs + 999) / 1000)
  }

  /** A key set with this TTL, now or later, outlives the day; set now, it outlives it by at most a second. */
  lemma TtlCoversTheDay(metaAt: Millis, setAt: Millis)
    requires metaAt <= setAt
    ensures metaAt < EndOfDay(DayOf(metaAt)) <= setAt + TtlSeconds(metaAt) * 1000
    ensures metaAt + TtlSeconds(metaAt) * 1000 < EndOfDay(DayOf(metaAt)) + 1000
    ensures EndOfDay(DayOf(metaAt)) - metaAt <= 24 * 60 * 60 * 1000
    ensures EndOfDay(DayOf(metaAt)) % (24 * 60 * 60 * 1000) == 0
  {
  }

  // ---------- keys ----------

  datatype Entry = Entry(value: nat, expiresAt: Millis)

  datatype Store = Store(total: Option<Entry>, refs: map<Reference, Entry>, released: map<Reference, Entry>)

  const NO_KEYS := Store(None, map[], map[])

  predicate Exists(entries: map<Reference, Entry>, reference: Reference, now: Millis) {
    reference in entries && now < entries[reference].expiresAt
  }

  /** tonumber(GET totalKey or '0') */
  function CurrentTotal(store: Store, now: Millis): nat {
    if store.total.Some? && now < store.total.value.expiresAt then store.total.value.value else 0
  }

  // ---------- scripts ----------

  /** RESERVE_LUA: whether the reservation is allowed, and the keys afterwards. */
  function Reserve(store: Store, limit: nat, reference: Reference, amount: nat, ttlSec: nat,
                   now: Millis): (bool, Store) {
    if Exists(store.refs, reference, now) then (true, store)
    else
      var nextTotal := CurrentTotal(store, now) + amount;
      if nextTotal > limit then (false, store)
      else (true, store.(total := Some(Entry(nextTotal, now + ttlSec * 1000)),
                         refs := store.refs[reference := Entry(amount, now + (ttlSec + 3600) * 1000)]))
  }

  /** The total left by a release, clamped at zero. */
  function TotalAfter(current: nat, reserved: nat): nat {
    if current < reserved then 0 else current - reserved
  }

  /** RELEASE_LUA: gives a live reservation back once, keeping the remaining TTL of the total. */
  function Release(store: Store, reference: Reference, ttlSec: nat, now: Millis): Store {
    var mark := Entry(1, now + (ttlSec + 3600) * 1000);
    if Exists(store.released, reference, now) then store
    else if !Exists(store.refs, reference, now) then store.(released := store.released[reference := mark])
    else
      var nextTotal := TotalAfter(CurrentTotal(store, now), store.refs[reference].value);
      var expiresAt := if store.total.Some? && now < store.total.value.expiresAt
                       then store.total.value.expiresAt else now + ttlSec * 1000;
      Store(Some(Entry(nextTotal, expiresAt)), store.refs - {reference}, store.released[reference := mark])
  }

  // ---------- what the scripts keep ----------

  ghost function Sum(entries: map<Reference, Entry>): nat {
    if entries == map[] then 0
    else
      var r :| r in entries;
      entries[r].value + Sum(entries - {r})
  }

  /** Any key may be taken out first. */
  lemma {:induction false} SumTakes(entries: map<Reference, Entry>, r: Reference)
    requires r in entries
    ensures Sum(entries) == entries[r].value + Sum(entries - {r})
    decreases |entries|
  {
    var first :| first in entries && Sum(entries) == entries[first].value + Sum(entries - {first});
    if first != r {
      SumTakes(entries - {first}, r);
      SumTakes(entries - {r}, first);
      assert entries - {first} - {r} == entries - {r} - {first};
    }
  }

  lemma SumAdds(entries: map<Reference, Entry>, r: Reference, entry: Entry)
    requires r !in entries
    ensures Sum(entries[r := entry]) == Sum(entries) + entry.value
  {
    SumTakes(entries[r := entry], r);
    assert entries[r := entry] - {r} == entries;
  }

  /** The total is the sum of the reservations, within the limit, and no key expires before the day ends. */
  ghost predicate StoreInv(store: Store, limit: nat, day: nat) {
    && (store.total.None? ==> store.refs == map[])
    && (store.total.Some? ==>
          store.total.value.value == Sum(store.refs) && store.total.value.expiresAt >= EndOfDay(day))
    && Sum(store.refs) <= limit
    && (forall r :: r in store.refs ==> store.refs[r].expiresAt >= EndOfDay(day))
    && (forall r :: r in store.released ==> store.released[r].expiresAt >= EndOfDay(day))
  }

  lemma NoKeysInv(limit: nat, day: nat)
    ensures StoreInv(NO_KEYS, limit, day)
  {
  }

  /** During the day the stored total is exactly the sum of the live reservations. */
  lemma TotalIsSum(store: Store, limit: nat, day: nat, now: Millis)
    requires StoreInv(store, limit, day) && now < EndOfDay(day)
    ensures CurrentTotal(store, now) == Sum(store.refs) <= limit
    ensures forall r :: Exists(store.refs, r, now) <==> r in store.refs
    ensures forall r :: Exists(store.released, r, now) <==> r in store.released
  {
  }

  lemma ReserveKeeps(store: Store, limit: nat, r: Reference, amount: nat, metaAt: Millis, now: Millis)
    requires metaAt <= now < EndOfDay(DayOf(metaAt)) && StoreInv(store, limit, DayOf(metaAt))
    ensures var (allowed, after) := Reserve(store, limit, r, amount, TtlSeconds(metaAt), now);
      && StoreInv(after, limit, DayOf(metaAt))
      && (allowed <==> r in store.refs || Sum(store.refs) + amount <= limit)
      && (allowed <==> r in after.refs)
      && (forall other :: other != r ==> (other in after.refs <==> other in store.refs))
      && (forall other :: other in store.refs ==> after.refs[other].value == store.refs[other].value)
      && (r !in store.refs && allowed ==> after.refs[r].value == amount)
  {
    TotalIsSum(store, limit, DayOf(metaAt), now);
    TtlCoversTheDay(metaAt, now);
    if r !in store.refs {
      SumAdds(store.refs, r, Entry(amount, now + (TtlSeconds(metaAt) + 3600) * 1000));
    }
  }

  /** A release takes exactly the reserved amount off the total, once a day; the clamp is never needed. */
  lemma ReleaseKeeps(store: Store, limit: nat, r: Reference, metaAt: Millis, now: Millis)
    requires metaAt <= now < EndOfDay(DayOf(metaAt)) && StoreInv(store, limit, DayOf(metaAt))
    ensures var after := Release(store, r, TtlSeconds(metaAt), now);
      && StoreInv(after, limit, DayOf(metaAt))
      && (r in store.refs ==> store.refs[r].value <= CurrentTotal(store, now))
      && (r in after.refs <==> r in store.refs && r in store.released)
      && r in after.released
      && (forall other :: other != r ==> (other in after.refs <==> other in store.refs))
      && (forall other :: other in after.refs ==> after.refs[other].value == store.refs[other].value)
      && (r in store.refs && r !in store.released ==>
            CurrentTotal(after, now) == CurrentTotal(store, now) - store.refs[r].value)
  {
    TotalIsSum(store, limit, DayOf(metaAt), now);
    TtlCoversTheDay(metaAt, now);
    if r in store.refs {
      SumTakes(store.refs, r);
    }
  }

  /** How long the keys live: a new total to the end of its day, a reservation and a release mark an hour longer,
      each by at most a second more than the script was late; a release leaves a live total its time. */
  lemma KeysLive(store: Store, limit: nat, r: Reference, amount: nat, metaAt: Millis, now: Millis)
    requires metaAt <= now
    ensures var (end, late) := (EndOfDay(DayOf(metaAt)), now - metaAt);
      var (allowed, reserved) := Reserve(store, limit, r, amount, TtlSeconds(metaAt), now);
      allowed && !Exists(store.refs, r, now) ==>
        && r in reserved.refs && reserved.total.Some?
        && end + late <= reserved.total.value.expiresAt < end + late + 1000
        && end + late + 3600000 <= reserved.refs[r].expiresAt < end + late + 3601000
    ensures var (end, late) := (EndOfDay(DayOf(metaAt)), now - metaAt);
      var after := Release(store, r, TtlSeconds(metaAt), now);
      && (!Exists(store.released, r, now) ==>
            r in after.released && end + late + 3600000 <= after.released[r].expiresAt < end + late + 3601000)
      && (store.total.Some? && now < store.total.value.expiresAt ==>
            after.total.Some? && after.total.value.expiresAt == store.total.value.expiresAt)
  {
    TtlCoversTheDay(metaAt, metaAt);
  }

  /** Reserve then release, first time that day, gives back every other reservation and the total. */
  lemma ReleaseUndoesReserve(store: Store, limit: nat, r: Reference, amount: nat, metaAt: Millis, now: Millis)
    requires metaAt <= now < EndOfDay(DayOf(metaAt)) && StoreInv(store, limit, DayOf(metaAt))
    requires r !in store.refs && r !in store.released && Sum(store.refs) + amount <= limit
    ensures var reserved := Reserve(store, limit, r, amount, TtlSeconds(metaAt), now).1;
      var after := Release(reserved, r, TtlSeconds(metaAt), now);
      after.refs == store.refs && CurrentTotal(after, now) == CurrentTotal(store, now)
  {
    ReserveKeeps(store, limit, r, amount, metaAt, now);
    var reserved := Reserve(store, limit, r, amount, TtlSeconds(metaAt), now).1;
    ReleaseKeeps(reserved, limit, r, metaAt, now);
    TotalIsSum(store, limit, DayOf(metaAt), now);
    TotalIsSum(reserved, limit, DayOf(metaAt), now);
    assert reserved.refs - {r} == store.refs;
  }

  /** The second failure of one reference keeps its reservation: the released mark is already there. */
  lemma SecondReleaseIsANoOp(store: Store, limit: nat, r: Reference, amount: nat, metaAt: Millis, now: Millis)
    requires metaAt <= now < EndOfDay(DayOf(metaAt)) && StoreInv(store, limit, DayOf(metaAt))
    requires r !in store.refs && r in store.released && Sum(store.refs) + amount <= limit
    ensures var reserved := Reserve(store, limit, r, amount, TtlSeconds(metaAt), now).1;
      Release(reserved, r, TtlSeconds(metaAt), now) == reserved && Sum(reserved.refs) == Sum(store.refs) + amount
  {
    ReserveKeeps(store, limit, r, amount, metaAt, now);
    TotalIsSum(store, limit, DayOf(metaAt), now);
    SumAdds(store.refs, r, Entry(amount, now + (TtlSeconds(metaAt) + 3600) * 1000));
  }

  /** A live reservation lets any amount through: with two amounts for one reference the limit means nothing. */
  lemma ReserveIgnoresTheAmount(store: Store, limit: nat, r: Reference, amount: nat, ttlSec: nat, now: Millis)
    requires Exists(store.refs, r, now)
    ensures Reserve(store, limit, r, amount, ttlSec, now) == (true, store)
  {
  }

  /** Two requests sharing one reference share one reservation: when one of them fails and gives it back,
      the other is still let through and the keys no longer know of it. */
  lemma SharedReservationIsLost(store: Store, limit: nat, r: Reference, amount: nat, metaAt: Millis, now: Millis)
    requires metaAt <= now < EndOfDay(DayOf(metaAt)) && StoreInv(store, limit, DayOf(metaAt))
    requires r !in store.refs && r !in store.released && Sum(store.refs) + amount <= limit
    ensures var first := Reserve(store, limit, r, amount, TtlSeconds(metaAt), now);
      var second := Reserve(first.1, limit, r, amount, TtlSeconds(metaAt), now);
      && first.0 && second.0
      && Release(second.1, r, TtlSeconds(metaAt), now).refs == store.refs
      && CurrentTotal(Release(second.1, r, TtlSeconds(metaAt), now), now) == CurrentTotal(store, now)
  {
    ReserveKeeps(store, limit, r, amount, metaAt, now);
    ReleaseUndoesReserve(store, limit, r, amount, metaAt, now);
    TotalIsSum(Reserve(store, limit, r, amount, TtlSeconds(metaAt), now).1, limit, DayOf(metaAt), now);
  }
}
