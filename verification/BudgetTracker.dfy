/** Daily spend and request counters, kept in process memory or in Redis. Both are proved against
    the same specification: the total of the events recorded for one counter of one tenant and day.

    Times are whole seconds since the epoch; days are counted in UTC. */
module BudgetTracker {
  import opened Basics

  const SECONDS_PER_DAY := 86400

  function DayOf(now: int): int {
    now / SECONDS_PER_DAY
  }

  function NextMidnight(now: int): int {
    (DayOf(now) + 1) * SECONDS_PER_DAY
  }

  function SecondsUntilMidnight(now: int): int {
    Max(NextMidnight(now) - now, 60)
  }

  datatype Kind = Cost | Requests

  /** One counter: a kind, a tenant and a UTC day. */
  datatype Key = Key(kind: Kind, tenant: string, day: int)

  /** An amount added to a counter; a request counts 1. */
  datatype Event = Event(key: Key, amount: real)

  function TotalOn(history: seq<Event>, key: Key): real {
    if history == [] then 0.0
    else
      var last := history[|history| - 1];
      TotalOn(history[..|history| - 1], key) + if last.key == key then last.amount else 0.0
  }

  lemma TotalAfter(history: seq<Event>, e: Event)
    ensures forall key :: TotalOn(history + [e], key) == TotalOn(history, key) + if e.key == key then e.amount else 0.0
  {
    assert (history + [e])[..|history|] == history;
  }

  /** A counter is fed by its own tenant's events of its own day and nothing else. */
  lemma {:induction false} OnlyOwnEventsCount(history: seq<Event>, other: seq<Event>, key: Key)
    requires forall e :: e in other ==> e.key.tenant != key.tenant || e.key.day != key.day || e.key.kind != key.kind
    ensures TotalOn(history + other, key) == TotalOn(history, key)
    decreases |other|
  {
    if other == [] {
      assert history + other == history;
    } else {
      var init, last := other[..|other| - 1], other[|other| - 1];
      OnlyOwnEventsCount(history, init, key);
      assert other == init + [last];
      ConcatAssociates(history, init, [last]);
      TotalAfter(history + init, last);
    }
  }

  // ----- In-memory backend -----

  datatype TenantState = TenantState(dailySpend: real, requestCount: int, day: int)

  function Reading(s: TenantState, kind: Kind): real {
    if kind.Cost? then s.dailySpend else s.requestCount as real
  }

  /** From this day on, the states hold the exact total of every counter. */
  ghost predicate HoldsReadings(fallback: map<string, TenantState>, history: seq<Event>, day: int) {
    forall key: Key :: key.day >= day ==>
      TotalOn(history, key) == if key.tenant in fallback && fallback[key.tenant].day == key.day
                               then Reading(fallback[key.tenant], key.kind) else 0.0
  }

  /** One event of the day is written to its tenant's state of that day. */
  lemma ReadingsAfter(fallback: map<string, TenantState>, history: seq<Event>, day: int, after: TenantState, e: Event)
    requires HoldsReadings(fallback, history, day)
    requires e.key.day == after.day == day && e.key.tenant in fallback && fallback[e.key.tenant].day == day
    requires forall kind :: Reading(after, kind) == Reading(fallback[e.key.tenant], kind) + if kind == e.key.kind then e.amount else 0.0
    ensures HoldsReadings(fallback[e.key.tenant := after], history + [e], day)
  {
    TotalAfter(history, e);
  }

  class MemoryTracker {
    var fallback: map<string, TenantState>
    ghost var history: seq<Event>
    ghost var clock: int

    /** A tenant's state, when it is of the current day or later, holds that day's totals; every
        other total of those days is zero. */
    ghost predicate Valid()
      reads this
    {
      && (forall tenant :: tenant in fallback ==> fallback[tenant].day <= DayOf(clock))
      && HoldsReadings(fallback, history, DayOf(clock))
    }

    constructor ()
      ensures Valid() && history == [] && clock == 0
    {
      fallback, history, clock := map[], [], 0;
    }

    method GetOrCreateState(tenant: string, now: int) returns (state: TenantState)
      requires Valid() && clock <= now
      modifies this`fallback, this`clock
      ensures Valid() && clock == now
      ensures state.day == DayOf(now)
      ensures fallback == old(fallback)[tenant := state]
      ensures forall kind :: Reading(state, kind) == TotalOn(history, Key(kind, tenant, DayOf(now)))
    {
      if tenant !in fallback || fallback[tenant].day != DayOf(now) {
        fallback := fallback[tenant := TenantState(0.0, 0, DayOf(now))];
      }
      state := fallback[tenant];
      forall kind ensures Reading(state, kind) == TotalOn(history, Key(kind, tenant, DayOf(now))) {
        assert Key(kind, tenant, DayOf(now)).day >= DayOf(clock);
      }
      clock := now;
    }

    /** Writes back a tenant's state after one event of today. */
    method Store(tenant: string, ghost before: TenantState, after: TenantState, ghost e: Event, ghost now: int)
      requires Valid() && clock <= now
      requires e.key.tenant == tenant && e.key.day == before.day == after.day == DayOf(now)
      requires forall kind :: Reading(before, kind) == TotalOn(history, Key(kind, tenant, DayOf(now)))
      requires forall kind :: Reading(after, kind) == Reading(before, kind) + if kind == e.key.kind then e.amount else 0.0
      requires tenant in fallback && fallback[tenant] == before
      modifies this
      ensures Valid() && clock == now && history == old(history) + [e] && fallback == old(fallback)[tenant := after]
    {
      ReadingsAfter(fallback, history, DayOf(now), after, e);
      fallback := fallback[tenant := after];
      history, clock := history + [e], now;
    }

    method RecordCost(tenant: string, cost: real, now: int) returns (total: real)
      requires Valid() && clock <= now
      modifies this
      ensures Valid() && clock == now
      ensures history == old(history) + [Event(Key(Cost, tenant, DayOf(now)), cost)]
      ensures total == TotalOn(history, Key(Cost, tenant, DayOf(now)))
    {
      var state := GetOrCreateState(tenant, now);
      total := state.dailySpend + cost;
      Store(tenant, state, state.(dailySpend := total), Event(Key(Cost, tenant, DayOf(now)), cost), now);
    }

    method IncrementRequests(tenant: string, now: int) returns (count: int)
      requires Valid() && clock <= now
      modifies this
      ensures Valid() && clock == now
      ensures history == old(history) + [Event(Key(Requests, tenant, DayOf(now)), 1.0)]
      ensures count as real == TotalOn(history, Key(Requests, tenant, DayOf(now)))
    {
      var state := GetOrCreateState(tenant, now);
      count := state.requestCount + 1;
      Store(tenant, state, state.(requestCount := count), Event(Key(Requests, tenant, DayOf(now)), 1.0), now);
    }

    method GetDailySpend(tenant: string, now: int) returns (spend: real)
      requires Valid() && clock <= now
      ensures spend == TotalOn(history, Key(Cost, tenant, DayOf(now)))
    {
      assert Key(Cost, tenant, DayOf(now)).day >= DayOf(clock);
      if tenant !in fallback || fallback[tenant].day != DayOf(now) {
        return 0.0;
      }
      spend := fallback[tenant].dailySpend;
    }

    method GetRequestCount(tenant: string, now: int) returns (count: int)
      requires Valid() && clock <= now
      ensures count as real == TotalOn(history, Key(Requests, tenant, DayOf(now)))
    {
      assert Key(Requests, tenant, DayOf(now)).day >= DayOf(clock);
      if tenant !in fallback || fallback[tenant].day != DayOf(now) {
        return 0;
      }
      count := fallback[tenant].requestCount;
    }
  }

  // ----- Redis backend -----

  /** Every request event counts 1. */
  ghost predicate CountsRequests(history: seq<Event>) {
    forall e :: e in history && e.key.kind.Requests? ==> e.amount == 1.0
  }

  lemma {:induction false} RequestTotalsAreWhole(history: seq<Event>, key: Key) returns (n: int)
    requires CountsRequests(history) && key.kind.Requests?
    ensures TotalOn(history, key) == n as real
  {
    if history == [] {
      n := 0;
    } else {
      var last := history[|history| - 1];
      n := RequestTotalsAreWhole(history[..|history| - 1], key);
      if last.key == key { n := n + 1; }
    }
  }

  /** What the events from number `from` on add to a counter. */
  ghost function TotalSince(history: seq<Event>, from: nat, key: Key): real
    requires from <= |history|
  {
    TotalOn(history, key) - TotalOn(history[..from], key)
  }

  ghost predicate IsPartialTotal(history: seq<Event>, key: Key, total: real) {
    exists from: nat :: from <= |history| && total == TotalSince(history, from, key)
  }

  lemma TotalSinceAfter(history: seq<Event>, e: Event, from: nat, key: Key)
    requires from <= |history|
    ensures TotalSince(history + [e], from, key) == TotalSince(history, from, key) + if e.key == key then e.amount else 0.0
  {
    TotalAfter(history, e);
    assert (history + [e])[..from] == history[..from];
  }

  /** When nothing was ever taken back, the events since any moment add up to at least nothing and at
      most the whole total. */
  lemma {:induction false} PartsAreBetween(history: seq<Event>, from: nat, key: Key)
    requires from <= |history| && forall e :: e in history ==> e.amount >= 0.0
    ensures 0.0 <= TotalSince(history, from, key) <= TotalOn(history, key)
    decreases |history|
  {
    if history != [] {
      var init, last := history[..|history| - 1], history[|history| - 1];
      if from == |history| {
        assert history[..from] == history;
        PartsAreBetween(init, |init|, key);
        assert init[..|init|] == init;
      } else {
        PartsAreBetween(init, from, key);
        assert history[..from] == init[..from];
      }
    }
  }

  /** A value and, once it has been given an expiry, the second from which it is gone. */
  datatype Cell = Cell(value: real, expiresAt: Option<int>)

  /** Every stored value is what was added to its counter since the key was last created. */
  ghost predicate HoldsPartialTotals(store: map<Key, Cell>, since: map<Key, nat>, history: seq<Event>) {
    forall key: Key :: key in store ==>
      key in since && since[key] <= |history| && store[key].value == TotalSince(history, since[key], key)
  }

  /** One event is added to its cell, or to a new one that starts from here. */
  lemma PartialTotalsAfter(store: map<Key, Cell>, since: map<Key, nat>, history: seq<Event>,
                           store': map<Key, Cell>, since': map<Key, nat>, e: Event)
    requires HoldsPartialTotals(store, since, history)
    requires e.key in store' && store' == store[e.key := store'[e.key]]
    requires || (e.key in store && since' == since && store'[e.key].value == store[e.key].value + e.amount)
             || (since' == since[e.key := |history|] && store'[e.key].value == e.amount)
    ensures HoldsPartialTotals(store', since', history + [e])
  {
    assert history[..|history|] == history;
    forall key: Key | key in store'
      ensures key in since' && since'[key] <= |history| && store'[key].value == TotalSince(history + [e], since'[key], key)
    {
      TotalSinceAfter(history, e, since'[key], key);
    }
  }

  /** No key expires before its own day is over. */
  ghost predicate OutlivesItsDay(store: map<Key, Cell>) {
    forall key: Key :: key in store && store[key].expiresAt.Some? ==> store[key].expiresAt.value >= (key.day + 1) * SECONDS_PER_DAY
  }

  lemma LaterTotals(store: map<Key, Cell>, history: seq<Event>, day: int, later: int)
    requires HoldsTotals(store, history, day) && day <= later
    ensures HoldsTotals(store, history, later)
  {}

  /** From this day on, the store holds the exact total of every counter. */
  ghost predicate HoldsTotals(store: map<Key, Cell>, history: seq<Event>, day: int) {
    forall key: Key :: key.day >= day ==> TotalOn(history, key) == if key in store then store[key].value else 0.0
  }

  lemma TotalsAfter(store: map<Key, Cell>, history: seq<Event>, day: int, store': map<Key, Cell>, e: Event)
    requires HoldsTotals(store, history, day)
    requires e.key in store' && store' == store[e.key := store'[e.key]]
    requires e.key.day >= day ==> store'[e.key].value == (if e.key in store then store[e.key].value else 0.0) + e.amount
    ensures HoldsTotals(store', history + [e], day)
  {
    TotalAfter(history, e);
  }

  /** Each method that touches Redis is one command or a sequence of commands; the commands of
      different callers may be interleaved freely, since every command keeps `Valid`. A command runs
      at `now` on a key that was computed at `keyTime`, possibly before midnight. */
  class RedisTracker {
    var store: map<Key, Cell>
    ghost var history: seq<Event>
    ghost var since: map<Key, nat>  // how many events there were when the key was last created
    ghost var clock: int

    ghost predicate Valid()
      reads this
    {
      && OutlivesItsDay(store)
      && (forall key: Key :: key in store && store[key].expiresAt.Some? ==> store[key].expiresAt.value <= clock + 86400)
      && HoldsTotals(store, history, DayOf(clock))
      && HoldsPartialTotals(store, since, history)
      && CountsRequests(history)
    }

    predicate Present(key: Key, now: int)
      reads this
    {
      key in store && (store[key].expiresAt.None? || now < store[key].expiresAt.value)
    }

    constructor ()
      ensures Valid() && history == [] && clock == 0
    {
      store, history, since, clock := map[], [], map[], 0;
    }

    /** A key of the current day, or of a later one, is never gone. */
    lemma CurrentKeysAreKept(key: Key, now: int)
      requires Valid() && key.day >= DayOf(now)
      ensures Present(key, now) <==> key in store
    {
      assert now < NextMidnight(now) <= (key.day + 1) * SECONDS_PER_DAY;
    }

    method Increment(kind: Kind, tenant: string, amount: real, keyTime: int, now: int) returns (total: real)
      requires Valid() && clock <= now && keyTime <= now
      requires kind.Requests? ==> amount == 1.0
      modifies this
      ensures Valid() && clock == now
      ensures history == old(history) + [Event(Key(kind, tenant, DayOf(keyTime)), amount)]
      ensures DayOf(keyTime) == DayOf(now) ==> total == TotalOn(history, Key(kind, tenant, DayOf(now)))
      ensures IsPartialTotal(history, Key(kind, tenant, DayOf(keyTime)), total)
      ensures var key := Key(kind, tenant, DayOf(keyTime));
              && Present(key, now) && store == old(store)[key := store[key]]
              && (!old(Present(key, now)) ==> total == amount)
    {
      var key := Key(kind, tenant, DayOf(keyTime));
      if DayOf(keyTime) == DayOf(now) { CurrentKeysAreKept(key, now); }
      var cell := Cell(amount, None);
      if Present(key, now) {
        cell := store[key].(value := store[key].value + amount);
      } else {
        since := since[key := |history|];
      }
      total := cell.value;
      store := store[key := cell];
      PartialTotalsAfter(old(store), old(since), history, store, since, Event(key, amount));
      LaterTotals(old(store), history, DayOf(clock), DayOf(now));
      TotalsAfter(old(store), history, DayOf(now), store, Event(key, amount));
      history, clock := history + [Event(key, amount)], now;
      assert total == TotalSince(history, since[key], key);
    }

    method Ttl(key: Key, now: int) returns (ttl: int)
      ensures Present(key, now) && store[key].expiresAt.Some? ==> ttl == store[key].expiresAt.value - now
      ensures !Present(key, now) || store[key].expiresAt.None? ==> ttl < 0
    {
      if !Present(key, now) { return -2; }
      match store[key].expiresAt
      case None => ttl := -1;
      case Some(at) => ttl := at - now;
    }

    /** Gives the key its end-of-day expiry. The key may by then belong to a past day, may have
        received an expiry from another caller, or may be gone. */
    method Expire(key: Key, now: int)
      requires Valid() && clock <= now && key.day <= DayOf(now)
      modifies this
      ensures Valid() && clock == now && history == old(history) && since == old(since)
      ensures store == if old(Present(key, now)) then old(store)[key := old(store)[key].(expiresAt := Some(now + SecondsUntilMidnight(now)))]
                       else old(store)
    {
      if Present(key, now) {
        MidnightArithmetic(now);
        store := store[key := store[key].(expiresAt := Some(now + SecondsUntilMidnight(now)))];
      }
      clock := now;
    }

    method RecordCost(tenant: string, cost: real, keyTime: int, incrTime: int, ttlTime: int, expireTime: int) returns (total: real)
      requires Valid() && clock <= incrTime <= ttlTime <= expireTime && keyTime <= incrTime
      modifies this
      ensures Valid()
      ensures history == old(history) + [Event(Key(Cost, tenant, DayOf(keyTime)), cost)]
      ensures DayOf(keyTime) == DayOf(incrTime) ==> total == TotalOn(history, Key(Cost, tenant, DayOf(keyTime)))
      ensures IsPartialTotal(history, Key(Cost, tenant, DayOf(keyTime)), total)
      ensures var key := Key(Cost, tenant, DayOf(keyTime)); key in store && store[key].expiresAt.Some? && store == old(store)[key := store[key]]
    {
      var key := Key(Cost, tenant, DayOf(keyTime));
      total := Increment(Cost, tenant, cost, keyTime, incrTime);
      var ttl := Ttl(key, ttlTime);
      if ttl < 0 {
        Expire(key, expireTime);
      }
    }

    method IncrementRequests(tenant: string, keyTime: int, incrTime: int, ttlTime: int, expireTime: int) returns (count: int)
      requires Valid() && clock <= incrTime <= ttlTime <= expireTime && keyTime <= incrTime
      modifies this
      ensures Valid()
      ensures history == old(history) + [Event(Key(Requests, tenant, DayOf(keyTime)), 1.0)]
      ensures DayOf(keyTime) == DayOf(incrTime) ==> count as real == TotalOn(history, Key(Requests, tenant, DayOf(keyTime)))
      ensures var key := Key(Requests, tenant, DayOf(keyTime)); key in store && store[key].expiresAt.Some? && store == old(store)[key := store[key]]
    {
      var key := Key(Requests, tenant, DayOf(keyTime));
      var total := Increment(Requests, tenant, 1.0, keyTime, incrTime);
      count := total.Floor;
      ghost var n := RequestTotalsAreWhole(history, key);
      var ttl := Ttl(key, ttlTime);
      if ttl < 0 {
        Expire(key, expireTime);
      }
    }

    /** A read is exact when the key is computed and looked up on the same day. A lookup after
        midnight returns what was added since some moment, perhaps since just now. */
    method Get(kind: Kind, tenant: string, keyTime: int, now: int) returns (total: real)
      requires Valid() && clock <= now && keyTime <= now
      ensures DayOf(keyTime) == DayOf(now) ==> total == TotalOn(history, Key(kind, tenant, DayOf(now)))
      ensures IsPartialTotal(history, Key(kind, tenant, DayOf(keyTime)), total)
      ensures var key := Key(kind, tenant, DayOf(keyTime));
              if key in store && (store[key].expiresAt.None? || now < store[key].expiresAt.value) then total == store[key].value else total == 0.0
    {
      var key := Key(kind, tenant, DayOf(keyTime));
      if DayOf(keyTime) == DayOf(now) { CurrentKeysAreKept(key, now); }
      total := if Present(key, now) then store[key].value else 0.0;
      assert history[..|history|] == history;
      assert TotalSince(history, |history|, key) == 0.0;
    }
  }

  /** The expiry lies between one minute and one day ahead, never before the next UTC midnight, and
      exactly at it unless less than a minute of the day is left. */
  lemma MidnightArithmetic(now: int)
    ensures 60 <= SecondsUntilMidnight(now) <= SECONDS_PER_DAY
    ensures NextMidnight(now) % 86400 == 0 && 0 < NextMidnight(now) - now <= 86400
    ensures 86400 * DayOf(now) <= now < 86400 * (DayOf(now) + 1) && NextMidnight(now) == 86400 * (DayOf(now) + 1)
    ensures NextMidnight(now) <= now + SecondsUntilMidnight(now) < NextMidnight(now) + 60
    ensures now + SecondsUntilMidnight(now) == NextMidnight(now) <==> now % SECONDS_PER_DAY <= SECONDS_PER_DAY - 60
  {
    assert now == DayOf(now) * SECONDS_PER_DAY + now % SECONDS_PER_DAY;
  }

  // ----- Redis key names -----

  function KeyName(kind: Kind, tenant: string, date: string): string {
    (if kind.Cost? then "budget:cost:" else "budget:requests:") + tenant + ":" + date
  }

  /** Key names tell counters apart even for tenants whose names contain colons, because dates are
      written with a fixed number of digits. */
  lemma KeyNamesAreDistinct(kind1: Kind, tenant1: string, date1: string, kind2: Kind, tenant2: string, date2: string)
    requires |date1| == |date2|
    requires KeyName(kind1, tenant1, date1) == KeyName(kind2, tenant2, date2)
    ensures kind1 == kind2 && tenant1 == tenant2 && date1 == date2
  {
    var prefix1 := if kind1.Cost? then "budget:cost:" else "budget:requests:";
    var prefix2 := if kind2.Cost? then "budget:cost:" else "budget:requests:";
    var name := KeyName(kind1, tenant1, date1);
    assert name[7] == prefix1[7] && name[7] == prefix2[7];
    assert prefix1 == prefix2;
    var n := |prefix1|;
    assert name[|name| - |date1|..] == date1 && name[|name| - |date2|..] == date2;
    assert name[n..n + |tenant1|] == tenant1 && name[n..n + |tenant2|] == tenant2;
  }
}
