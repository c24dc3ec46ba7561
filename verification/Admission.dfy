/** Admission and charging of concurrent requests.

    Handling a request reads the tenant's spend, decides, calls providers and finally charges, and
    every one of those parts may be interleaved with the parts of any other request. The model takes
    one atomic event between two suspension points; a run is any sequence of enabled events. Costs,
    failures, the order of events and midnight are all unconstrained. */
module Admission {
  import opened Basics
  import opened Degradation

  /** A positive daily limit, the most one request may cost, and how many live requests a tenant has at once. */
  datatype Settings = Settings(limit: real, maxCost: real, concurrency: nat) {
    ghost predicate Valid() {
      limit > 0.0 && maxCost >= 0.0
    }
  }

  /** Keyed: the key of the day's ledger has been computed, the lookup is on its way. Read: the spend
      has been fetched, nothing is decided. Admitted: providers are being tried. Billed: the key for
      the charge has been computed, the charge is on its way. */
  datatype Phase = Keyed(day: nat) | Read(spend: real) | Admitted | Billed(day: nat)

  datatype Request = Request(tenant: string, phase: Phase)

  datatype Gateway = Gateway(day: nat, ledger: map<(string, int), real>, levels: map<string, int>, requests: map<int, Request>)

  datatype Event =
    | ComputeKey(id: int, tenant: string) // today's ledger is chosen for the lookup
    | Lookup(id: int, spend: real)        // the budget is fetched, perhaps after midnight
    | Decide(id: int)                     // level computed and stored; rejected or admitted
    | Bill(id: int)                       // today's ledger is chosen for the charge
    | Charge(id: int, cost: real)         // the returned response is paid for, perhaps after midnight
    | Abandon(id: int)                    // the request ends without a charge
    | NextDay

  const START := Gateway(0, map[], map[], map[])

  function Spend(g: Gateway, tenant: string, day: int): real {
    if (tenant, day) in g.ledger then g.ledger[(tenant, day)] else 0.0
  }

  /** What a lookup may return: exactly what is spent on the key's day while that day lasts. Later the
      key may have expired, and may have been charged again since, so anything down to nothing. */
  predicate Readable(g: Gateway, tenant: string, day: int, spend: real) {
    if day == g.day then spend == Spend(g, tenant, day) else 0.0 <= spend <= Spend(g, tenant, day)
  }

  predicate Enabled(s: Settings, g: Gateway, e: Event) {
    match e
    case ComputeKey(id, _) => id !in g.requests
    case Lookup(id, spend) => id in g.requests && g.requests[id].phase.Keyed? && Readable(g, g.requests[id].tenant, g.requests[id].phase.day, spend)
    case Decide(id) => id in g.requests && g.requests[id].phase.Read?
    case Bill(id) => id in g.requests && g.requests[id].phase.Admitted?
    case Charge(id, cost) => id in g.requests && g.requests[id].phase.Billed? && 0.0 <= cost <= s.maxCost
    case Abandon(id) => id in g.requests
    case NextDay => true
  }

  function Next(s: Settings, g: Gateway, e: Event): Gateway
    requires Enabled(s, g, e)
  {
    match e
    case ComputeKey(id, tenant) =>
      g.(requests := g.requests[id := Request(tenant, Keyed(g.day))])
    case Lookup(id, spend) =>
      g.(requests := g.requests[id := Request(g.requests[id].tenant, Read(spend))])
    case Decide(id) =>
      var tenant := g.requests[id].tenant;
      var level := ComputeLevel(g.requests[id].phase.spend, s.limit);
      g.(levels := g.levels[tenant := level],
         requests := if RejectsLlm(level) then g.requests - {id} else g.requests[id := Request(tenant, Admitted)])
    case Bill(id) =>
      g.(requests := g.requests[id := Request(g.requests[id].tenant, Billed(g.day))])
    case Charge(id, cost) =>
      var Request(tenant, Billed(day)) := g.requests[id];
      g.(ledger := g.ledger[(tenant, day) := Spend(g, tenant, day) + cost], requests := g.requests - {id})
    case Abandon(id) =>
      g.(requests := g.requests - {id})
    case NextDay =>
      g.(day := g.day + 1)
  }

  /** A request that can still be charged: admitted, or not yet bound to be rejected. */
  predicate Live(s: Settings, g: Gateway, r: Request) {
    match r.phase
    case Keyed(day) => day != g.day || 100.0 * Spend(g, r.tenant, day) < 95.0 * s.limit
    case Read(spend) => 100.0 * spend < 95.0 * s.limit
    case Admitted => true
    case Billed(_) => true
  }

  function LiveRequests(s: Settings, g: Gateway, tenant: string): set<int> {
    set id | id in g.requests && g.requests[id].tenant == tenant && Live(s, g, g.requests[id])
  }

  ghost predicate RespectsConcurrency(s: Settings, g: Gateway) {
    forall tenant :: |LiveRequests(s, g, tenant)| <= s.concurrency
  }

  ghost predicate ValidRun(s: Settings, g: Gateway, events: seq<Event>)
    decreases |events|
  {
    events == [] ||
    (Enabled(s, g, events[0]) && RespectsConcurrency(s, Next(s, g, events[0])) && ValidRun(s, Next(s, g, events[0]), events[1..]))
  }

  ghost function After(s: Settings, g: Gateway, events: seq<Event>): Gateway
    requires ValidRun(s, g, events)
    decreases |events|
  {
    if events == [] then g else After(s, Next(s, g, events[0]), events[1..])
  }

  // ----- The overspend bound -----

  /** The cost of `n` requests at one price; kept as a sum so that proofs stay linear. */
  ghost function Total(n: nat, cost: real): real {
    if n == 0 then 0.0 else Total(n - 1, cost) + cost
  }

  lemma {:induction false} TotalIsProduct(n: nat, cost: real)
    ensures Total(n, cost) == n as real * cost
  {
    if n > 0 {
      TotalIsProduct(n - 1, cost);
      assert (n - 1) as real * cost + cost == n as real * cost;
    }
  }

  ghost function Bound(s: Settings): real {
    0.95 * s.limit + Total(s.concurrency, s.maxCost)
  }

  /** The charge of this request goes, or as things stand would go, to this day's ledger. */
  predicate MayCharge(s: Settings, g: Gateway, id: int, tenant: string, day: int) {
    && id in g.requests && g.requests[id].tenant == tenant && Live(s, g, g.requests[id])
    && day == if g.requests[id].phase.Billed? then g.requests[id].phase.day else g.day
  }

  function Chargers(s: Settings, g: Gateway, tenant: string, day: int): set<int> {
    set id | id in g.requests && MayCharge(s, g, id, tenant, day)
  }

  /** What is spent on a day, plus the worst every request can still add to it, stays below the bound. */
  ghost predicate Committed(s: Settings, g: Gateway, tenant: string, day: int) {
    Spend(g, tenant, day) + Total(|Chargers(s, g, tenant, day)|, s.maxCost) < Bound(s)
  }

  ghost predicate Inv(s: Settings, g: Gateway) {
    && (forall tenant, day :: Committed(s, g, tenant, day))
    && (forall tenant, day :: day > g.day ==> Spend(g, tenant, day) == 0.0)
    && (forall id :: id in g.requests && (g.requests[id].phase.Keyed? || g.requests[id].phase.Billed?) ==> g.requests[id].phase.day <= g.day)
  }

  lemma {:induction false} MoreRequestsCostMore(a: nat, b: nat, cost: real)
    requires a <= b && cost >= 0.0
    ensures Total(a, cost) <= Total(b, cost)
    decreases b
  {
    if a < b { MoreRequestsCostMore(a, b - 1, cost); }
  }

  lemma SameLedgerSameSpend(g: Gateway, g': Gateway)
    requires g.ledger == g'.ledger
    ensures forall tenant, day :: Spend(g', tenant, day) == Spend(g, tenant, day)
  {}

  lemma SubsetIsSmaller(a: set<int>, b: set<int>)
    requires a <= b
    ensures |a| <= |b|
  {
    assert b == a + (b - a);
  }

  /** Nothing more is spent on a day and no more requests can charge it. */
  lemma StaysCommitted(s: Settings, g: Gateway, g': Gateway, tenant: string, day: int)
    requires s.Valid() && Inv(s, g)
    requires Spend(g', tenant, day) == Spend(g, tenant, day)
    requires forall id :: MayCharge(s, g', id, tenant, day) ==> MayCharge(s, g, id, tenant, day)
    ensures Committed(s, g', tenant, day)
  {
    assert Committed(s, g, tenant, day);
    SubsetIsSmaller(Chargers(s, g', tenant, day), Chargers(s, g, tenant, day));
    MoreRequestsCostMore(|Chargers(s, g', tenant, day)|, |Chargers(s, g, tenant, day)|, s.maxCost);
  }

  /** A day on which less than 95% is spent can take a charge of every live request. */
  lemma RoomForEveryone(s: Settings, g: Gateway, tenant: string, day: int)
    requires s.Valid() && RespectsConcurrency(s, g) && 100.0 * Spend(g, tenant, day) < 95.0 * s.limit
    ensures Committed(s, g, tenant, day)
  {
    SubsetIsSmaller(Chargers(s, g, tenant, day), LiveRequests(s, g, tenant));
    MoreRequestsCostMore(|Chargers(s, g, tenant, day)|, s.concurrency, s.maxCost);
  }

  lemma StartSatisfiesInv(s: Settings)
    requires s.Valid()
    ensures Inv(s, START)
  {
    StartIsIdle(s);
    forall tenant, day ensures Committed(s, START, tenant, day) {
      RoomForEveryone(s, START, tenant, day);
    }
  }

  lemma ComputeKeyKeepsInv(s: Settings, g: Gateway, id: int, tenant: string)
    requires s.Valid() && Inv(s, g) && Enabled(s, g, ComputeKey(id, tenant))
    requires RespectsConcurrency(s, Next(s, g, ComputeKey(id, tenant)))
    ensures Inv(s, Next(s, g, ComputeKey(id, tenant)))
  {
    var g' := Next(s, g, ComputeKey(id, tenant));
    SameLedgerSameSpend(g, g');
    forall t, day ensures Committed(s, g', t, day) {
      if t == tenant && day == g.day && Live(s, g', g'.requests[id]) {
        RoomForEveryone(s, g', t, day);
      } else {
        StaysCommitted(s, g, g', t, day);
      }
    }
  }

  lemma LookupKeepsInv(s: Settings, g: Gateway, id: int, spend: real)
    requires s.Valid() && Inv(s, g) && Enabled(s, g, Lookup(id, spend))
    ensures Inv(s, Next(s, g, Lookup(id, spend)))
  {
    var g' := Next(s, g, Lookup(id, spend));
    SameLedgerSameSpend(g, g');
    forall t, day ensures Committed(s, g', t, day) {
      StaysCommitted(s, g, g', t, day);
    }
  }

  lemma DecideKeepsInv(s: Settings, g: Gateway, id: int)
    requires s.Valid() && Inv(s, g) && Enabled(s, g, Decide(id))
    ensures Inv(s, Next(s, g, Decide(id)))
  {
    var g' := Next(s, g, Decide(id));
    SameLedgerSameSpend(g, g');
    LevelThresholds(g.requests[id].phase.spend, s.limit);
    forall t, day ensures Committed(s, g', t, day) {
      StaysCommitted(s, g, g', t, day);
    }
  }

  lemma BillKeepsInv(s: Settings, g: Gateway, id: int)
    requires s.Valid() && Inv(s, g) && Enabled(s, g, Bill(id))
    ensures Inv(s, Next(s, g, Bill(id)))
  {
    var g' := Next(s, g, Bill(id));
    SameLedgerSameSpend(g, g');
    forall t, day ensures Committed(s, g', t, day) {
      StaysCommitted(s, g, g', t, day);
    }
  }

  /** A charge turns what a request could still cost into spend. */
  lemma ChargeIsCommitted(s: Settings, g: Gateway, id: int, cost: real)
    requires s.Valid() && Inv(s, g) && Enabled(s, g, Charge(id, cost))
    ensures Committed(s, Next(s, g, Charge(id, cost)), g.requests[id].tenant, g.requests[id].phase.day)
  {
    var g', tenant, day := Next(s, g, Charge(id, cost)), g.requests[id].tenant, g.requests[id].phase.day;
    assert Committed(s, g, tenant, day);
    assert id in Chargers(s, g, tenant, day);
    SubsetIsSmaller(Chargers(s, g', tenant, day), Chargers(s, g, tenant, day) - {id});
    MoreRequestsCostMore(|Chargers(s, g', tenant, day)|, |Chargers(s, g, tenant, day)| - 1, s.maxCost);
  }

  lemma ChargeKeepsInv(s: Settings, g: Gateway, id: int, cost: real)
    requires s.Valid() && Inv(s, g) && Enabled(s, g, Charge(id, cost))
    ensures Inv(s, Next(s, g, Charge(id, cost)))
  {
    var g', tenant, billed := Next(s, g, Charge(id, cost)), g.requests[id].tenant, g.requests[id].phase.day;
    forall t, day ensures Committed(s, g', t, day) {
      if t == tenant && day == billed {
        ChargeIsCommitted(s, g, id, cost);
      } else {
        StaysCommitted(s, g, g', t, day);
      }
    }
    forall t, day | day > g'.day ensures Spend(g', t, day) == 0.0 {
      assert Spend(g', t, day) == Spend(g, t, day);
    }
  }

  lemma AbandonKeepsInv(s: Settings, g: Gateway, id: int)
    requires s.Valid() && Inv(s, g) && Enabled(s, g, Abandon(id))
    ensures Inv(s, Next(s, g, Abandon(id)))
  {
    var g' := Next(s, g, Abandon(id));
    SameLedgerSameSpend(g, g');
    forall t, day ensures Committed(s, g', t, day) {
      StaysCommitted(s, g, g', t, day);
    }
  }

  lemma NextDayKeepsInv(s: Settings, g: Gateway)
    requires s.Valid() && Inv(s, g) && RespectsConcurrency(s, Next(s, g, NextDay))
    ensures Inv(s, Next(s, g, NextDay))
  {
    var g' := Next(s, g, NextDay);
    SameLedgerSameSpend(g, g');
    forall t, day ensures Committed(s, g', t, day) {
      if day == g'.day {
        assert Spend(g', t, day) == 0.0;
        RoomForEveryone(s, g', t, day);
      } else {
        StaysCommitted(s, g, g', t, day);
      }
    }
  }

  lemma {:induction false} RunsKeepInv(s: Settings, g: Gateway, events: seq<Event>)
    requires s.Valid() && Inv(s, g) && ValidRun(s, g, events)
    ensures Inv(s, After(s, g, events))
    decreases |events|
  {
    if events != [] {
      match events[0] {
        case ComputeKey(id, tenant) => ComputeKeyKeepsInv(s, g, id, tenant);
        case Lookup(id, spend) => LookupKeepsInv(s, g, id, spend);
        case Decide(id) => DecideKeepsInv(s, g, id);
        case Bill(id) => BillKeepsInv(s, g, id);
        case Charge(id, cost) => ChargeKeepsInv(s, g, id, cost);
        case Abandon(id) => AbandonKeepsInv(s, g, id);
        case NextDay => NextDayKeepsInv(s, g);
      }
      RunsKeepInv(s, Next(s, g, events[0]), events[1..]);
    }
  }

  lemma StartIsIdle(s: Settings)
    ensures RespectsConcurrency(s, START)
  {
    forall tenant ensures |LiveRequests(s, START, tenant)| <= s.concurrency {
      assert LiveRequests(s, START, tenant) == {};
    }
  }

  /** In every interleaving, over any number of tenants and days, no day's spend reaches
      95% of the limit plus one full cost for each request that may be live at once. */
  lemma OverspendBound(s: Settings, events: seq<Event>, tenant: string, day: int)
    requires s.Valid() && ValidRun(s, START, events)
    ensures Spend(After(s, START, events), tenant, day) < 0.95 * s.limit + s.concurrency as real * s.maxCost
  {
    StartSatisfiesInv(s);
    StartIsIdle(s);
    RunsKeepInv(s, START, events);
    var g := After(s, START, events);
    assert Committed(s, g, tenant, day);
    MoreRequestsCostMore(0, |Chargers(s, g, tenant, day)|, s.maxCost);
    TotalIsProduct(s.concurrency, s.maxCost);
  }

  // ----- The bound is the best one -----

  lemma {:induction false} RunsCompose(s: Settings, g: Gateway, first: seq<Event>, second: seq<Event>)
    requires ValidRun(s, g, first) && ValidRun(s, After(s, g, first), second)
    ensures ValidRun(s, g, first + second)
    ensures After(s, g, first + second) == After(s, After(s, g, first), second)
    decreases |first|
  {
    if first == [] {
      assert first + second == second;
    } else {
      RunsCompose(s, Next(s, g, first[0]), first[1..], second);
      assert (first + second)[1..] == first[1..] + second;
    }
  }

  ghost predicate LeadsTo(s: Settings, g: Gateway, events: seq<Event>, g': Gateway) {
    ValidRun(s, g, events) && After(s, g, events) == g'
  }

  lemma OneMoreEvent(s: Settings, g: Gateway, events: seq<Event>, g1: Gateway, e: Event)
    requires LeadsTo(s, g, events, g1) && Enabled(s, g1, e) && RespectsConcurrency(s, Next(s, g1, e))
    ensures LeadsTo(s, g, events + [e], Next(s, g1, e))
  {
    assert [e][1..] == [] && ValidRun(s, Next(s, g1, e), []);
    RunsCompose(s, g, events, [e]);
  }

  ghost function Ids(n: nat): (ids: set<int>)
    ensures |ids| == n
    ensures forall id :: id in ids <==> 0 <= id < n
  {
    if n == 0 then {} else Ids(n - 1) + {n - 1}
  }

  /** On the first day, `n` requests of one tenant have been admitted and nothing else is going on. */
  ghost predicate Crowd(g: Gateway, tenant: string, n: nat, spend: real) {
    && g.day == 0 && Spend(g, tenant, 0) == spend
    && g.requests.Keys == Ids(n)
    && forall id :: id in g.requests ==> g.requests[id] == Request(tenant, Admitted)
  }

  lemma FewRequestsRespectConcurrency(s: Settings, g: Gateway, n: nat)
    requires n <= s.concurrency && g.requests.Keys <= Ids(n)
    ensures RespectsConcurrency(s, g)
  {
    forall tenant ensures |LiveRequests(s, g, tenant)| <= s.concurrency {
      SubsetIsSmaller(LiveRequests(s, g, tenant), Ids(n));
    }
  }

  /** A crowd of `n` and one more request, number `n`, in the given phase. */
  ghost predicate CrowdAnd(g: Gateway, tenant: string, n: nat, spend: real, phase: Phase) {
    && g.day == 0 && Spend(g, tenant, 0) == spend
    && g.requests.Keys == Ids(n + 1)
    && forall id :: id in g.requests ==> g.requests[id] == Request(tenant, if id == n then phase else Admitted)
  }

  lemma Arrives(s: Settings, g: Gateway, tenant: string, n: nat, spend: real)
    requires Crowd(g, tenant, n, spend)
    ensures Enabled(s, g, ComputeKey(n, tenant)) && CrowdAnd(Next(s, g, ComputeKey(n, tenant)), tenant, n, spend, Keyed(0))
  {
    assert n !in g.requests && Ids(n + 1) == Ids(n) + {n};
  }

  lemma LooksUp(s: Settings, g: Gateway, tenant: string, n: nat, spend: real)
    requires CrowdAnd(g, tenant, n, spend, Keyed(0))
    ensures Enabled(s, g, Lookup(n, spend)) && CrowdAnd(Next(s, g, Lookup(n, spend)), tenant, n, spend, Read(spend))
  {}

  lemma IsAdmitted(s: Settings, g: Gateway, tenant: string, n: nat, spend: real)
    requires s.Valid() && CrowdAnd(g, tenant, n, spend, Read(spend)) && 100.0 * spend < 95.0 * s.limit
    ensures Enabled(s, g, Decide(n)) && Crowd(Next(s, g, Decide(n)), tenant, n + 1, spend)
  {
    LevelThresholds(spend, s.limit);
  }

  lemma IsBilled(s: Settings, g: Gateway, tenant: string, n: nat, spend: real)
    requires Crowd(g, tenant, n + 1, spend)
    ensures Enabled(s, g, Bill(n)) && CrowdAnd(Next(s, g, Bill(n)), tenant, n, spend, Billed(0))
  {}

  lemma IsCharged(s: Settings, g: Gateway, tenant: string, n: nat, spend: real, cost: real)
    requires CrowdAnd(g, tenant, n, spend, Billed(0)) && 0.0 <= cost <= s.maxCost
    ensures Enabled(s, g, Charge(n, cost)) && Crowd(Next(s, g, Charge(n, cost)), tenant, n, spend + cost)
  {
    assert Ids(n + 1) == Ids(n) + {n};
  }

  /** One more request joins a crowd: it reads the spend and is admitted. */
  lemma Join(s: Settings, g: Gateway, tenant: string, n: nat, spend: real) returns (events: seq<Event>)
    requires s.Valid() && n < s.concurrency && Crowd(g, tenant, n, spend) && 100.0 * spend < 95.0 * s.limit
    ensures ValidRun(s, g, events) && Crowd(After(s, g, events), tenant, n + 1, spend)
  {
    Arrives(s, g, tenant, n, spend);
    var g1 := Next(s, g, ComputeKey(n, tenant));
    FewRequestsRespectConcurrency(s, g1, n + 1);
    OneMoreEvent(s, g, [], g, ComputeKey(n, tenant));
    LooksUp(s, g1, tenant, n, spend);
    var g2 := Next(s, g1, Lookup(n, spend));
    FewRequestsRespectConcurrency(s, g2, n + 1);
    OneMoreEvent(s, g, [] + [ComputeKey(n, tenant)], g1, Lookup(n, spend));
    IsAdmitted(s, g2, tenant, n, spend);
    FewRequestsRespectConcurrency(s, Next(s, g2, Decide(n)), n + 1);
    OneMoreEvent(s, g, [] + [ComputeKey(n, tenant)] + [Lookup(n, spend)], g2, Decide(n));
    events := [] + [ComputeKey(n, tenant)] + [Lookup(n, spend)] + [Decide(n)];
  }

  /** The latest member of a crowd is charged and leaves. */
  lemma Leave(s: Settings, g: Gateway, tenant: string, n: nat, spend: real, cost: real) returns (events: seq<Event>)
    requires s.Valid() && n < s.concurrency && Crowd(g, tenant, n + 1, spend) && 0.0 <= cost <= s.maxCost
    ensures ValidRun(s, g, events) && Crowd(After(s, g, events), tenant, n, spend + cost)
  {
    IsBilled(s, g, tenant, n, spend);
    var g1 := Next(s, g, Bill(n));
    FewRequestsRespectConcurrency(s, g1, n + 1);
    OneMoreEvent(s, g, [], g, Bill(n));
    IsCharged(s, g1, tenant, n, spend, cost);
    FewRequestsRespectConcurrency(s, Next(s, g1, Charge(n, cost)), n);
    OneMoreEvent(s, g, [] + [Bill(n)], g1, Charge(n, cost));
    events := [] + [Bill(n)] + [Charge(n, cost)];
  }

  /** Requests served one after the other reach any spend below the 95% mark. */
  lemma {:induction false} ServeSequentially(s: Settings, tenant: string, k: nat, cost: real) returns (events: seq<Event>)
    requires s.Valid() && s.concurrency >= 1 && 0.0 <= cost <= s.maxCost
    requires 100.0 * Total(k, cost) < 95.0 * s.limit
    ensures ValidRun(s, START, events) && Crowd(After(s, START, events), tenant, 0, Total(k, cost))
    decreases k
  {
    if k == 0 {
      events := [];
      assert Crowd(START, tenant, 0, 0.0);
    } else {
      MoreRequestsCostMore(k - 1, k, cost);
      var before := ServeSequentially(s, tenant, k - 1, cost);
      var g := After(s, START, before);
      var joining := Join(s, g, tenant, 0, Total(k - 1, cost));
      var leaving := Leave(s, After(s, g, joining), tenant, 0, Total(k - 1, cost), cost);
      RunsCompose(s, g, joining, leaving);
      RunsCompose(s, START, before, joining + leaving);
      events := before + (joining + leaving);
    }
  }

  /** `n` requests all read the same spend before any of them is charged. */
  lemma {:induction false} Gather(s: Settings, g: Gateway, tenant: string, n: nat, spend: real) returns (events: seq<Event>)
    requires s.Valid() && n <= s.concurrency && Crowd(g, tenant, 0, spend) && 100.0 * spend < 95.0 * s.limit
    ensures ValidRun(s, g, events) && Crowd(After(s, g, events), tenant, n, spend)
    decreases n
  {
    if n == 0 {
      events := [];
    } else {
      var before := Gather(s, g, tenant, n - 1, spend);
      var joining := Join(s, After(s, g, before), tenant, n - 1, spend);
      RunsCompose(s, g, before, joining);
      events := before + joining;
    }
  }

  lemma {:induction false} ChargeEveryone(s: Settings, g: Gateway, tenant: string, n: nat, spend: real) returns (events: seq<Event>)
    requires s.Valid() && n <= s.concurrency && Crowd(g, tenant, n, spend)
    ensures ValidRun(s, g, events) && Crowd(After(s, g, events), tenant, 0, spend + Total(n, s.maxCost))
    decreases n
  {
    if n == 0 {
      events := [];
    } else {
      var first := Leave(s, g, tenant, n - 1, spend, s.maxCost);
      var rest := ChargeEveryone(s, After(s, g, first), tenant, n - 1, spend + s.maxCost);
      RunsCompose(s, g, first, rest);
      events := first + rest;
    }
  }

  /** Any amount is the sum of equal parts that respect a maximum. */
  lemma SplitEvenly(amount: real, most: real) returns (k: nat, part: real)
    requires amount >= 0.0 && most > 0.0
    ensures 0.0 <= part <= most && Total(k, part) == amount
  {
    var ratio := amount / most;
    k := ratio.Floor + 1;
    var parts := k as real;
    assert ratio <= parts;
    RatioAtMost(amount, most, parts);
    part := amount / parts;
    RatioAtMost(amount, parts, most);
    RatioAtLeast(amount, parts, 0.0);
    Quotient(amount, parts);
    TotalIsProduct(k, part);
  }

  lemma Quotient(a: real, b: real)
    requires b != 0.0
    ensures b * (a / b) == a
  {}

  /** The bound cannot be lowered: for every spend below the 95% mark some run ends exactly
      `concurrency` full costs above it. */
  lemma BoundIsApproached(s: Settings, tenant: string, spend: real) returns (events: seq<Event>)
    requires s.Valid() && s.maxCost > 0.0 && s.concurrency >= 1 && 0.0 <= spend && 100.0 * spend < 95.0 * s.limit
    ensures ValidRun(s, START, events)
    ensures Spend(After(s, START, events), tenant, 0) == spend + s.concurrency as real * s.maxCost
  {
    events := RampThenBurst(s, tenant, spend);
    TotalIsProduct(s.concurrency, s.maxCost);
  }

  lemma RampThenBurst(s: Settings, tenant: string, spend: real) returns (events: seq<Event>)
    requires s.Valid() && s.maxCost > 0.0 && s.concurrency >= 1 && 0.0 <= spend && 100.0 * spend < 95.0 * s.limit
    ensures ValidRun(s, START, events)
    ensures Crowd(After(s, START, events), tenant, 0, spend + Total(s.concurrency, s.maxCost))
  {
    var k, cost := SplitEvenly(spend, s.maxCost);
    var ramp := ServeSequentially(s, tenant, k, cost);
    var g := After(s, START, ramp);
    var gathering := Gather(s, g, tenant, s.concurrency, spend);
    var charging := ChargeEveryone(s, After(s, g, gathering), tenant, s.concurrency, spend);
    RunsCompose(s, g, gathering, charging);
    RunsCompose(s, START, ramp, gathering + charging);
    events := ramp + (gathering + charging);
  }

  ghost predicate StaysWithinLimit(s: Settings) {
    forall events, tenant, day :: ValidRun(s, START, events) ==> Spend(After(s, START, events), tenant, day) <= s.limit
  }

  /** The daily limit holds in every interleaving exactly when the requests that may be live
      at once cannot cost more than the last twentieth of it. */
  lemma LimitHoldsIff(s: Settings)
    requires s.Valid()
    ensures StaysWithinLimit(s) <==> s.concurrency as real * s.maxCost <= 0.05 * s.limit
  {
    var burst := s.concurrency as real * s.maxCost;
    if burst <= 0.05 * s.limit {
      forall events, tenant, day | ValidRun(s, START, events)
        ensures Spend(After(s, START, events), tenant, day) <= s.limit
      {
        OverspendBound(s, events, tenant, day);
      }
    } else {
      assert s.concurrency >= 1 && s.maxCost > 0.0;
      var gap := MinReal(0.95 * s.limit, (burst - 0.05 * s.limit) / 2.0);
      var events := BoundIsApproached(s, "tenant", 0.95 * s.limit - gap);
      assert Spend(After(s, START, events), "tenant", 0) > s.limit;
    }
  }

  // ----- Levels between the decision and the tier cap -----

  /** An admitted request finds its tenant at a level at which LLM calls are rejected. */
  ghost predicate MeetsRejectingLevel(g: Gateway, id: int) {
    && id in g.requests && g.requests[id].phase.Admitted?
    && g.requests[id].tenant in g.levels && RejectsLlm(g.levels[g.requests[id].tenant])
  }

  ghost predicate CanMeetRejectingLevel(s: Settings) {
    exists events, id :: ValidRun(s, START, events) && MeetsRejectingLevel(After(s, START, events), id)
  }

  /** Nothing has ever been spent, read or acted upon. */
  ghost predicate NothingSpent(g: Gateway) {
    && (forall tenant, day :: Spend(g, tenant, day) == 0.0)
    && (forall id :: id in g.requests && g.requests[id].phase.Read? ==> g.requests[id].phase.spend == 0.0)
    && (forall tenant :: tenant in g.levels ==> !RejectsLlm(g.levels[tenant]))
  }

  lemma EventKeepsNothingSpent(s: Settings, g: Gateway, e: Event)
    requires s.Valid() && s.maxCost == 0.0 && NothingSpent(g) && Enabled(s, g, e)
    ensures NothingSpent(Next(s, g, e))
  {
    var g' := Next(s, g, e);
    LevelThresholds(0.0, s.limit);
    forall tenant, day ensures Spend(g', tenant, day) == 0.0 {
      assert Spend(g, tenant, day) == 0.0;
    }
    if e.Lookup? {
      assert Spend(g, g.requests[e.id].tenant, g.requests[e.id].phase.day) == 0.0;
    }
  }

  lemma {:induction false} FreeRequestsSpendNothing(s: Settings, g: Gateway, events: seq<Event>)
    requires s.Valid() && s.maxCost == 0.0 && NothingSpent(g) && ValidRun(s, g, events)
    ensures NothingSpent(After(s, g, events))
    decreases |events|
  {
    if events != [] {
      EventKeepsNothingSpent(s, g, events[0]);
      FreeRequestsSpendNothing(s, Next(s, g, events[0]), events[1..]);
    }
  }

  lemma {:induction false} RunsRespectConcurrency(s: Settings, g: Gateway, events: seq<Event>)
    requires RespectsConcurrency(s, g) && ValidRun(s, g, events)
    ensures RespectsConcurrency(s, After(s, g, events))
    decreases |events|
  {
    if events != [] { RunsRespectConcurrency(s, Next(s, g, events[0]), events[1..]); }
  }

  lemma AdmittedNeedsConcurrency(s: Settings, g: Gateway, id: int)
    requires RespectsConcurrency(s, g) && id in g.requests && g.requests[id].phase.Admitted?
    ensures s.concurrency >= 1
  {
    assert id in LiveRequests(s, g, g.requests[id].tenant);
    assert |LiveRequests(s, g, g.requests[id].tenant)| <= s.concurrency;
  }

  lemma AtMostOneLive(s: Settings, g: Gateway, only: int)
    requires s.concurrency >= 1 && forall id :: id in g.requests && id != only ==> !Live(s, g, g.requests[id])
    ensures RespectsConcurrency(s, g)
  {
    forall tenant ensures |LiveRequests(s, g, tenant)| <= s.concurrency {
      forall id | id in LiveRequests(s, g, tenant) ensures id == only {
        assert id in g.requests && Live(s, g, g.requests[id]);
      }
      SubsetIsSmaller(LiveRequests(s, g, tenant), {only});
    }
  }

  /** Number 0 reads yesterday's spend, number 1 is admitted today, and number 0 then decides. */
  lemma Overtake(s: Settings, g: Gateway, tenant: string, spend: real) returns (events: seq<Event>, g': Gateway)
    requires s.Valid() && s.concurrency >= 1 && Crowd(g, tenant, 0, spend) && 100.0 * spend >= 95.0 * s.limit
    requires Spend(g, tenant, 1) == 0.0
    ensures LeadsTo(s, g, events, g') && MeetsRejectingLevel(g', 1)
  {
    LevelThresholds(spend, s.limit);
    LevelThresholds(0.0, s.limit);
    events, g' := [], g;
    events, g' := OnlyOneLives(s, g, events, g', ComputeKey(0, tenant));
    events, g' := OnlyOneLives(s, g, events, g', Lookup(0, spend));
    events, g' := OnlyOneLives(s, g, events, g', NextDay);
    events, g' := OnlyOneLives(s, g, events, g', ComputeKey(1, tenant));
    events, g' := OnlyOneLives(s, g, events, g', Lookup(1, 0.0));
    events, g' := OnlyOneLives(s, g, events, g', Decide(1));
    events, g' := OnlyOneLives(s, g, events, g', Decide(0));
  }

  lemma OnlyOneLives(s: Settings, g: Gateway, events: seq<Event>, g1: Gateway, e: Event) returns (events': seq<Event>, g2: Gateway)
    requires s.concurrency >= 1 && LeadsTo(s, g, events, g1) && Enabled(s, g1, e)
    requires forall id :: id in Next(s, g1, e).requests && id != 1 ==> !Live(s, Next(s, g1, e), Next(s, g1, e).requests[id])
    ensures g2 == Next(s, g1, e) && LeadsTo(s, g, events', g2)
  {
    AtMostOneLive(s, Next(s, g1, e), 1);
    OneMoreEvent(s, g, events, g1, e);
    events', g2 := events + [e], Next(s, g1, e);
  }

  /** Between its decision and the tier cap an admitted request can find its tenant at a level at
      which nothing is allowed, and the cap then lets it keep any tier, exactly when requests are
      served at all and cost something. One live request at a time is enough. */
  lemma MeetsRejectingLevelIff(s: Settings)
    requires s.Valid()
    ensures CanMeetRejectingLevel(s) <==> s.concurrency >= 1 && s.maxCost > 0.0
  {
    if s.concurrency >= 1 && s.maxCost > 0.0 {
      var gap := MinReal(0.95 * s.limit, s.maxCost);
      var spend := 0.95 * s.limit - gap;
      var burst := RampThenBurst(s, "tenant", spend);
      var g := After(s, START, burst);
      MoreRequestsCostMore(1, s.concurrency, s.maxCost);
      assert Total(1, s.maxCost) == Total(0, s.maxCost) + s.maxCost;
      StartSatisfiesInv(s);
      RunsKeepInv(s, START, burst);
      var overtaking, g' := Overtake(s, g, "tenant", spend + Total(s.concurrency, s.maxCost));
      RunsCompose(s, START, burst, overtaking);
      assert MeetsRejectingLevel(After(s, START, burst + overtaking), 1);
    } else {
      forall events, id | ValidRun(s, START, events) ensures !MeetsRejectingLevel(After(s, START, events), id) {
        var g := After(s, START, events);
        if MeetsRejectingLevel(g, id) {
          StartIsIdle(s);
          RunsRespectConcurrency(s, START, events);
          AdmittedNeedsConcurrency(s, g, id);
          FreeRequestsSpendNothing(s, START, events);
        }
      }
    }
  }
}
