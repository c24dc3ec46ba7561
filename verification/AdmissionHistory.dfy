/** The gateway's state after a run, read off the list of events alone: who is being served and how
    far, what every ledger holds, and which level every tenant is at. */
module AdmissionHistory {
  import opened Basics
  import opened Degradation
  import opened Admission

  // ----- Reading an event list -----

  /** The last of the first `n` events with a property, or -1. */
  function LastIndex(events: seq<Event>, n: nat, p: Event -> bool): (last: int)
    requires n <= |events|
    ensures -1 <= last < n && (last >= 0 ==> p(events[last]))
    ensures forall j :: last < j < n ==> !p(events[j])
  {
    if n == 0 then -1 else if p(events[n - 1]) then n - 1 else LastIndex(events, n - 1, p)
  }

  function About(id: int): Event -> bool { (e: Event) => !e.NextDay? && e.id == id }
  function KeyOf(id: int): Event -> bool { (e: Event) => e.ComputeKey? && e.id == id }
  function LookupOf(id: int): Event -> bool { (e: Event) => e.Lookup? && e.id == id }
  function BillOf(id: int): Event -> bool { (e: Event) => e.Bill? && e.id == id }

  /** The day on which event number `n` happens: how often midnight has passed before it. */
  function DayAt(events: seq<Event>, n: nat): nat
    requires n <= |events|
  {
    if n == 0 then 0 else DayAt(events, n - 1) + if events[n - 1].NextDay? then 1 else 0
  }

  /** The tenant request `id` last started for, before event number `n`. */
  function TenantOf(events: seq<Event>, n: nat, id: int): Option<string>
    requires n <= |events|
  {
    var key := LastIndex(events, n, KeyOf(id));
    if key < 0 then None else Some(events[key].tenant)
  }

  /** The spend request `id` last saw, before event number `n`. */
  function SpendSeen(events: seq<Event>, n: nat, id: int): Option<real>
    requires n <= |events|
  {
    var lookup := LastIndex(events, n, LookupOf(id));
    if lookup < 0 then None else Some(events[lookup].spend)
  }

  /** The day on which request `id` last chose a ledger, before event number `n`. */
  function BillingDay(events: seq<Event>, n: nat, id: int): Option<nat>
    requires n <= |events|
  {
    var bill := LastIndex(events, n, BillOf(id));
    if bill < 0 then None else Some(DayAt(events, bill))
  }

  /** The costs charged by the first `n` events for a tenant, to the ledger of a day. */
  function Charged(events: seq<Event>, n: nat, tenant: string, day: int): real
    requires n <= |events|
  {
    if n == 0 then 0.0
    else
      Charged(events, n - 1, tenant, day) +
      match events[n - 1]
      case Charge(id, cost) =>
        if TenantOf(events, n - 1, id) == Some(tenant) && BillingDay(events, n - 1, id).Some? && BillingDay(events, n - 1, id).value == day
        then cost else 0.0
      case _ => 0.0
  }

  /** What a request is waiting for, by the last event about it; None if it is not being served. */
  function PhaseOf(s: Settings, events: seq<Event>, n: nat, id: int): Option<Phase>
    requires n <= |events|
  {
    var last := LastIndex(events, n, About(id));
    if last < 0 then None
    else match events[last]
      case ComputeKey(_, _) => Some(Keyed(DayAt(events, last)))
      case Lookup(_, spend) => Some(Read(spend))
      case Decide(_) => if SpendSeen(events, n, id).Some? && 100.0 * SpendSeen(events, n, id).value < 95.0 * s.limit then Some(Admitted) else None
      case Bill(_) => Some(Billed(DayAt(events, last)))
      case Charge(_, _) => None
      case Abandon(_) => None
      case NextDay => None
  }

  /** The last decision on a request of the tenant, or -1. */
  function LastDecision(events: seq<Event>, n: nat, tenant: string): (last: int)
    requires n <= |events|
    ensures -1 <= last < n && (last >= 0 ==> events[last].Decide? && TenantOf(events, last, events[last].id) == Some(tenant))
    ensures forall j :: last < j < n && events[j].Decide? ==> TenantOf(events, j, events[j].id) != Some(tenant)
  {
    if n == 0 then -1
    else if events[n - 1].Decide? && TenantOf(events, n - 1, events[n - 1].id) == Some(tenant) then n - 1
    else LastDecision(events, n - 1, tenant)
  }

  // ----- The state follows the events -----

  ghost predicate RequestFollows(s: Settings, events: seq<Event>, n: nat, g: Gateway, id: int)
    requires n <= |events|
  {
    match PhaseOf(s, events, n, id)
    case None => id !in g.requests
    case Some(phase) =>
      && id in g.requests && TenantOf(events, n, id) == Some(g.requests[id].tenant) && g.requests[id].phase == phase
      && (phase.Read? ==> SpendSeen(events, n, id) == Some(phase.spend))
      && (phase.Billed? ==> BillingDay(events, n, id) == Some(phase.day))
  }

  ghost predicate LevelFollows(s: Settings, events: seq<Event>, n: nat, g: Gateway, tenant: string)
    requires n <= |events|
  {
    var last := LastDecision(events, n, tenant);
    if last < 0 then tenant !in g.levels
    else
      var seen := SpendSeen(events, last, events[last].id);
      seen.Some? && tenant in g.levels && g.levels[tenant] == ComputeLevel(seen.value, s.limit)
  }

  ghost predicate LedgerFollows(events: seq<Event>, n: nat, g: Gateway, tenant: string, day: int)
    requires n <= |events|
  {
    Spend(g, tenant, day) == Charged(events, n, tenant, day)
  }

  ghost predicate Follows(s: Settings, events: seq<Event>, n: nat, g: Gateway)
    requires n <= |events|
  {
    && g.day == DayAt(events, n)
    && (forall id :: RequestFollows(s, events, n, g, id))
    && (forall tenant :: LevelFollows(s, events, n, g, tenant))
    && (forall tenant, day :: LedgerFollows(events, n, g, tenant, day))
  }

  lemma {:induction false} RunsSplit(s: Settings, g: Gateway, first: seq<Event>, second: seq<Event>)
    requires ValidRun(s, g, first + second)
    ensures ValidRun(s, g, first) && ValidRun(s, After(s, g, first), second)
    decreases |first|
  {
    if first == [] {
      assert first + second == second;
    } else {
      assert (first + second)[1..] == first[1..] + second;
      RunsSplit(s, Next(s, g, first[0]), first[1..], second);
    }
  }

  lemma PrefixStep(s: Settings, events: seq<Event>, n: nat)
    requires ValidRun(s, START, events) && n < |events|
    ensures ValidRun(s, START, events[..n]) && ValidRun(s, START, events[..n + 1])
    ensures Enabled(s, After(s, START, events[..n]), events[n])
    ensures After(s, START, events[..n + 1]) == Next(s, After(s, START, events[..n]), events[n])
  {
    var first, step, rest := events[..n], [events[n]], events[n + 1..];
    assert events == (first + step) + rest;
    RunsSplit(s, START, first + step, rest);
    RunsSplit(s, START, first, step);
    RunsCompose(s, START, first, step);
    assert step[1..] == [];
    assert events[..n + 1] == first + step;
  }

  /** An event about one request leaves the others where they are, and so does midnight. */
  lemma OtherRequestStays(s: Settings, events: seq<Event>, n: nat, g: Gateway, id: int)
    requires n < |events| && RequestFollows(s, events, n, g, id) && Enabled(s, g, events[n])
    requires events[n].NextDay? || events[n].id != id
    ensures RequestFollows(s, events, n + 1, Next(s, g, events[n]), id)
  {
    assert PhaseOf(s, events, n + 1, id) == PhaseOf(s, events, n, id);
  }

  lemma OwnRequestArrives(s: Settings, events: seq<Event>, n: nat, g: Gateway)
    requires n < |events| && g.day == DayAt(events, n) && Enabled(s, g, events[n])
    requires events[n].ComputeKey? || events[n].Lookup?
    requires RequestFollows(s, events, n, g, events[n].id)
    ensures RequestFollows(s, events, n + 1, Next(s, g, events[n]), events[n].id)
  {}

  lemma OwnRequestDecides(s: Settings, events: seq<Event>, n: nat, g: Gateway)
    requires s.Valid() && n < |events| && Enabled(s, g, events[n]) && events[n].Decide?
    requires RequestFollows(s, events, n, g, events[n].id)
    ensures RequestFollows(s, events, n + 1, Next(s, g, events[n]), events[n].id)
  {
    LevelThresholds(g.requests[events[n].id].phase.spend, s.limit);
  }

  lemma OwnRequestEnds(s: Settings, events: seq<Event>, n: nat, g: Gateway)
    requires n < |events| && g.day == DayAt(events, n) && Enabled(s, g, events[n])
    requires events[n].Bill? || events[n].Charge? || events[n].Abandon?
    requires RequestFollows(s, events, n, g, events[n].id)
    ensures RequestFollows(s, events, n + 1, Next(s, g, events[n]), events[n].id)
  {}

  lemma StepRequest(s: Settings, events: seq<Event>, n: nat, g: Gateway, id: int)
    requires s.Valid() && n < |events| && g.day == DayAt(events, n)
    requires RequestFollows(s, events, n, g, id) && Enabled(s, g, events[n])
    ensures RequestFollows(s, events, n + 1, Next(s, g, events[n]), id)
  {
    if events[n].NextDay? || events[n].id != id {
      OtherRequestStays(s, events, n, g, id);
    } else if events[n].Decide? {
      OwnRequestDecides(s, events, n, g);
    } else if events[n].ComputeKey? || events[n].Lookup? {
      OwnRequestArrives(s, events, n, g);
    } else {
      OwnRequestEnds(s, events, n, g);
    }
  }

  lemma StepLevel(s: Settings, events: seq<Event>, n: nat, g: Gateway, tenant: string)
    requires n < |events| && Enabled(s, g, events[n]) && LevelFollows(s, events, n, g, tenant)
    requires events[n].Decide? ==> RequestFollows(s, events, n, g, events[n].id)
    ensures LevelFollows(s, events, n + 1, Next(s, g, events[n]), tenant)
  {}

  lemma StepLedger(s: Settings, events: seq<Event>, n: nat, g: Gateway, tenant: string, day: int)
    requires n < |events| && Enabled(s, g, events[n]) && LedgerFollows(events, n, g, tenant, day)
    requires events[n].Charge? ==> RequestFollows(s, events, n, g, events[n].id)
    ensures LedgerFollows(events, n + 1, Next(s, g, events[n]), tenant, day)
  {}

  lemma StepFollows(s: Settings, events: seq<Event>, n: nat, g: Gateway)
    requires s.Valid() && n < |events| && Follows(s, events, n, g) && Enabled(s, g, events[n])
    ensures Follows(s, events, n + 1, Next(s, g, events[n]))
  {
    var m, g' := n + 1, Next(s, g, events[n]);
    forall id ensures RequestFollows(s, events, m, g', id) {
      assert RequestFollows(s, events, n, g, id);
      StepRequest(s, events, n, g, id);
    }
    if !events[n].NextDay? { assert RequestFollows(s, events, n, g, events[n].id); }
    forall tenant ensures LevelFollows(s, events, m, g', tenant) {
      assert LevelFollows(s, events, n, g, tenant);
      StepLevel(s, events, n, g, tenant);
    }
    forall tenant, day ensures LedgerFollows(events, m, g', tenant, day) {
      assert LedgerFollows(events, n, g, tenant, day);
      StepLedger(s, events, n, g, tenant, day);
    }
  }

  lemma {:induction false} RunsFollowEvents(s: Settings, events: seq<Event>, n: nat)
    requires s.Valid() && ValidRun(s, START, events) && n <= |events|
    ensures ValidRun(s, START, events[..n]) && Follows(s, events, n, After(s, START, events[..n]))
  {
    if n == 0 {
      assert events[..0] == [];
    } else {
      PrefixStep(s, events, n - 1);
      RunsFollowEvents(s, events, n - 1);
      StepFollows(s, events, n - 1, After(s, START, events[..n - 1]));
    }
  }

  // ----- What that says -----

  lemma StateFollowsEvents(s: Settings, events: seq<Event>)
    requires s.Valid() && ValidRun(s, START, events)
    ensures Follows(s, events, |events|, After(s, START, events))
  {
    RunsFollowEvents(s, events, |events|);
    assert events[..|events|] == events;
  }

  /** Every ledger holds exactly the costs charged to it: for each charge, the tenant its request
      started for and the day on which it was billed decide which ledger that is. */
  lemma LedgerIsHistory(s: Settings, events: seq<Event>, tenant: string, day: int)
    requires s.Valid() && ValidRun(s, START, events)
    ensures Spend(After(s, START, events), tenant, day) == Charged(events, |events|, tenant, day)
  {
    StateFollowsEvents(s, events);
    assert LedgerFollows(events, |events|, After(s, START, events), tenant, day);
  }

  /** A tenant's stored level is that of the spend which its last decided request had seen, whether
      that request was admitted or not; a tenant without a decision has none. */
  lemma LevelIsLastDecision(s: Settings, events: seq<Event>, tenant: string)
    requires s.Valid() && ValidRun(s, START, events)
    ensures var g, last := After(s, START, events), LastDecision(events, |events|, tenant);
            && (last < 0 <==> tenant !in g.levels)
            && (last >= 0 ==>
                 var seen := SpendSeen(events, last, events[last].id);
                 && seen.Some?
                 && (g.levels[tenant] >= QUEUED <==> seen.value >= s.limit)
                 && (g.levels[tenant] >= DETERMINISTIC_ONLY <==> 100.0 * seen.value >= 95.0 * s.limit)
                 && (g.levels[tenant] >= FAST_ONLY <==> 100.0 * seen.value >= 85.0 * s.limit)
                 && (g.levels[tenant] >= NO_STRONG <==> 100.0 * seen.value >= 70.0 * s.limit)
                 && FULL_SERVICE <= g.levels[tenant] <= QUEUED)
  {
    StateFollowsEvents(s, events);
    var last := LastDecision(events, |events|, tenant);
    assert LevelFollows(s, events, |events|, After(s, START, events), tenant);
    if last >= 0 { LevelThresholds(SpendSeen(events, last, events[last].id).value, s.limit); }
  }

  /** Which events may come next depends on the last event about the same request only, and for
      lookups on what has been charged. */
  lemma NextEventExactly(s: Settings, events: seq<Event>, e: Event)
    requires s.Valid() && ValidRun(s, START, events)
    ensures var n := |events|;
            Enabled(s, After(s, START, events), e) <==>
            match e
            case ComputeKey(id, _) => PhaseOf(s, events, n, id).None?
            case Lookup(id, spend) =>
              && PhaseOf(s, events, n, id).Some? && PhaseOf(s, events, n, id).value.Keyed?
              && var day, tenant := PhaseOf(s, events, n, id).value.day, TenantOf(events, n, id);
              tenant.Some? && (if day == DayAt(events, n) then spend == Charged(events, n, tenant.value, day)
                               else 0.0 <= spend <= Charged(events, n, tenant.value, day))
            case Decide(id) => PhaseOf(s, events, n, id).Some? && PhaseOf(s, events, n, id).value.Read?
            case Bill(id) => PhaseOf(s, events, n, id) == Some(Admitted)
            case Charge(id, cost) => PhaseOf(s, events, n, id).Some? && PhaseOf(s, events, n, id).value.Billed? && 0.0 <= cost <= s.maxCost
            case Abandon(id) => PhaseOf(s, events, n, id).Some?
            case NextDay => true
  {
    StateFollowsEvents(s, events);
    var g := After(s, START, events);
    if !e.NextDay? {
      assert RequestFollows(s, events, |events|, g, e.id);
      if e.Lookup? && e.id in g.requests && g.requests[e.id].phase.Keyed? {
        assert LedgerFollows(events, |events|, g, g.requests[e.id].tenant, g.requests[e.id].phase.day);
      }
    }
  }

  lemma {:induction false} ChargesAreNotNegative(s: Settings, events: seq<Event>, n: nat, tenant: string, day: int)
    requires s.Valid() && ValidRun(s, START, events) && n <= |events|
    ensures Charged(events, n, tenant, day) >= 0.0
  {
    if n > 0 {
      ChargesAreNotNegative(s, events, n - 1, tenant, day);
      PrefixStep(s, events, n - 1);
    }
  }

  /** The requests that count as live are exactly those that the events still allow to be admitted,
      if they are not admitted already: by what they have seen, or by something they may yet see. */
  lemma LiveExactly(s: Settings, events: seq<Event>, id: int)
    requires s.Valid() && ValidRun(s, START, events)
    ensures var g, phase := After(s, START, events), PhaseOf(s, events, |events|, id);
            (id in g.requests && id in LiveRequests(s, g, g.requests[id].tenant)) <==>
            phase.Some? &&
            match phase.value
            case Keyed(_) => exists spend :: Enabled(s, g, Lookup(id, spend)) && 100.0 * spend < 95.0 * s.limit
            case Read(spend) => 100.0 * spend < 95.0 * s.limit
            case Admitted => true
            case Billed(_) => true
  {
    StateFollowsEvents(s, events);
    var g := After(s, START, events);
    assert RequestFollows(s, events, |events|, g, id);
    if id in g.requests && g.requests[id].phase.Keyed? {
      var Request(tenant, Keyed(day)) := g.requests[id];
      ChargesAreNotNegative(s, events, |events|, tenant, day);
      assert LedgerFollows(events, |events|, g, tenant, day);
      assert day != g.day ==> Enabled(s, g, Lookup(id, 0.0));
      assert day == g.day ==> Enabled(s, g, Lookup(id, Spend(g, tenant, day)));
    }
  }
}
