/** The breaker that stops automatic changes after repeated rollbacks.

    Times and durations are in one unit (seconds, say); the clock of a run never goes back. */
module CircuitBreaker {
  import opened Basics

  datatype Settings = Settings(maxRollbacks: int, window: int, cooldown: int)

  datatype State = Closed | Open | HalfOpen

  datatype Breaker = Breaker(state: State, trippedAt: Option<int>, rollbacks: seq<int>, probeUsed: bool)

  const INITIAL := Breaker(Closed, None, [], false)

  function Tripped(b: Breaker, at: int): Breaker {
    b.(state := Open, trippedAt := Some(at), probeUsed := false)
  }

  function Cooled(s: Settings, b: Breaker, now: int): Breaker {
    if b.state.Open? && b.trippedAt.Some? && now >= b.trippedAt.value + s.cooldown
    then b.(state := HalfOpen, probeUsed := false) else b
  }

  function CountSince(rollbacks: seq<int>, start: int): nat {
    if rollbacks == [] then 0
    else CountSince(rollbacks[..|rollbacks| - 1], start) + if rollbacks[|rollbacks| - 1] >= start then 1 else 0
  }

  /** The rollback is noted at `now`; the window is counted at `later`, which reads the clock again. */
  function RollbackOutcome(s: Settings, b: Breaker, now: int, later: int): (Breaker, bool) {
    var noted := b.(rollbacks := b.rollbacks + [now]);
    if b.state.HalfOpen? || CountSince(noted.rollbacks, later - s.window) >= s.maxRollbacks
    then (Tripped(noted, now), true) else (noted, false)
  }

  function SuccessOutcome(b: Breaker): Breaker {
    if b.state.HalfOpen? then b.(state := Closed, trippedAt := None, probeUsed := false) else b
  }

  function ApplyOutcome(s: Settings, b: Breaker, now: int): (Breaker, bool) {
    var checked := Cooled(s, b, now);
    match checked.state
    case Closed => (checked, true)
    case HalfOpen => (checked.(probeUsed := true), !checked.probeUsed)
    case Open => (checked, false)
  }

  function ResetOutcome(b: Breaker): Breaker {
    b.(state := Closed, trippedAt := None, probeUsed := false)
  }

  class CircuitBreaker {
    const settings: Settings
    var state: State
    var trippedAt: Option<int>
    var rollbacks: seq<int>
    var probeUsed: bool

    function View(): Breaker
      reads this
    {
      Breaker(state, trippedAt, rollbacks, probeUsed)
    }

    constructor (s: Settings)
      ensures settings == s && View() == INITIAL
    {
      settings := s;
      state, trippedAt, rollbacks, probeUsed := Closed, None, [], false;
    }

    method Trip(at: int)
      modifies this
      ensures View() == Tripped(old(View()), at)
    {
      state, trippedAt, probeUsed := Open, Some(at), false;
    }

    method CheckCooldown(now: int)
      modifies this
      ensures View() == Cooled(settings, old(View()), now)
    {
      if state != Open || trippedAt.None? { return; }
      var cooldownEnd := trippedAt.value + settings.cooldown;
      if now >= cooldownEnd {
        state, probeUsed := HalfOpen, false;
      }
    }

    method CountRecentRollbacks(now: int) returns (count: nat)
      ensures count == CountSince(rollbacks, now - settings.window)
    {
      count := 0;
      var windowStart := now - settings.window;
      for i := 0 to |rollbacks|
        invariant count == CountSince(rollbacks[..i], windowStart)
      {
        assert rollbacks[..i + 1][..i] == rollbacks[..i];
        if rollbacks[i] >= windowStart { count := count + 1; }
      }
      assert rollbacks[..|rollbacks|] == rollbacks;
    }

    method IsOpen(now: int) returns (blocking: bool)
      modifies this
      ensures View() == Cooled(settings, old(View()), now)
      ensures blocking <==> View().state != Closed
    {
      CheckCooldown(now);
      blocking := state == Open || state == HalfOpen;
    }

    method RecordRollback(now: int, later: int) returns (tripped: bool)
      modifies this
      ensures (View(), tripped) == RollbackOutcome(settings, old(View()), now, later)
    {
      rollbacks := rollbacks + [now];
      if state == HalfOpen {
        Trip(now);
        return true;
      }
      var recent := CountRecentRollbacks(later);
      if recent >= settings.maxRollbacks {
        Trip(now);
        return true;
      }
      return false;
    }

    method RecordSuccess()
      modifies this
      ensures View() == SuccessOutcome(old(View()))
    {
      if state == HalfOpen {
        state, trippedAt, probeUsed := Closed, None, false;
      }
    }

    method CanAutoApply(now: int) returns (granted: bool)
      modifies this
      ensures (View(), granted) == ApplyOutcome(settings, old(View()), now)
    {
      CheckCooldown(now);
      if state == Closed {
        return true;
      } else if state == HalfOpen {
        if !probeUsed {
          probeUsed := true;
          return true;
        }
        return false;
      } else {
        return false;
      }
    }

    method Reset() returns (previous: State)
      modifies this
      ensures View() == ResetOutcome(old(View())) && previous == old(state)
    {
      previous := state;
      state, trippedAt, probeUsed := Closed, None, false;
    }
  }

  // ----- Runs -----

  datatype Call =
    | Apply(at: int)                  // can_auto_apply
    | Rollback(at: int, later: int)   // record_rollback
    | Success(at: int)                // record_success
    | ManualReset(at: int)            // reset
    | Poll(at: int)                   // is_open, state, get_status

  function After(s: Settings, b: Breaker, c: Call): Breaker {
    match c
    case Apply(at) => ApplyOutcome(s, b, at).0
    case Rollback(at, later) => RollbackOutcome(s, b, at, later).0
    case Success(_) => SuccessOutcome(b)
    case ManualReset(_) => ResetOutcome(b)
    case Poll(at) => Cooled(s, b, at)
  }

  function End(c: Call): int {
    if c.Rollback? then c.later else c.at
  }

  /** Calls are made one after the other under a clock that does not go back. */
  ghost predicate InOrder(calls: seq<Call>) {
    && (forall i :: 0 <= i < |calls| ==> calls[i].at <= End(calls[i]))
    && (forall i, j :: 0 <= i < j < |calls| ==> End(calls[i]) <= calls[j].at)
  }

  /** The breaker after the first `n` calls. */
  function StateAt(s: Settings, calls: seq<Call>, n: nat): Breaker
    requires n <= |calls|
  {
    if n == 0 then INITIAL else After(s, StateAt(s, calls, n - 1), calls[n - 1])
  }

  ghost predicate Granted(s: Settings, calls: seq<Call>, i: nat)
    requires i < |calls|
  {
    calls[i].Apply? && ApplyOutcome(s, StateAt(s, calls, i), calls[i].at).1
  }

  /** Call `i` is granted as the probe of a half-open breaker. */
  ghost predicate ProbeGranted(s: Settings, calls: seq<Call>, i: nat)
    requires i < |calls|
  {
    Granted(s, calls, i) && StateAt(s, calls, i + 1).state.HalfOpen?
  }

  ghost predicate Trips(s: Settings, calls: seq<Call>, i: nat)
    requires i < |calls|
  {
    calls[i].Rollback? && RollbackOutcome(s, StateAt(s, calls, i), calls[i].at, calls[i].later).1
  }

  /** What holds before call `n` when a probe was granted by an earlier call at time `probe`. */
  ghost predicate NoFreshProbe(s: Settings, calls: seq<Call>, n: nat, probe: int)
    requires 0 < n <= |calls|
  {
    var b := StateAt(s, calls, n);
    && (b.state.Open? ==> b.trippedAt.Some? && b.trippedAt.value >= probe)
    && (b.state.HalfOpen? && !b.probeUsed ==> End(calls[n - 1]) >= probe + s.cooldown)
  }

  lemma {:induction false} NoFreshProbeAfter(s: Settings, calls: seq<Call>, i: nat, n: nat)
    requires InOrder(calls) && i < n <= |calls| && ProbeGranted(s, calls, i)
    ensures NoFreshProbe(s, calls, n, calls[i].at)
    decreases n
  {
    if n > i + 1 {
      NoFreshProbeAfter(s, calls, i, n - 1);
      assert End(calls[n - 2]) <= calls[n - 1].at;
      assert End(calls[i]) <= calls[n - 1].at;
    }
  }

  /** Two probes granted by a half-open breaker are at least a cooldown apart, manual resets included. */
  lemma ProbesAreSpaced(s: Settings, calls: seq<Call>, i: nat, j: nat)
    requires InOrder(calls) && i < j < |calls|
    requires ProbeGranted(s, calls, i) && ProbeGranted(s, calls, j)
    ensures calls[j].at - calls[i].at >= s.cooldown
  {
    NoFreshProbeAfter(s, calls, i, j);
    assert End(calls[j - 1]) <= calls[j].at;
  }

  lemma {:induction false} StaysOpen(s: Settings, calls: seq<Call>, i: nat, n: nat, now: int)
    requires InOrder(calls) && i < n <= |calls| && Trips(s, calls, i)
    requires forall k :: i < k < n ==> !calls[k].ManualReset?
    requires End(calls[n - 1]) <= now < calls[i].at + s.cooldown
    ensures var b := StateAt(s, calls, n); b.state.Open? && b.trippedAt.Some? && b.trippedAt.value >= calls[i].at
    decreases n
  {
    if n > i + 1 {
      assert End(calls[n - 2]) <= calls[n - 1].at <= End(calls[n - 1]);
      StaysOpen(s, calls, i, n - 1, now);
      assert End(calls[i]) <= calls[n - 1].at;
    }
  }

  /** Between a trip and the end of its cooldown nothing is applied automatically, unless the
      breaker is reset by hand. */
  lemma NoApplyDuringCooldown(s: Settings, calls: seq<Call>, i: nat, j: nat)
    requires InOrder(calls) && i < j < |calls| && Trips(s, calls, i)
    requires forall k :: i < k < j ==> !calls[k].ManualReset?
    requires calls[j].at < calls[i].at + s.cooldown
    ensures !Granted(s, calls, j)
  {
    assert End(calls[j - 1]) <= calls[j].at;
    StaysOpen(s, calls, i, j, calls[j].at);
  }

  /** In every reachable state: an open breaker knows when it tripped, a closed one has forgotten,
      and a used probe means half-open. */
  lemma {:induction false} ReachableStates(s: Settings, calls: seq<Call>, n: nat)
    requires n <= |calls|
    ensures var b := StateAt(s, calls, n);
            && (b.probeUsed ==> b.state.HalfOpen?)
            && (b.state.Closed? <==> b.trippedAt.None?)
  {
    if n > 0 { ReachableStates(s, calls, n - 1); }
  }

  function RollbackTimes(calls: seq<Call>): seq<int> {
    if calls == [] then []
    else
      var last := calls[|calls| - 1];
      RollbackTimes(calls[..|calls| - 1]) + if last.Rollback? then [last.at] else []
  }

  /** The breaker remembers every rollback ever recorded; neither a closing success nor a reset
      clears the window. */
  lemma {:induction false} AllRollbacksAreKept(s: Settings, calls: seq<Call>, n: nat)
    requires n <= |calls|
    ensures StateAt(s, calls, n).rollbacks == RollbackTimes(calls[..n])
  {
    if n > 0 {
      AllRollbacksAreKept(s, calls, n - 1);
      assert calls[..n][..n - 1] == calls[..n - 1];
    }
  }

  lemma OpensOnCall(s: Settings, b: Breaker, c: Call)
    requires b.state.Closed?
    ensures After(s, b, c).state.Open? <==> c.Rollback? && CountSince(b.rollbacks + [c.at], c.later - s.window) >= s.maxRollbacks
    ensures After(s, b, c).state.Open? <==> c.Rollback? && RollbackOutcome(s, b, c.at, c.later).1
    ensures c.Rollback? ==> After(s, b, c).rollbacks == b.rollbacks + [c.at]
  {}

  /** A closed breaker opens on a call exactly when the call records a rollback and at least
      `maxRollbacks` of the rollbacks recorded in the whole run lie in the window. */
  lemma OpensExactlyOnFullWindow(s: Settings, calls: seq<Call>, i: nat)
    requires i < |calls| && StateAt(s, calls, i).state.Closed?
    ensures StateAt(s, calls, i + 1).state.Open? <==>
              calls[i].Rollback? && CountSince(RollbackTimes(calls[..i + 1]), calls[i].later - s.window) >= s.maxRollbacks
    ensures StateAt(s, calls, i + 1).state.Open? <==> Trips(s, calls, i)
  {
    OpensOnCall(s, StateAt(s, calls, i), calls[i]);
    assert StateAt(s, calls, i + 1).rollbacks == RollbackTimes(calls[..i + 1]) by {
      AllRollbacksAreKept(s, calls, i + 1);
    }
  }

  // ----- What is granted, by the calls alone -----

  /** Call `i` is the last one before call `n` that trips the breaker. */
  ghost predicate IsLatestTrip(s: Settings, calls: seq<Call>, i: nat, n: nat)
    requires n <= |calls|
  {
    i < n && Trips(s, calls, i) && forall k: nat :: i < k < n ==> !Trips(s, calls, k)
  }

  /** Call `m`, made once the cooldown of the trip at call `i` had elapsed, made the breaker look. */
  predicate LooksAfterCooldown(s: Settings, calls: seq<Call>, i: nat, m: nat)
    requires i < |calls| && m < |calls|
  {
    (calls[m].Apply? || calls[m].Poll?) && calls[m].at >= calls[i].at + s.cooldown
  }

  ghost predicate IsNoticed(s: Settings, calls: seq<Call>, i: nat, n: nat)
    requires i < n <= |calls|
  {
    exists m: nat :: i < m < n && LooksAfterCooldown(s, calls, i, m)
  }

  ghost predicate IsProbeSpent(s: Settings, calls: seq<Call>, i: nat, n: nat)
    requires i < n <= |calls|
  {
    exists m: nat :: i < m < n && calls[m].Apply? && LooksAfterCooldown(s, calls, i, m)
  }

  /** Call `k` closes the breaker that tripped at call `i`: a reset, or a success after someone noticed
      that the cooldown had elapsed. */
  ghost predicate Closes(s: Settings, calls: seq<Call>, i: nat, k: nat)
    requires i < k < |calls|
  {
    calls[k].ManualReset? || (calls[k].Success? && IsNoticed(s, calls, i, k))
  }

  ghost predicate IsClosedAgain(s: Settings, calls: seq<Call>, i: nat, n: nat)
    requires i < n <= |calls|
  {
    exists k: nat :: i < k < n && Closes(s, calls, i, k)
  }

  /** How one more call changes these three. */
  lemma OneMoreCall(s: Settings, calls: seq<Call>, i: nat, n: nat)
    requires i < n < |calls|
    ensures IsNoticed(s, calls, i, n + 1) <==> IsNoticed(s, calls, i, n) || LooksAfterCooldown(s, calls, i, n)
    ensures IsProbeSpent(s, calls, i, n + 1) <==> IsProbeSpent(s, calls, i, n) || (calls[n].Apply? && LooksAfterCooldown(s, calls, i, n))
    ensures IsClosedAgain(s, calls, i, n + 1) <==> IsClosedAgain(s, calls, i, n) || Closes(s, calls, i, n)
  {}

  lemma {:induction false} NeverTripped(s: Settings, calls: seq<Call>, n: nat)
    requires n <= |calls| && forall k: nat :: k < n ==> !Trips(s, calls, k)
    ensures StateAt(s, calls, n).state.Closed? && !StateAt(s, calls, n).probeUsed
  {
    if n > 0 {
      NeverTripped(s, calls, n - 1);
      assert !Trips(s, calls, n - 1);
    }
  }

  /** The state that a trip and the calls since then leave behind. */
  ghost predicate IsStateSince(s: Settings, calls: seq<Call>, i: nat, n: nat)
    requires i < n <= |calls|
  {
    var b := StateAt(s, calls, n);
    if IsClosedAgain(s, calls, i, n) then b.state.Closed? && !b.probeUsed
    else
      && b.trippedAt == Some(calls[i].at)
      && (if IsNoticed(s, calls, i, n) then b.state.HalfOpen? && (b.probeUsed <==> IsProbeSpent(s, calls, i, n))
          else b.state.Open? && !b.probeUsed)
  }

  lemma StateSinceStep(s: Settings, calls: seq<Call>, i: nat, n: nat)
    requires InOrder(calls) && i < n < |calls| && IsStateSince(s, calls, i, n) && !Trips(s, calls, n)
    ensures IsStateSince(s, calls, i, n + 1)
  {
    OneMoreCall(s, calls, i, n);
    if IsNoticed(s, calls, i, n) {
      var m: nat :| i < m < n && LooksAfterCooldown(s, calls, i, m);
      assert End(calls[m]) <= calls[n].at;
    }
  }

  lemma StateAtTrip(s: Settings, calls: seq<Call>, i: nat)
    requires i < |calls| && Trips(s, calls, i)
    ensures IsStateSince(s, calls, i, i + 1)
  {
    assert StateAt(s, calls, i + 1) == After(s, StateAt(s, calls, i), calls[i]);
  }

  lemma {:induction false} StateSinceTrip(s: Settings, calls: seq<Call>, i: nat, n: nat)
    requires InOrder(calls) && n <= |calls| && IsLatestTrip(s, calls, i, n)
    ensures IsStateSince(s, calls, i, n)
    decreases n
  {
    if n == i + 1 {
      StateAtTrip(s, calls, i);
    } else {
      StateSinceTrip(s, calls, i, n - 1);
      assert !Trips(s, calls, n - 1);
      StateSinceStep(s, calls, i, n - 1);
    }
  }

  /** An automatic change is granted exactly if the breaker never tripped before, or was closed again
      since its latest trip, or the cooldown of that trip has elapsed and no change was asked for
      since it did. */
  lemma GrantedExactly(s: Settings, calls: seq<Call>, j: nat)
    requires InOrder(calls) && j < |calls| && calls[j].Apply?
    ensures (forall k: nat :: k < j ==> !Trips(s, calls, k)) ==> Granted(s, calls, j)
    ensures forall i: nat :: IsLatestTrip(s, calls, i, j) ==>
              (Granted(s, calls, j) <==>
                 || IsClosedAgain(s, calls, i, j)
                 || (calls[j].at >= calls[i].at + s.cooldown && !IsProbeSpent(s, calls, i, j)))
  {
    if forall k: nat :: k < j ==> !Trips(s, calls, k) {
      NeverTripped(s, calls, j);
    }
    forall i: nat | IsLatestTrip(s, calls, i, j)
      ensures Granted(s, calls, j) <==>
                IsClosedAgain(s, calls, i, j) || (calls[j].at >= calls[i].at + s.cooldown && !IsProbeSpent(s, calls, i, j))
    {
      StateSinceTrip(s, calls, i, j);
      if IsNoticed(s, calls, i, j) {
        var m: nat :| i < m < j && LooksAfterCooldown(s, calls, i, m);
        assert End(calls[m]) <= calls[j].at;
      } else {
        assert !IsProbeSpent(s, calls, i, j);
      }
    }
  }

  /** The rollbacks of the first `n` calls that were made at `start` or later. */
  ghost function RecentRollbacks(calls: seq<Call>, n: nat, start: int): set<nat>
    requires n <= |calls|
  {
    set k: nat | k < n && calls[k].Rollback? && calls[k].at >= start
  }

  lemma {:induction false} CountIsCalls(calls: seq<Call>, n: nat, start: int)
    requires n <= |calls|
    ensures CountSince(RollbackTimes(calls[..n]), start) == |RecentRollbacks(calls, n, start)|
  {
    if n == 0 {
      assert RecentRollbacks(calls, 0, start) == {};
    } else {
      CountIsCalls(calls, n - 1, start);
      assert calls[..n][..n - 1] == calls[..n - 1];
      CountOneMore(RollbackTimes(calls[..n - 1]), calls[n - 1].at, start);
      RecentOneMore(calls, n - 1, start);
    }
  }

  lemma CountOneMore(times: seq<int>, at: int, start: int)
    ensures CountSince(times + [at], start) == CountSince(times, start) + if at >= start then 1 else 0
    ensures times + [] == times
  {
    assert (times + [at])[..|times|] == times;
  }

  lemma RecentOneMore(calls: seq<Call>, n: nat, start: int)
    requires n < |calls|
    ensures |RecentRollbacks(calls, n + 1, start)|
         == |RecentRollbacks(calls, n, start)| + if calls[n].Rollback? && calls[n].at >= start then 1 else 0
  {
    var before, after := RecentRollbacks(calls, n, start), RecentRollbacks(calls, n + 1, start);
    assert n !in before;
    if calls[n].Rollback? && calls[n].at >= start {
      assert after == before + {n};
    } else {
      assert after == before;
    }
  }

  /** A call trips the breaker exactly if it records a rollback and the window is full of rollbacks,
      or the latest trip is noticed to have cooled down and the breaker is not closed again. */
  lemma TripsExactly(s: Settings, calls: seq<Call>, n: nat)
    requires InOrder(calls) && n < |calls|
    ensures Trips(s, calls, n) <==>
              calls[n].Rollback? &&
              (|| |RecentRollbacks(calls, n + 1, calls[n].later - s.window)| >= s.maxRollbacks
               || exists i: nat :: IsLatestTrip(s, calls, i, n) && IsNoticed(s, calls, i, n) && !IsClosedAgain(s, calls, i, n))
  {
    if calls[n].Rollback? {
      TripsByState(s, calls, n);
      if i: nat :| IsLatestTrip(s, calls, i, n) {
        StateSinceTrip(s, calls, i, n);
        OnlyLatest(s, calls, i, n);
      } else {
        NoLatestTrip(s, calls, n);
        NeverTripped(s, calls, n);
      }
    }
  }

  lemma NotedRollbacks(s: Settings, calls: seq<Call>, n: nat)
    requires n < |calls| && calls[n].Rollback?
    ensures StateAt(s, calls, n).rollbacks + [calls[n].at] == RollbackTimes(calls[..n + 1])
  {
    AllRollbacksAreKept(s, calls, n);
    assert calls[..n + 1][..n] == calls[..n];
  }

  lemma TripsByState(s: Settings, calls: seq<Call>, n: nat)
    requires n < |calls| && calls[n].Rollback?
    ensures Trips(s, calls, n) <==>
              StateAt(s, calls, n).state.HalfOpen? || |RecentRollbacks(calls, n + 1, calls[n].later - s.window)| >= s.maxRollbacks
  {
    NotedRollbacks(s, calls, n);
    CountIsCalls(calls, n + 1, calls[n].later - s.window);
  }

  lemma OnlyLatest(s: Settings, calls: seq<Call>, i: nat, n: nat)
    requires n <= |calls| && IsLatestTrip(s, calls, i, n)
    ensures forall j: nat :: IsLatestTrip(s, calls, j, n) ==> j == i
  {}

  lemma {:induction false} NoLatestTrip(s: Settings, calls: seq<Call>, n: nat)
    requires n <= |calls| && forall i: nat :: !IsLatestTrip(s, calls, i, n)
    ensures forall k: nat :: k < n ==> !Trips(s, calls, k)
  {
    if n > 0 {
      assert !IsLatestTrip(s, calls, n - 1, n);
      var m := n - 1;
      forall i: nat ensures !IsLatestTrip(s, calls, i, m) {
        assert !IsLatestTrip(s, calls, i, n);
      }
      NoLatestTrip(s, calls, n - 1);
    }
  }

  // ----- The lazy cooldown -----

  /** The same call on a breaker that notices an elapsed cooldown before anything else. */
  function EagerAfter(s: Settings, b: Breaker, c: Call): Breaker {
    After(s, Cooled(s, b, c.at), c)
  }

  /** Two breakers that are equal as soon as anyone looks at them at time `now`. */
  ghost predicate SameSeenAt(s: Settings, a: Breaker, b: Breaker, now: int) {
    Cooled(s, a, now) == Cooled(s, b, now)
  }

  /** The cooldown has elapsed unnoticed and the call is a success, which is then not credited, or a
      rollback that does not fill the window, which then fails to trip the breaker again. */
  predicate Overlooks(s: Settings, b: Breaker, c: Call) {
    && Cooled(s, b, c.at) != b
    && (c.Success? || (c.Rollback? && CountSince(b.rollbacks + [c.at], c.later - s.window) < s.maxRollbacks))
  }

  /** Noticing the cooldown late makes a difference to one call exactly when the call overlooks it. */
  lemma LazyDiffersFromEagerIff(s: Settings, b: Breaker, c: Call)
    requires s.cooldown > 0 && c.at <= End(c)
    ensures !SameSeenAt(s, After(s, b, c), EagerAfter(s, b, c), End(c)) <==> Overlooks(s, b, c)
  {}

  /** The eager breaker after the first `n` calls. */
  function EagerStateAt(s: Settings, calls: seq<Call>, n: nat): Breaker
    requires n <= |calls|
  {
    if n == 0 then INITIAL else EagerAfter(s, EagerStateAt(s, calls, n - 1), calls[n - 1])
  }

  lemma CooledLater(s: Settings, b: Breaker, now: int, later: int)
    requires now <= later
    ensures Cooled(s, Cooled(s, b, now), later) == Cooled(s, b, later)
  {}

  /** In a run, the lazy breaker and the eager one are indistinguishable as long as no call overlooks
      an elapsed cooldown, and differ right after the first call that does. */
  lemma {:induction false} LazyIsEagerUntilOverlooked(s: Settings, calls: seq<Call>, n: nat, now: int)
    requires InOrder(calls) && s.cooldown > 0 && n <= |calls|
    requires forall k: nat :: k < n ==> !Overlooks(s, StateAt(s, calls, k), calls[k])
    requires n > 0 ==> End(calls[n - 1]) <= now
    ensures SameSeenAt(s, StateAt(s, calls, n), EagerStateAt(s, calls, n), now)
    ensures n < |calls| ==>
              (!SameSeenAt(s, StateAt(s, calls, n + 1), EagerStateAt(s, calls, n + 1), End(calls[n]))
               <==> Overlooks(s, StateAt(s, calls, n), calls[n]))
    decreases n
  {
    if n > 0 {
      var c, lazy := calls[n - 1], StateAt(s, calls, n - 1);
      LazyIsEagerUntilOverlooked(s, calls, n - 1, c.at);
      LazyDiffersFromEagerIff(s, lazy, c);
      CooledLater(s, After(s, lazy, c), End(c), now);
      CooledLater(s, EagerAfter(s, lazy, c), End(c), now);
    }
    if n < |calls| {
      assert SameSeenAt(s, StateAt(s, calls, n), EagerStateAt(s, calls, n), calls[n].at) by {
        if n > 0 {
          var c, lazy := calls[n - 1], StateAt(s, calls, n - 1);
          CooledLater(s, After(s, lazy, c), End(c), calls[n].at);
          CooledLater(s, EagerAfter(s, lazy, c), End(c), calls[n].at);
        }
      }
      LazyDiffersFromEagerIff(s, StateAt(s, calls, n), calls[n]);
    }
  }
}
