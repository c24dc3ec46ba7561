/** What holds of every run of the escalation loop, whatever providers and other requests do. */
module EscalationTheorems {
  import opened Basics
  import opened Degradation
  import opened TierFallback
  import opened Escalation

  // ----- The checks -----

  /** What makes the checks reject a response while escalation is possible. */
  predicate IsPoor(request: Request, response: Response) {
    || response.empty || response.refusal || (request.wantsJson && response.unparseable)
    || (0.0 < request.threshold && response.extracted < request.threshold)
  }

  /** A response is rejected exactly while escalation is possible and it is poor. The confidence is the
      extracted one, except that the first cause among empty, refused and unparseable fixes it. */
  lemma CheckExactly(config: Config, request: Request, response: Response, count: int)
    ensures var decision := Check(config, request, response, count);
            && (decision.shouldEscalate <==> config.enabled && count < config.maxEscalations && IsPoor(request, response))
            && (!decision.shouldEscalate ==> decision.confidence == response.extracted)
            && (decision.shouldEscalate && response.empty ==> decision.confidence == 0.0)
            && (decision.shouldEscalate && !response.empty && response.refusal ==> decision.confidence == 0.1)
            && (decision.shouldEscalate && !response.empty && !response.refusal && request.wantsJson && response.unparseable ==>
                 decision.confidence == 0.3)
            && (decision.shouldEscalate && !response.empty && !response.refusal && !(request.wantsJson && response.unparseable) ==>
                 decision.confidence == response.extracted)
  {}

  /** The accepted response is returned with the confidence extracted from it. */
  lemma AcceptedAsExtracted(p: Problem, w: World)
    requires Accepted(p, Log(p, w))
    ensures var log, r := Log(p, w), Run(p, w);
            var response := log[|log| - 1].served.value.response;
            r.best == Some(response) && r.confidence == response.extracted
  {
    RunMatchesLog(p, w);
    var log := Log(p, w);
    CheckExactly(p.config, p.request, log[|log| - 1].served.value.response, |log| - 1);
  }

  /** The next tier is the one behind the first occurrence of the current tier in the path. */
  lemma NextTierExactly(config: Config, tier: string, next: string)
    ensures NextTier(config, tier) == Some(next) <==>
              exists i: nat :: i < |config.path| - 1 && IsFirst(config.path, tier, i) && config.path[i + 1] == next
  {
    var idx := IndexOf(config.path, tier);
    if idx.Some? {
      forall k: nat | k < idx.value ensures config.path[k] != tier {
        assert config.path[..idx.value][k] != tier;
      }
      assert IsFirst(config.path, tier, idx.value);
    }
  }

  ghost predicate IsFirst(path: seq<string>, tier: string, i: nat) {
    i < |path| && path[i] == tier && forall k: nat :: k < i ==> path[k] != tier
  }

  // ----- Termination and the escalation path -----

  lemma {:induction false} AttemptsAreBounded(p: Problem, w: World, k: nat, tier: string)
    ensures |Attempts(p, w, k, tier)| <= Max(0, p.config.maxEscalations - k) + 1
    decreases p.config.maxEscalations - k
  {
    var move := Move(p, w, k, Attempt(tier, Try(w, k, tier)));
    if move.Some? { AttemptsAreBounded(p, w, k + 1, move.value); }
  }

  /** Entry `i` of a log that starts with `k` attempts made: what was tried and where it led. */
  ghost predicate ChainAt(p: Problem, w: World, k: nat, log: seq<Attempt>, i: nat)
    requires i < |log|
  {
    && log[i].served == Try(w, k + i, log[i].tier)
    && Move(p, w, k + i, log[i]) == if i + 1 < |log| then Some(log[i + 1].tier) else None
  }

  lemma ChainBehind(p: Problem, w: World, k: nat, a: Attempt, rest: seq<Attempt>, i: nat)
    requires i < |rest| && ChainAt(p, w, k + 1, rest, i)
    ensures ChainAt(p, w, k, [a] + rest, i + 1)
  {
    var log := [a] + rest;
    assert log[i + 1] == rest[i] && (i + 1 < |rest| ==> log[i + 2] == rest[i + 1]);
    assert k + 1 + i == k + (i + 1);
  }

  lemma ChainStart(p: Problem, w: World, k: nat, tier: string, rest: seq<Attempt>)
    requires var a := Attempt(tier, Try(w, k, tier)); Move(p, w, k, a) == if rest != [] then Some(rest[0].tier) else None
    ensures ChainAt(p, w, k, [Attempt(tier, Try(w, k, tier))] + rest, 0)
  {}

  lemma {:induction false} AttemptsFormChain(p: Problem, w: World, k: nat, tier: string, log: seq<Attempt>)
    requires log == Attempts(p, w, k, tier)
    ensures log[0].tier == tier
    ensures forall i: nat :: i < |log| ==> ChainAt(p, w, k, log, i)
    decreases p.config.maxEscalations - k
  {
    AttemptsUnfold(p, w, k, tier);
    var a := Attempt(tier, Try(w, k, tier));
    var move := Move(p, w, k, a);
    if move.None? {
      ChainStart(p, w, k, tier, []);
      assert [a] + [] == [a];
    } else {
      var rest := Attempts(p, w, k + 1, move.value);
      AttemptsFormChain(p, w, k + 1, move.value, rest);
      ChainStart(p, w, k, tier, rest);
      forall i: nat | 0 < i < |log| ensures ChainAt(p, w, k, log, i) {
        ChainBehind(p, w, k, a, rest, i - 1);
      }
    }
  }

  /** Why the loop went on after attempt `i`. */
  lemma EveryMoveIsJustified(p: Problem, w: World, log: seq<Attempt>, i: nat)
    requires log == Log(p, w) && i + 1 < |log|
    ensures p.config.enabled && i < p.config.maxEscalations
    ensures NextTier(p.config, log[i].tier) == Some(log[i + 1].tier)
    ensures log[i + 1].tier in TiersForLevel(LevelAt(w, i))
    ensures ServedAt(log, i) ==> DecisionAt(p, log, i).shouldEscalate
  {
    AttemptsFormChain(p, w, 0, p.startTier, log);
    assert ChainAt(p, w, 0, log, i);
  }

  /** Every attempt is one round of fallback within its tier, with what the world holds for it. */
  lemma AttemptsExactly(p: Problem, w: World, i: nat)
    requires i < |Log(p, w)|
    ensures var a := Log(p, w)[i];
            a.served == TryTier(if a.tier in w.models then w.models[a.tier] else [], if i < |w.targets| then w.targets[i] else "",
                                w.registry, if i < |w.calls| then w.calls[i] else [])
  {
    AttemptsFormChain(p, w, 0, p.startTier, Log(p, w));
    assert ChainAt(p, w, 0, Log(p, w), i);
  }

  /** The loop goes on after an attempt exactly when escalation is possible, the path goes on, the
      tenant may use the next tier at that moment, and the attempt failed or gave a poor response. */
  lemma MovesExactly(p: Problem, w: World, i: nat)
    requires i < |Log(p, w)|
    ensures var log := Log(p, w); var next := NextTier(p.config, log[i].tier);
            i + 1 < |log| <==>
            && p.config.enabled && i < p.config.maxEscalations
            && next.Some? && i < |w.levels| && next.value in TiersForLevel(w.levels[i])
            && (log[i].served.None? || IsPoor(p.request, log[i].served.value.response))
  {
    var log := Log(p, w);
    AttemptsFormChain(p, w, 0, p.startTier, log);
    assert ChainAt(p, w, 0, log, i);
    if log[i].served.Some? { CheckExactly(p.config, p.request, log[i].served.value.response, i); }
    NamedTiersAllowed(LevelAt(w, i));
  }

  lemma NamedTiersAllowed(level: int)
    ensures "" !in TiersForLevel(level) && TiersForLevel(QUEUED) == []
  {}

  /** The tiers a run tried, in order. */
  function Trail(r: Result): seq<string> {
    r.path + [r.tier]
  }

  ghost predicate IsSlice(part: seq<string>, whole: seq<string>) {
    exists from: nat {:trigger whole[from..]} :: from + |part| <= |whole| && part <= whole[from..]
  }

  /** At most `maxEscalations` moves are made, every one to the configured successor of the current
      tier, and only to a tier the tenant may use at that moment. */
  lemma EscalationFollowsConfiguration(p: Problem, w: World)
    ensures var r := Run(p, w); var trail := Trail(r);
            && |r.path| <= Max(0, p.config.maxEscalations)
            && trail[0] == p.startTier
            && forall i: nat :: i < |r.path| ==>
                 NextTier(p.config, trail[i]) == Some(trail[i + 1]) && trail[i + 1] in TiersForLevel(LevelAt(w, i))
  {
    RunMatchesLog(p, w);
    AttemptsAreBounded(p, w, 0, p.startTier);
    var r, log := Run(p, w), Log(p, w);
    AttemptsFormChain(p, w, 0, p.startTier, log);
    forall i: nat | i < |r.path|
      ensures NextTier(p.config, Trail(r)[i]) == Some(Trail(r)[i + 1]) && Trail(r)[i + 1] in TiersForLevel(LevelAt(w, i))
    {
      EveryMoveIsJustified(p, w, log, i);
    }
  }

  lemma SuccessorInDistinctPath(config: Config, s: nat)
    requires Distinct(config.path) && s < |config.path|
    ensures NextTier(config, config.path[s]) == if s + 1 < |config.path| then Some(config.path[s + 1]) else None
  {
    var idx := IndexOf(config.path, config.path[s]).value;
    assert idx == s;
  }

  /** When the configured path repeats no tier, the tiers tried are a contiguous stretch of it,
      so that no tier is tried twice. */
  lemma TrailIsStretchOfPath(p: Problem, w: World)
    requires Distinct(p.config.path) && p.startTier in p.config.path
    ensures IsSlice(Trail(Run(p, w)), p.config.path) && Distinct(Trail(Run(p, w)))
  {
    EscalationFollowsConfiguration(p, w);
    var path, trail := p.config.path, Trail(Run(p, w));
    var from := IndexOf(path, p.startTier).value;
    forall i | 0 <= i < |trail| ensures from + i < |path| && trail[i] == path[from + i] {
      FollowsPath(p.config, trail, from, i);
    }
    FollowsPath(p.config, trail, from, |trail| - 1);
    assert trail <= path[from..];
  }

  /** A trail of successors runs along a path without repetitions. */
  lemma {:induction false} FollowsPath(config: Config, trail: seq<string>, from: nat, i: nat)
    requires Distinct(config.path) && i < |trail|
    requires from < |config.path| && trail[0] == config.path[from]
    requires forall j :: 0 <= j < |trail| - 1 ==> NextTier(config, trail[j]) == Some(trail[j + 1])
    ensures from + i < |config.path| && trail[i] == config.path[from + i]
  {
    if i > 0 {
      FollowsPath(config, trail, from, i - 1);
      SuccessorInDistinctPath(config, from + i - 1);
      assert NextTier(config, trail[i - 1]) == Some(trail[i - 1 + 1]);
    }
  }

  /** A start tier outside the configured path is never left. */
  lemma UnknownTierIsFinal(p: Problem, w: World)
    requires p.startTier !in p.config.path
    ensures Trail(Run(p, w)) == [p.startTier]
  {
    RunMatchesLog(p, w);
    AttemptsUnfold(p, w, 0, p.startTier);
  }

  /** While the tenant's level stays what it was at admission, an admitted request that starts at its
      capped tier only ever tries tiers allowed at that level. */
  lemma OnlyAllowedTiersAreTried(p: Problem, w: World, level: int, requested: string)
    requires FULL_SERVICE <= level <= FAST_ONLY && requested in TIER_PRIORITY && p.startTier == CappedTier(level, requested)
    requires forall k: nat :: k < p.config.maxEscalations ==> LevelAt(w, k) == level
    ensures forall tier :: tier in Trail(Run(p, w)) ==> tier in TiersForLevel(level)
  {
    EscalationFollowsConfiguration(p, w);
    CappedTierIsStrongestAllowed(level, requested, p.startTier);
    var trail := Trail(Run(p, w));
    forall i | 0 <= i < |trail| ensures trail[i] in TiersForLevel(level) {
      if i > 0 {
        assert trail[(i - 1) + 1] in TiersForLevel(LevelAt(w, i - 1));
      }
    }
  }

  /** Every tier a run tried was allowed when it was chosen: the first one at the level the cap saw,
      the others at the level at the time of the move. */
  ghost predicate AllowedWhenChosen(p: Problem, w: World, capLevel: int) {
    var trail := Trail(Run(p, w));
    && trail[0] in TiersForLevel(capLevel)
    && forall i: nat :: i + 1 < |trail| ==> trail[i + 1] in TiersForLevel(LevelAt(w, i))
  }

  /** However the tenant's level changes while the request is handled, every tier tried was allowed
      when it was chosen exactly when the cap saw one of the levels 0 to 2. At the other levels, which
      other requests can bring about after this one was admitted, the first tier is not. */
  lemma AllowedWhenChosenIff(p: Problem, w: World, capLevel: int, requested: string)
    requires requested in TIER_PRIORITY && p.startTier == CappedTier(capLevel, requested)
    ensures AllowedWhenChosen(p, w, capLevel) <==> FULL_SERVICE <= capLevel <= FAST_ONLY
  {
    EscalationFollowsConfiguration(p, w);
    if FULL_SERVICE <= capLevel <= FAST_ONLY {
      CappedTierIsStrongestAllowed(capLevel, requested, p.startTier);
    }
  }

  // ----- The threshold that is checked -----

  /** The threshold the gateway computes from the request's own and the administrator's for the task. */
  function EffectiveThreshold(own: Confidence, overrides: map<string, Confidence>, task: string): Confidence {
    if task in overrides && overrides[task] > own then overrides[task] else own
  }

  /** The checks read the request's own threshold. They decide every response as they would under the
      effective one exactly when the override is absent or no higher than the request's own; only a
      request that may not escalate is never affected. */
  lemma OverrideIsIgnoredIff(config: Config, request: Request, count: int, overrides: map<string, Confidence>, task: string)
    ensures var overridden := request.(threshold := EffectiveThreshold(request.threshold, overrides, task));
            (forall response :: Check(config, request, response, count) == Check(config, overridden, response, count))
            <==> (!config.enabled || count >= config.maxEscalations || task !in overrides || overrides[task] <= request.threshold)
  {
    var overridden := request.(threshold := EffectiveThreshold(request.threshold, overrides, task));
    if config.enabled && count < config.maxEscalations && task in overrides && overrides[task] > request.threshold {
      var atThreshold := Response("answer", false, false, false, request.threshold);
      assert Check(config, request, atThreshold, count) != Check(config, overridden, atThreshold, count);
    }
  }

  // ----- What is returned -----

  /** No response (status 503) exactly when the last attempt was not accepted and no attempt was
      answered with positive confidence. */
  lemma UnavailableIff(p: Problem, w: World)
    ensures var log := Log(p, w);
            Run(p, w).best.None? <==>
              !Accepted(p, log) && forall i: nat :: ServedAt(log, i) ==> DecisionAt(p, log, i).confidence == 0.0
  {
    RunMatchesLog(p, w);
    var log, r := Log(p, w), Run(p, w);
    if !Accepted(p, log) && r.best.Some? {
      var i: nat :| EarliestBest(p, log, i);
      assert ServedAt(log, i);
    }
  }

  /** No answered attempt had more confidence than the run returned. */
  ghost predicate ReturnsMaximum(p: Problem, w: World) {
    forall i: nat :: ServedAt(Log(p, w), i) ==> DecisionAt(p, Log(p, w), i).confidence <= Run(p, w).confidence
  }

  /** Whether `n` moves in a row are possible when every tier is allowed. */
  predicate MovesAvailable(config: Config, tier: string, n: nat)
    decreases n
  {
    n == 0 ||
    match NextTier(config, tier)
    case None => false
    case Some(next) => next in TiersForLevel(FULL_SERVICE) && MovesAvailable(config, next, n - 1)
  }

  /** The highest confidence that is reported for a rejected response regardless of the threshold. */
  function RejectionFloor(request: Request): Confidence {
    if request.wantsJson then 0.3 else 0.1
  }

  /** The request cannot escalate at all; or it cannot use up its escalations and its threshold
      covers the confidences given to refusals and unparseable answers. */
  predicate NeverBeaten(p: Problem) {
    || !p.config.enabled || p.config.maxEscalations <= 0
    || !MovesAvailable(p.config, p.startTier, 1)
    || (!MovesAvailable(p.config, p.startTier, p.config.maxEscalations) && p.request.threshold >= RejectionFloor(p.request))
  }

  lemma AllowedTiersAreKnown(level: int)
    ensures forall tier :: tier in TiersForLevel(level) ==> tier in TiersForLevel(FULL_SERVICE)
  {
    assert TiersForLevel(FULL_SERVICE)[0] == FAST && TiersForLevel(FULL_SERVICE)[1] == MID;
  }

  lemma MoveWasAvailable(p: Problem, w: World, log: seq<Attempt>, i: nat)
    requires log == Log(p, w) && i + 1 < |log|
    ensures NextTier(p.config, log[i].tier) == Some(log[i + 1].tier) && log[i + 1].tier in TiersForLevel(FULL_SERVICE)
  {
    EveryMoveIsJustified(p, w, log, i);
    AllowedTiersAreKnown(LevelAt(w, i));
  }

  lemma {:induction false} MovesMadeWereAvailable(p: Problem, w: World, log: seq<Attempt>, from: nat, n: nat)
    requires log == Log(p, w) && from + n < |log|
    ensures MovesAvailable(p.config, log[from].tier, n)
    decreases n
  {
    if n > 0 {
      MoveWasAvailable(p, w, log, from);
      MovesMadeWereAvailable(p, w, log, from + 1, n - 1);
    }
  }

  lemma UnacceptedRunsReturnMaximum(p: Problem, w: World)
    requires !Accepted(p, Log(p, w))
    ensures ReturnsMaximum(p, w)
  {
    RunMatchesLog(p, w);
    KeptIsGreatest(p, Log(p, w), Run(p, w).best, Run(p, w).confidence);
  }

  lemma RejectionsStayBelow(p: Problem, w: World, log: seq<Attempt>, i: nat)
    requires log == Log(p, w) && i + 1 < |log| && ServedAt(log, i)
    requires p.request.threshold >= RejectionFloor(p.request)
    ensures DecisionAt(p, log, i).confidence <= p.request.threshold
  {
    EveryMoveIsJustified(p, w, log, i);
  }

  /** A response taken before the escalations are used up meets the request's threshold. */
  lemma AcceptanceMeetsThreshold(p: Problem, log: seq<Attempt>)
    requires |log| >= 1 && Accepted(p, log) && p.config.enabled && |log| - 1 < p.config.maxEscalations
    ensures DecisionAt(p, log, |log| - 1).confidence >= p.request.threshold
  {}

  lemma EscalationsAreNotUsedUp(p: Problem, w: World, log: seq<Attempt>)
    requires NeverBeaten(p) && log == Log(p, w) && |log| > 1
    ensures p.config.enabled && |log| - 1 < p.config.maxEscalations && p.request.threshold >= RejectionFloor(p.request)
  {
    var last := |log| - 1;
    assert log[0].tier == p.startTier by { AttemptsFormChain(p, w, 0, p.startTier, log); }
    assert p.config.enabled && last - 1 < p.config.maxEscalations by { EveryMoveIsJustified(p, w, log, last - 1); }
    MovesMadeWereAvailable(p, w, log, 0, 1);
    MovesMadeWereAvailable(p, w, log, 0, last);
  }

  lemma NeverBeatenSuffices(p: Problem, w: World)
    requires NeverBeaten(p)
    ensures ReturnsMaximum(p, w)
  {
    var log := Log(p, w);
    if !Accepted(p, log) {
      UnacceptedRunsReturnMaximum(p, w);
    } else {
      RunMatchesLog(p, w);
      var confidence := Run(p, w).confidence;
      assert confidence == DecisionAt(p, log, |log| - 1).confidence;
      forall i: nat | ServedAt(log, i) ensures DecisionAt(p, log, i).confidence <= confidence {
        if i < |log| - 1 {
          EscalationsAreNotUsedUp(p, w, log);
          AcceptanceMeetsThreshold(p, log);
          RejectionsStayBelow(p, w, log, i);
        }
      }
    }
  }

  // A world in which every tier has one model, every call is answered and every tier is allowed.

  const SOLE_SERVER := Model("m", true, true)

  function ScriptedWorld(p: Problem, script: seq<Response>): World {
    World(map tier | tier in p.config.path + [p.startTier] :: [SOLE_SERVER],
          [], {SOLE_SERVER.id},
          seq(|script|, i requires 0 <= i < |script| => [Some(script[i])]),
          seq(|script|, _ => FULL_SERVICE))
  }

  lemma ScriptedTry(p: Problem, script: seq<Response>, k: nat, tier: string)
    requires k < |script| && tier in p.config.path + [p.startTier]
    ensures Try(ScriptedWorld(p, script), k, tier) == Some(Served(script[k], SOLE_SERVER.id))
  {
    var w := ScriptedWorld(p, script);
    assert ModelsFor(w, tier) == [SOLE_SERVER] && CallsFor(w, k) == [Some(script[k])];
    assert Serves([SOLE_SERVER], w.registry, CallsFor(w, k), 0);
  }

  lemma ScriptedMove(p: Problem, script: seq<Response>, k: nat, tier: string)
    requires k < |script| && k <= p.config.maxEscalations
    ensures var a := Attempt(tier, Some(Served(script[k], SOLE_SERVER.id)));
            var move := Move(p, ScriptedWorld(p, script), k, a);
            && (!Check(p.config, p.request, script[k], k).shouldEscalate ==> move.None?)
            && ((Check(p.config, p.request, script[k], k).shouldEscalate && MovesAvailable(p.config, tier, 1))
                  ==> move == NextTier(p.config, tier) && move.Some?)
  {
    assert LevelAt(ScriptedWorld(p, script), k) == FULL_SERVICE;
    assert forall next :: MovesAvailable(p.config, next, 0);
  }

  lemma ScriptedStep(p: Problem, script: seq<Response>, k: nat, tier: string)
    requires k < |script| && k <= p.config.maxEscalations && tier in p.config.path + [p.startTier]
    ensures var w, a, next := ScriptedWorld(p, script), Attempt(tier, Some(Served(script[k], SOLE_SERVER.id))), NextTier(p.config, tier);
            if !Check(p.config, p.request, script[k], k).shouldEscalate then Attempts(p, w, k, tier) == [a]
            else MovesAvailable(p.config, tier, 1) ==>
              next.Some? && Attempts(p, w, k, tier) == [a] + Attempts(p, w, k + 1, next.value)
  {
    ScriptedTry(p, script, k, tier);
    AttemptsUnfold(p, ScriptedWorld(p, script), k, tier);
    ScriptedMove(p, script, k, tier);
  }

  /** The checks reject every response of the script before number `last`, and accept that one. */
  ghost predicate AcceptedAt(p: Problem, script: seq<Response>, last: nat) {
    && last < |script|
    && (forall j: nat :: j < last ==> Check(p.config, p.request, script[j], j).shouldEscalate)
    && !Check(p.config, p.request, script[last], last).shouldEscalate
  }

  /** Tier `i + 1` of the route is the configured successor of tier `i` and allowed at full service. */
  ghost predicate IsStep(config: Config, route: seq<string>, i: nat) {
    i + 1 < |route| && NextTier(config, route[i]) == Some(route[i + 1]) && route[i + 1] in TiersForLevel(FULL_SERVICE)
  }

  ghost predicate IsRoute(p: Problem, route: seq<string>) {
    && route != [] && route[0] == p.startTier
    && (forall i: nat :: i < |route| - 1 ==> IsStep(p.config, route, i))
    && (forall i :: 0 <= i < |route| ==> route[i] in p.config.path + [p.startTier])
  }

  lemma NextTierIsOnPath(config: Config, tier: string)
    ensures NextTier(config, tier).Some? ==> NextTier(config, tier).value in config.path
  {}

  lemma {:induction false} RouteFrom(config: Config, tier: string, n: nat) returns (route: seq<string>)
    requires MovesAvailable(config, tier, n)
    ensures |route| == n + 1 && route[0] == tier
    ensures forall i: nat :: i < n ==> IsStep(config, route, i)
    ensures forall i :: 0 < i <= n ==> route[i] in config.path
    decreases n
  {
    if n == 0 {
      route := [tier];
    } else {
      var next := NextTier(config, tier).value;
      NextTierIsOnPath(config, tier);
      var rest := RouteFrom(config, next, n - 1);
      route := [tier] + rest;
      forall i: nat | i < n ensures IsStep(config, route, i) {
        if i > 0 { assert IsStep(config, rest, i - 1); }
      }
    }
  }

  lemma OneMoveIsAvailable(config: Config, tier: string, next: string)
    requires NextTier(config, tier) == Some(next) && next in TiersForLevel(FULL_SERVICE)
    ensures MovesAvailable(config, tier, 1)
  {
    assert MovesAvailable(config, next, 0);
  }

  /** The log of a run along a route in which the script is answered. */
  function ScriptedLog(route: seq<string>, script: seq<Response>): (log: seq<Attempt>)
    requires |route| <= |script|
    ensures |log| == |route|
    ensures forall i :: 0 <= i < |route| ==> log[i] == Attempt(route[i], Some(Served(script[i], SOLE_SERVER.id)))
  {
    seq(|route|, i requires 0 <= i < |route| && |route| <= |script| => Attempt(route[i], Some(Served(script[i], SOLE_SERVER.id))))
  }

  lemma RouteStep(p: Problem, script: seq<Response>, route: seq<string>, k: nat)
    requires IsRoute(p, route) && AcceptedAt(p, script, |route| - 1) && |route| - 1 <= p.config.maxEscalations && k < |route|
    ensures Attempts(p, ScriptedWorld(p, script), k, route[k])
         == [ScriptedLog(route, script)[k]] + if k + 1 < |route| then Attempts(p, ScriptedWorld(p, script), k + 1, route[k + 1]) else []
  {
    if k + 1 < |route| {
      assert IsStep(p.config, route, k);
      OneMoveIsAvailable(p.config, route[k], route[k + 1]);
    }
    ScriptedStep(p, script, k, route[k]);
  }

  lemma {:induction false} RouteIsTaken(p: Problem, script: seq<Response>, route: seq<string>, k: nat)
    requires IsRoute(p, route) && AcceptedAt(p, script, |route| - 1) && |route| - 1 <= p.config.maxEscalations && k < |route|
    ensures Attempts(p, ScriptedWorld(p, script), k, route[k]) == ScriptedLog(route, script)[k..]
    decreases |route| - k
  {
    TailInFront(ScriptedLog(route, script), k);
    RouteStep(p, script, route, k);
    if k + 1 < |route| { RouteIsTaken(p, script, route, k + 1); }
  }

  /** If the script makes the loop go on until attempt `last` and then accept, it does just that. */
  lemma ScriptedAttempts(p: Problem, script: seq<Response>, last: nat)
    requires AcceptedAt(p, script, last) && last <= p.config.maxEscalations && MovesAvailable(p.config, p.startTier, last)
    ensures var log := Log(p, ScriptedWorld(p, script));
            |log| == last + 1 && forall i: nat :: i <= last ==> log[i].served == Some(Served(script[i], SOLE_SERVER.id))
  {
    var route := RouteFrom(p.config, p.startTier, last);
    RouteIsTaken(p, script, route, 0);
    assert ScriptedLog(route, script)[0..] == ScriptedLog(route, script);
  }

  const EMPTY := Response("", true, false, true, 0.0)
  const REFUSAL := Response("I cannot", false, true, true, 0.8)

  /** A refusal, then empty answers until the last one has to be taken. */
  lemma ExhaustedEscalationsReturnLess(p: Problem) returns (w: World)
    requires p.config.enabled && p.config.maxEscalations >= 1 && MovesAvailable(p.config, p.startTier, p.config.maxEscalations)
    ensures !ReturnsMaximum(p, w)
  {
    var n := p.config.maxEscalations;
    var script := [REFUSAL] + seq(n, _ => EMPTY);
    w := ScriptedWorld(p, script);
    var log := Log(p, w);
    ScriptedAttempts(p, script, n);
    RunMatchesLog(p, w);
    assert ServedAt(log, 0) && DecisionAt(p, log, 0).confidence == 0.1;
    assert Accepted(p, log) && DecisionAt(p, log, n).confidence == 0.0;
  }

  /** A rejection whose reported confidence is above the threshold, then an answer just at the threshold. */
  lemma LowThresholdReturnsLess(p: Problem) returns (w: World)
    requires p.config.enabled && p.config.maxEscalations > 1 && MovesAvailable(p.config, p.startTier, 1)
    requires p.request.threshold < RejectionFloor(p.request)
    ensures !ReturnsMaximum(p, w)
  {
    var rejected := if p.request.wantsJson then Response("not json", false, false, true, 0.3) else REFUSAL;
    var plain := Response("states its confidence", false, false, false, p.request.threshold);
    var script := [rejected, plain];
    w := ScriptedWorld(p, script);
    var log := Log(p, w);
    ScriptedAttempts(p, script, 1);
    RunMatchesLog(p, w);
    assert ServedAt(log, 0) && DecisionAt(p, log, 0).confidence == RejectionFloor(p.request);
    assert Accepted(p, log) && DecisionAt(p, log, 1).confidence == p.request.threshold;
  }

  /** The running best is a real maximum, for all providers and all levels, exactly under
      `NeverBeaten`. The default configuration starting at the fast tier does not satisfy it. */
  lemma ReturnsMaximumIff(p: Problem)
    ensures (forall w :: ReturnsMaximum(p, w)) <==> NeverBeaten(p)
  {
    if NeverBeaten(p) {
      forall w ensures ReturnsMaximum(p, w) { NeverBeatenSuffices(p, w); }
    } else if MovesAvailable(p.config, p.startTier, p.config.maxEscalations) {
      var w := ExhaustedEscalationsReturnLess(p);
    } else {
      var w := LowThresholdReturnsLess(p);
    }
  }

  /** The shipped configuration: three tiers, at most two escalations. */
  const DEFAULT_CONFIG := Config(true, 2, [FAST, MID, STRONG])

  lemma DefaultConfigCanBeBeaten(request: Request)
    ensures !NeverBeaten(Problem(DEFAULT_CONFIG, request, FAST))
    ensures NeverBeaten(Problem(DEFAULT_CONFIG, request, MID)) <==> request.threshold >= RejectionFloor(request)
    ensures NeverBeaten(Problem(DEFAULT_CONFIG, request, STRONG))
  {
    var config := DEFAULT_CONFIG;
    assert config.path[0] == FAST && config.path[1] == MID && config.path[2] == STRONG;
    assert |FAST| == 4 && |MID| == 3 && |STRONG| == 6;
    assert Distinct(config.path);
    SuccessorInDistinctPath(config, 0);
    SuccessorInDistinctPath(config, 1);
    SuccessorInDistinctPath(config, 2);
    var full := TiersForLevel(FULL_SERVICE);
    assert full[0] == FAST && full[1] == MID && full[2] == STRONG;
    assert MovesAvailable(config, STRONG, 0) && !MovesAvailable(config, STRONG, 1);
    assert MovesAvailable(config, MID, 1) && !MovesAvailable(config, MID, 2);
    assert MovesAvailable(config, FAST, 2) && MovesAvailable(config, FAST, 1);
  }

  // ----- Which model the answer is attributed to -----

  /** The attempt whose response is returned. */
  ghost predicate IsReturned(p: Problem, log: seq<Attempt>, i: nat)
    requires |log| >= 1
  {
    ServedAt(log, i) && if Accepted(p, log) then i == |log| - 1 else EarliestBest(p, log, i)
  }

  /** The model that is reported, and priced, is the one that gave the returned response. */
  ghost predicate NamesProducer(p: Problem, w: World) {
    forall i: nat :: IsReturned(p, Log(p, w), i) ==> Log(p, w)[i].served.value.modelId == Run(p, w).modelUsed
  }

  lemma LastModelOfShortLog(log: seq<Attempt>)
    requires 1 <= |log| <= 2
    ensures ServedAt(log, |log| - 1) ==> LastModel(log) == log[|log| - 1].served.value.modelId
    ensures |log| == 2 && !ServedAt(log, 1) && ServedAt(log, 0) ==> LastModel(log) == log[0].served.value.modelId
  {
    if |log| == 2 { assert log[..1] == [log[0]]; }
  }

  lemma FewAttemptsNameProducer(p: Problem, w: World)
    requires !p.config.enabled || p.config.maxEscalations <= 1 || !MovesAvailable(p.config, p.startTier, 1)
    ensures NamesProducer(p, w)
  {
    RunMatchesLog(p, w);
    var log := Log(p, w);
    assert |log| <= Max(0, p.config.maxEscalations) + 1 by { AttemptsAreBounded(p, w, 0, p.startTier); }
    assert log[0].tier == p.startTier by { AttemptsFormChain(p, w, 0, p.startTier, log); }
    if |log| > 1 {
      EveryMoveIsJustified(p, w, log, 0);
      MovesMadeWereAvailable(p, w, log, 0, 1);
    }
    LastModelOfShortLog(log);
  }

  const FIRST := Model("a", true, true)
  const SECOND := Model("b", true, true)

  /** The first model of one tier refuses, the second model of the next tier answers nothing, and
      the tenant's level then forbids any further move: the refusal is returned under the other name. */
  function MisattributingWorld(p: Problem): World {
    World(map tier | tier in p.config.path + [p.startTier] :: [FIRST, SECOND], [], {FIRST.id, SECOND.id},
          [[Some(REFUSAL)], [None, Some(EMPTY)]], [FULL_SERVICE])
  }

  lemma MisattributingTries(p: Problem, tier: string)
    requires tier in p.config.path + [p.startTier]
    ensures Try(MisattributingWorld(p), 0, tier) == Some(Served(REFUSAL, FIRST.id))
    ensures Try(MisattributingWorld(p), 1, tier) == Some(Served(EMPTY, SECOND.id))
  {
    var w := MisattributingWorld(p);
    assert ModelsFor(w, tier) == [FIRST, SECOND];
    assert Serves([FIRST, SECOND], w.registry, CallsFor(w, 0), 0);
    var calls := CallsFor(w, 1);
    assert calls == [None, Some(EMPTY)] && Answer(calls, 1) == Some(EMPTY);
    assert TryFrom([FIRST, SECOND], w.registry, calls, 1) == Some(Served(EMPTY, SECOND.id));
    assert TryFrom([FIRST, SECOND], w.registry, calls, 0) == TryFrom([FIRST, SECOND], w.registry, calls, 1);
  }

  lemma MisattributingLog(p: Problem, next: string)
    requires p.config.enabled && p.config.maxEscalations > 1 && NextTier(p.config, p.startTier) == Some(next)
    requires MovesAvailable(p.config, p.startTier, 1)
    ensures Log(p, MisattributingWorld(p)) ==
            [Attempt(p.startTier, Some(Served(REFUSAL, FIRST.id))), Attempt(next, Some(Served(EMPTY, SECOND.id)))]
  {
    var w := MisattributingWorld(p);
    MisattributingTries(p, p.startTier);
    MisattributingTries(p, next);
    var first := Attempt(p.startTier, Some(Served(REFUSAL, FIRST.id)));
    var second := Attempt(next, Some(Served(EMPTY, SECOND.id)));
    assert Move(p, w, 0, first) == Some(next) && Move(p, w, 1, second) == None;
    AttemptsUnfold(p, w, 0, p.startTier);
    AttemptsUnfold(p, w, 1, next);
  }

  /** One available move is enough, when the limit leaves the second attempt open to rejection. */
  lemma SecondAttemptCanMisattribute(p: Problem)
    requires p.config.enabled && p.config.maxEscalations > 1 && MovesAvailable(p.config, p.startTier, 1)
    ensures !NamesProducer(p, MisattributingWorld(p))
  {
    var w := MisattributingWorld(p);
    var log := Log(p, w);
    MisattributingLog(p, NextTier(p.config, p.startTier).value);
    RunMatchesLog(p, w);
    LastModelOfShortLog(log);
    assert EarliestBest(p, log, 0) && IsReturned(p, log, 0);
  }

  /** The reported model gave the returned response in every world exactly when escalation is
      disabled, limited to one move, or impossible from the start tier. A configuration in which only
      one move is possible is not enough if more are permitted: the tier it leads to is not the last
      word, since its rejected answer is still the last model heard of. */
  lemma NamesProducerIff(p: Problem)
    ensures (forall w :: NamesProducer(p, w))
       <==> (!p.config.enabled || p.config.maxEscalations <= 1 || !MovesAvailable(p.config, p.startTier, 1))
  {
    if p.config.enabled && p.config.maxEscalations > 1 && MovesAvailable(p.config, p.startTier, 1) {
      SecondAttemptCanMisattribute(p);
    } else {
      forall w ensures NamesProducer(p, w) { FewAttemptsNameProducer(p, w); }
    }
  }
}
