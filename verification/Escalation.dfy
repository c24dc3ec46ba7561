/** The escalation loop of a completion request: try a tier, look at the answer, maybe move up. */
module Escalation {
  import opened Basics
  import opened Degradation
  import opened TierFallback

  datatype Config = Config(enabled: bool, maxEscalations: int, path: seq<string>)

  /** The parts of a completion request that the escalation checks read. */
  datatype Request = Request(threshold: Confidence, wantsJson: bool)

  datatype Decision = Decision(shouldEscalate: bool, confidence: Confidence)

  function Check(config: Config, request: Request, response: Response, count: int): Decision {
    if !config.enabled || count >= config.maxEscalations then Decision(false, response.extracted)
    else if response.empty then Decision(true, 0.0)
    else if response.refusal then Decision(true, 0.1)
    else if request.wantsJson && response.unparseable then Decision(true, 0.3)
    else Decision(request.threshold > 0.0 && response.extracted < request.threshold, response.extracted)
  }

  function IndexOf(path: seq<string>, tier: string): (idx: Option<nat>)
    ensures idx.None? ==> tier !in path
    ensures idx.Some? ==> idx.value < |path| && path[idx.value] == tier && tier !in path[..idx.value]
  {
    if path == [] then None
    else if path[0] == tier then Some(0)
    else match IndexOf(path[1..], tier)
      case None => None
      case Some(i) =>
        assert path[..i + 1] == [path[0]] + path[1..][..i];
        Some(i + 1)
  }

  function NextTier(config: Config, tier: string): Option<string> {
    match IndexOf(config.path, tier)
    case None => None
    case Some(i) => if i + 1 < |config.path| then Some(config.path[i + 1]) else None
  }

  /** What the request fixes once it is admitted and routed. */
  datatype Problem = Problem(config: Config, request: Request, startTier: string)

  /** Everything outside the request's control: the models of each tier, the preferred model and the
      provider answers at each attempt, and the tenant's degradation level when a move is considered,
      which other requests may change at any time. Attempts beyond a list find nothing. */
  datatype World = World(models: map<string, seq<Model>>, targets: seq<string>, registry: set<string>,
                         calls: seq<seq<Option<Response>>>, levels: seq<int>)

  function ModelsFor(w: World, tier: string): seq<Model> {
    if tier in w.models then w.models[tier] else []
  }

  function TargetFor(w: World, k: nat): string {
    if k < |w.targets| then w.targets[k] else ""
  }

  function CallsFor(w: World, k: nat): seq<Option<Response>> {
    if k < |w.calls| then w.calls[k] else []
  }

  function LevelAt(w: World, k: nat): int {
    if k < |w.levels| then w.levels[k] else QUEUED
  }

  function Try(w: World, k: nat, tier: string): Option<Served> {
    TryTier(ModelsFor(w, tier), TargetFor(w, k), w.registry, CallsFor(w, k))
  }

  datatype Attempt = Attempt(tier: string, served: Option<Served>)

  /** The tier the loop moves to after attempt number `k`, if it goes on. */
  function Move(p: Problem, w: World, k: nat, a: Attempt): Option<string> {
    match (a.served, NextTier(p.config, a.tier))
    case (_, None) => None
    case (None, Some(next)) =>
      if p.config.enabled && k < p.config.maxEscalations && next != "" && next in TiersForLevel(LevelAt(w, k))
      then Some(next) else None
    case (Some(served), Some(next)) =>
      if Check(p.config, p.request, served.response, k).shouldEscalate && k < p.config.maxEscalations
         && next in TiersForLevel(LevelAt(w, k))
      then Some(next) else None
  }

  /** The attempts made from `tier` on, when `k` have been made before. */
  function Attempts(p: Problem, w: World, k: nat, tier: string): (log: seq<Attempt>)
    ensures |log| >= 1
    decreases p.config.maxEscalations - k
  {
    var a := Attempt(tier, Try(w, k, tier));
    match Move(p, w, k, a)
    case None => [a]
    case Some(next) => [a] + Attempts(p, w, k + 1, next)
  }

  function Log(p: Problem, w: World): (log: seq<Attempt>)
    ensures |log| >= 1
  {
    Attempts(p, w, 0, p.startTier)
  }

  function Tiers(log: seq<Attempt>): (tiers: seq<string>)
    ensures |tiers| == |log|
    ensures forall i :: 0 <= i < |log| ==> tiers[i] == log[i].tier
  {
    seq(|log|, i requires 0 <= i < |log| => log[i].tier)
  }

  // ----- What the loop returns -----

  ghost predicate ServedAt(log: seq<Attempt>, i: nat) {
    i < |log| && log[i].served.Some?
  }

  ghost function DecisionAt(p: Problem, log: seq<Attempt>, i: nat): Decision
    requires ServedAt(log, i)
  {
    Check(p.config, p.request, log[i].served.value.response, i)
  }

  ghost predicate Accepted(p: Problem, log: seq<Attempt>)
    requires |log| >= 1
  {
    ServedAt(log, |log| - 1) && !DecisionAt(p, log, |log| - 1).shouldEscalate
  }

  /** Attempt `i` is the earliest one of greatest confidence, and that confidence is positive. */
  ghost predicate EarliestBest(p: Problem, log: seq<Attempt>, i: nat) {
    && ServedAt(log, i)
    && DecisionAt(p, log, i).confidence > 0.0
    && (forall j: nat :: j < i && ServedAt(log, j) ==> DecisionAt(p, log, j).confidence < DecisionAt(p, log, i).confidence)
    && (forall j: nat :: i < j && ServedAt(log, j) ==> DecisionAt(p, log, j).confidence <= DecisionAt(p, log, i).confidence)
  }

  ghost predicate IsBestSoFar(p: Problem, log: seq<Attempt>, best: Option<Response>, confidence: Confidence) {
    match best
    case None => confidence == 0.0 && forall i: nat :: ServedAt(log, i) ==> DecisionAt(p, log, i).confidence == 0.0
    case Some(response) =>
      exists i: nat :: EarliestBest(p, log, i) && response == log[i].served.value.response && confidence == DecisionAt(p, log, i).confidence
  }

  /** The response an accepting last attempt gave; otherwise the earliest of the most confident ones. */
  ghost predicate IsOutcome(p: Problem, log: seq<Attempt>, best: Option<Response>, confidence: Confidence)
    requires |log| >= 1
  {
    if Accepted(p, log)
    then best == Some(log[|log| - 1].served.value.response) && confidence == DecisionAt(p, log, |log| - 1).confidence
    else IsBestSoFar(p, log, best, confidence)
  }

  function LastModel(log: seq<Attempt>): string {
    if log == [] then ""
    else if log[|log| - 1].served.Some? then log[|log| - 1].served.value.modelId
    else LastModel(log[..|log| - 1])
  }

  /** The running best after one more attempt. */
  ghost function Better(p: Problem, k: nat, a: Attempt, best: Option<Response>, confidence: Confidence): (Option<Response>, Confidence) {
    if a.served.None? then (best, confidence)
    else
      var decision := Check(p.config, p.request, a.served.value.response, k);
      if decision.confidence > confidence then (Some(a.served.value.response), decision.confidence) else (best, confidence)
  }

  /** One more attempt leaves the earlier ones as they are. */
  lemma EarlierAttemptsStay(p: Problem, log: seq<Attempt>, a: Attempt, i: nat)
    requires i < |log|
    ensures ServedAt(log + [a], i) <==> ServedAt(log, i)
    ensures ServedAt(log, i) ==> DecisionAt(p, log + [a], i) == DecisionAt(p, log, i)
  {}

  lemma BestStays(p: Problem, log: seq<Attempt>, a: Attempt, i: nat)
    requires EarliestBest(p, log, i)
    requires a.served.Some? ==> DecisionAt(p, log + [a], |log|).confidence <= DecisionAt(p, log, i).confidence
    ensures EarliestBest(p, log + [a], i) && DecisionAt(p, log + [a], i) == DecisionAt(p, log, i)
  {
    forall j: nat | j < |log| ensures ServedAt(log + [a], j) <==> ServedAt(log, j) {
      EarlierAttemptsStay(p, log, a, j);
    }
    forall j: nat | ServedAt(log, j) ensures DecisionAt(p, log + [a], j) == DecisionAt(p, log, j) {
      EarlierAttemptsStay(p, log, a, j);
    }
  }

  lemma LastIsBest(p: Problem, log: seq<Attempt>, a: Attempt)
    requires a.served.Some? && DecisionAt(p, log + [a], |log|).confidence > 0.0
    requires forall j: nat :: ServedAt(log, j) ==> DecisionAt(p, log, j).confidence < DecisionAt(p, log + [a], |log|).confidence
    ensures EarliestBest(p, log + [a], |log|)
  {
    forall j: nat | j < |log| && ServedAt(log + [a], j)
      ensures DecisionAt(p, log + [a], j).confidence < DecisionAt(p, log + [a], |log|).confidence
    {
      EarlierAttemptsStay(p, log, a, j);
    }
  }

  lemma NothingIsBest(p: Problem, log: seq<Attempt>, a: Attempt)
    requires forall i: nat :: ServedAt(log, i) ==> DecisionAt(p, log, i).confidence == 0.0
    requires a.served.Some? ==> DecisionAt(p, log + [a], |log|).confidence == 0.0
    ensures forall i: nat :: ServedAt(log + [a], i) ==> DecisionAt(p, log + [a], i).confidence == 0.0
  {
    forall i: nat | ServedAt(log + [a], i) ensures DecisionAt(p, log + [a], i).confidence == 0.0 {
      if i < |log| { EarlierAttemptsStay(p, log, a, i); }
    }
  }

  /** Nothing served so far beats the confidence that is kept. */
  lemma KeptIsGreatest(p: Problem, log: seq<Attempt>, best: Option<Response>, confidence: Confidence)
    requires IsBestSoFar(p, log, best, confidence)
    ensures forall j: nat :: ServedAt(log, j) ==> DecisionAt(p, log, j).confidence <= confidence
  {
    if best.Some? {
      var i: nat :| EarliestBest(p, log, i) && confidence == DecisionAt(p, log, i).confidence;
      assert ServedAt(log, i);
    }
  }

  lemma BestSoFarStep(p: Problem, log: seq<Attempt>, a: Attempt, best: Option<Response>, confidence: Confidence)
    requires IsBestSoFar(p, log, best, confidence)
    ensures var (best', confidence') := Better(p, |log|, a, best, confidence); IsBestSoFar(p, log + [a], best', confidence')
  {
    if a.served.Some? && Check(p.config, p.request, a.served.value.response, |log|).confidence > confidence {
      KeptIsGreatest(p, log, best, confidence);
      LastIsBest(p, log, a);
    } else if best.Some? {
      var i: nat :| EarliestBest(p, log, i) && best.value == log[i].served.value.response && confidence == DecisionAt(p, log, i).confidence;
      BestStays(p, log, a, i);
    } else {
      NothingIsBest(p, log, a);
    }
  }

  lemma ExtendsLastModel(log: seq<Attempt>, a: Attempt)
    ensures LastModel(log + [a]) == if a.served.Some? then a.served.value.modelId else LastModel(log)
  {
    assert (log + [a])[..|log|] == log;
  }

  datatype Result = Result(path: seq<string>, tier: string, best: Option<Response>, confidence: Confidence, modelUsed: string)

  /** The loop from the state it has before an attempt; `|r.path|` moves have been made. */
  function Loop(p: Problem, w: World, r: Result): Result
    decreases p.config.maxEscalations - |r.path|
  {
    var k := |r.path|;
    var a := Attempt(r.tier, Try(w, k, r.tier));
    var move := Move(p, w, k, a);
    if a.served.None? then
      if move.None? then r else Loop(p, w, r.(path := r.path + [r.tier], tier := move.value))
    else
      var response := a.served.value.response;
      var decision := Check(p.config, p.request, response, k);
      var r' := r.(modelUsed := a.served.value.modelId);
      if !decision.shouldEscalate then r'.(best := Some(response), confidence := decision.confidence)
      else
        var r'' := if decision.confidence > r.confidence then r'.(best := Some(response), confidence := decision.confidence) else r';
        if move.None? then r'' else Loop(p, w, r''.(path := r.path + [r.tier], tier := move.value))
  }

  function Run(p: Problem, w: World): Result {
    Loop(p, w, Result([], p.startTier, None, 0.0, ""))
  }

  method EscalationLoop(p: Problem, w: World) returns (count: nat, result: Result)
    ensures result == Run(p, w) && count == |result.path|
  {
    count := 0;
    var path, tier: string, best: Option<Response>, confidence: Confidence, modelUsed := [], p.startTier, None, 0.0, "";
    while true
      invariant count == |path|
      invariant Run(p, w) == Loop(p, w, Result(path, tier, best, confidence, modelUsed))
      decreases p.config.maxEscalations - count
    {
      var served := TryTierModels(ModelsFor(w, tier), TargetFor(w, count), w.registry, CallsFor(w, count));
      if served.None? {
        if p.config.enabled && count < p.config.maxEscalations {
          var next := NextTier(p.config, tier);
          if next.Some? && next.value != "" && next.value in TiersForLevel(LevelAt(w, count)) {
            path, tier, count := path + [tier], next.value, count + 1;
            continue;
          }
        }
        break;
      }
      modelUsed := served.value.modelId;
      var decision := Check(p.config, p.request, served.value.response, count);
      if decision.confidence > confidence {
        best, confidence := Some(served.value.response), decision.confidence;
      }
      if !decision.shouldEscalate {
        best, confidence := Some(served.value.response), decision.confidence;
        break;
      }
      var next := NextTier(p.config, tier);
      if next.None? || count >= p.config.maxEscalations {
        break;
      }
      if next.value !in TiersForLevel(LevelAt(w, count)) {
        break;
      }
      path, tier, count := path + [tier], next.value, count + 1;
    }
    result := Result(path, tier, best, confidence, modelUsed);
  }

  // ----- The running best describes the whole log -----

  /** What `done` attempts leave behind: the loop's state `r` and what is still to come. */
  ghost predicate Describes(p: Problem, w: World, done: seq<Attempt>, r: Result) {
    && r.path == Tiers(done)
    && Log(p, w) == done + Attempts(p, w, |done|, r.tier)
    && IsBestSoFar(p, done, r.best, r.confidence)
    && r.modelUsed == LastModel(done)
  }

  ghost predicate IsResult(p: Problem, w: World, r: Result) {
    && r.path + [r.tier] == Tiers(Log(p, w))
    && IsOutcome(p, Log(p, w), r.best, r.confidence)
    && r.modelUsed == LastModel(Log(p, w))
  }

  lemma AttemptsUnfold(p: Problem, w: World, k: nat, tier: string)
    ensures var a := Attempt(tier, Try(w, k, tier));
            var move := Move(p, w, k, a);
            Attempts(p, w, k, tier) == if move.None? then [a] else [a] + Attempts(p, w, k + 1, move.value)
  {}

  /** The loop's state once the attempt made from `r` is over, on the way to tier `next`. */
  ghost function MovedOn(p: Problem, w: World, r: Result, next: string): Result {
    var a := Attempt(r.tier, Try(w, |r.path|, r.tier));
    var (best, confidence) := Better(p, |r.path|, a, r.best, r.confidence);
    Result(r.path + [r.tier], next, best, confidence, if a.served.Some? then a.served.value.modelId else r.modelUsed)
  }

  lemma LoopUnfold(p: Problem, w: World, r: Result)
    ensures var move := Move(p, w, |r.path|, Attempt(r.tier, Try(w, |r.path|, r.tier)));
            move.Some? ==> Loop(p, w, r) == Loop(p, w, MovedOn(p, w, r, move.value))
  {}

  lemma TiersAppend(log: seq<Attempt>, a: Attempt)
    ensures Tiers(log + [a]) == Tiers(log) + [a.tier]
  {}

  lemma LogAppend(p: Problem, w: World, done: seq<Attempt>, tier: string, next: string)
    requires Log(p, w) == done + Attempts(p, w, |done|, tier)
    requires Move(p, w, |done|, Attempt(tier, Try(w, |done|, tier))) == Some(next)
    ensures Log(p, w) == (done + [Attempt(tier, Try(w, |done|, tier))]) + Attempts(p, w, |done| + 1, next)
  {
    AttemptsUnfold(p, w, |done|, tier);
    ConcatAssociates(done, [Attempt(tier, Try(w, |done|, tier))], Attempts(p, w, |done| + 1, next));
  }

  lemma MoveKeepsDescription(p: Problem, w: World, done: seq<Attempt>, r: Result, next: string)
    requires Describes(p, w, done, r)
    requires Move(p, w, |done|, Attempt(r.tier, Try(w, |done|, r.tier))) == Some(next)
    ensures Describes(p, w, done + [Attempt(r.tier, Try(w, |done|, r.tier))], MovedOn(p, w, r, next))
  {
    var a := Attempt(r.tier, Try(w, |done|, r.tier));
    BestSoFarStep(p, done, a, r.best, r.confidence);
    ExtendsLastModel(done, a);
    TiersAppend(done, a);
    LogAppend(p, w, done, r.tier, next);
  }

  /** The loop's result when the attempt made from `r` is the last one. */
  ghost function Stopped(p: Problem, w: World, r: Result): Result {
    var a := Attempt(r.tier, Try(w, |r.path|, r.tier));
    if a.served.None? then r
    else
      var decision := Check(p.config, p.request, a.served.value.response, |r.path|);
      var (best, confidence) := Better(p, |r.path|, a, r.best, r.confidence);
      if decision.shouldEscalate then Result(r.path, r.tier, best, confidence, a.served.value.modelId)
      else Result(r.path, r.tier, Some(a.served.value.response), decision.confidence, a.served.value.modelId)
  }

  lemma LoopStops(p: Problem, w: World, r: Result)
    requires Move(p, w, |r.path|, Attempt(r.tier, Try(w, |r.path|, r.tier))).None?
    ensures Loop(p, w, r) == Stopped(p, w, r)
  {}

  lemma StoppedIsOutcome(p: Problem, w: World, done: seq<Attempt>, r: Result)
    requires r.path == Tiers(done) && r.modelUsed == LastModel(done)
    requires IsBestSoFar(p, done, r.best, r.confidence)
    ensures var log, s := done + [Attempt(r.tier, Try(w, |done|, r.tier))], Stopped(p, w, r);
            s.path == r.path && s.tier == r.tier && IsOutcome(p, log, s.best, s.confidence) && s.modelUsed == LastModel(log)
  {
    var a := Attempt(r.tier, Try(w, |done|, r.tier));
    BestSoFarStep(p, done, a, r.best, r.confidence);
    ExtendsLastModel(done, a);
  }

  lemma StopGivesResult(p: Problem, w: World, done: seq<Attempt>, r: Result)
    requires Describes(p, w, done, r)
    requires Move(p, w, |done|, Attempt(r.tier, Try(w, |done|, r.tier))).None?
    ensures IsResult(p, w, Loop(p, w, r))
  {
    LoopStops(p, w, r);
    StoppedIsOutcome(p, w, done, r);
    AttemptsUnfold(p, w, |done|, r.tier);
    TiersAppend(done, Attempt(r.tier, Try(w, |done|, r.tier)));
  }

  lemma {:induction false} LoopResult(p: Problem, w: World, done: seq<Attempt>, r: Result)
    requires Describes(p, w, done, r)
    ensures IsResult(p, w, Loop(p, w, r))
    decreases p.config.maxEscalations - |done|
  {
    var a := Attempt(r.tier, Try(w, |done|, r.tier));
    var move := Move(p, w, |done|, a);
    if move.None? {
      StopGivesResult(p, w, done, r);
    } else {
      MoveKeepsDescription(p, w, done, r, move.value);
      LoopUnfold(p, w, r);
      LoopResult(p, w, done + [a], MovedOn(p, w, r, move.value));
    }
  }

  /** What the loop computes step by step is what its log of attempts says: the path and final tier
      are the tiers tried in order, and the response is the accepted one or, failing that, the
      earliest of the most confident ones. */
  lemma RunMatchesLog(p: Problem, w: World)
    ensures IsResult(p, w, Run(p, w))
  {
    var r := Result([], p.startTier, None, 0.0, "");
    assert Describes(p, w, [], r);
    LoopResult(p, w, [], r);
  }
}
