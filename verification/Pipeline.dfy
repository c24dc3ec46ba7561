/** The evaluation pipeline around scoring: rules resolve what they can, an LLM judges the rest and
    may become unavailable or run out of credit at any point, and the formatter reports. */
module Pipeline {
  import opened Scoring

  /** What the judging of one criterion comes to. */
  datatype JudgeOutcome = Judged(verdict: JudgeVerdict) | Unavailable | CreditExhausted

  type JudgeVerdict = v: Verdict | v in {Pass, Partial, Fail, CannotAssess} witness Pass

  function Ids(criteria: seq<Criterion>): set<string> {
    set c | c in criteria :: c.id
  }

  // ----- Layer 1: rules -----

  /** What the rules say about the i-th criterion; a rule that fails decides nothing. */
  function RuleVerdict(rules: seq<Verdict>, i: nat): Verdict {
    if i < |rules| then rules[i] else NeedsJudgment
  }

  function RuleResults(criteria: seq<Criterion>, rules: seq<Verdict>, n: nat): Results
    requires n <= |criteria|
  {
    if n == 0 then map[]
    else
      var c := criteria[n - 1];
      RuleResults(criteria, rules, n - 1)[c.id := CriterionResult(c.category, RuleVerdict(rules, n - 1))]
  }

  function NeedsFrom(criteria: seq<Criterion>, rules: seq<Verdict>, n: nat): seq<string>
    requires n <= |criteria|
  {
    if n == 0 then []
    else NeedsFrom(criteria, rules, n - 1) + if RuleVerdict(rules, n - 1).NeedsJudgment? then [criteria[n - 1].id] else []
  }

  datatype RulesState = RulesState(results: Results, needs: seq<string>, layer1Resolved: nat)

  function Rules(criteria: seq<Criterion>, rules: seq<Verdict>): RulesState {
    var needs := NeedsFrom(criteria, rules, |criteria|);
    RulesState(RuleResults(criteria, rules, |criteria|), needs, LayerOneResolved(criteria, rules, |criteria|))
  }

  function LayerOneResolved(criteria: seq<Criterion>, rules: seq<Verdict>, n: nat): (resolved: nat)
    requires n <= |criteria|
    ensures resolved + |NeedsFrom(criteria, rules, n)| == n
  {
    if n == 0 then 0
    else LayerOneResolved(criteria, rules, n - 1) + if RuleVerdict(rules, n - 1).NeedsJudgment? then 0 else 1
  }

  method RulesEngineNode(criteria: seq<Criterion>, rules: seq<Verdict>) returns (state: RulesState)
    ensures state == Rules(criteria, rules)
  {
    var results: Results, needs: seq<string>, layer1Resolved := map[], [], 0;
    for i := 0 to |criteria|
      invariant results == RuleResults(criteria, rules, i)
      invariant needs == NeedsFrom(criteria, rules, i)
      invariant layer1Resolved == LayerOneResolved(criteria, rules, i)
    {
      var verdict := RuleVerdict(rules, i);
      results := results[criteria[i].id := CriterionResult(criteria[i].category, verdict)];
      if verdict == NeedsJudgment {
        needs := needs + [criteria[i].id];
      } else {
        layer1Resolved := layer1Resolved + 1;
      }
    }
    state := RulesState(results, needs, layer1Resolved);
  }

  // ----- Layer 2: judgment -----

  function OutcomeAt(judge: seq<JudgeOutcome>, i: nat): JudgeOutcome {
    if i < |judge| then judge[i] else Unavailable
  }

  /** The category of the last criterion with this identifier. */
  function CategoryOf(criteria: seq<Criterion>, id: string): string {
    if criteria == [] then "unknown"
    else if criteria[|criteria| - 1].id == id then criteria[|criteria| - 1].category
    else CategoryOf(criteria[..|criteria| - 1], id)
  }

  function Judgment(category: string, outcome: JudgeOutcome): CriterionResult {
    match outcome
    case Judged(verdict) => CriterionResult(category, verdict)
    case Unavailable => CriterionResult(category, CannotAssess)
    case CreditExhausted => CriterionResult(category, Verdict.InsufficientEvidence)
  }

  /** The first `n` criteria that needed judgment, those without one marked as out of credit. */
  function FillUpTo(criteria: seq<Criterion>, needs: seq<string>, judged: Results, n: nat): Results
    requires n <= |needs|
  {
    if n == 0 then judged
    else
      var filled := FillUpTo(criteria, needs, judged, n - 1);
      var id := needs[n - 1];
      if id in filled then filled else filled[id := Judgment(CategoryOf(criteria, id), CreditExhausted)]
  }

  datatype JudgmentState = JudgmentState(judgments: Results, partialEvaluation: bool)

  function JudgeFrom(criteria: seq<Criterion>, needs: seq<string>, judge: seq<JudgeOutcome>, i: nat, judged: Results): JudgmentState
    requires i <= |needs|
    decreases |needs| - i
  {
    if i == |needs| then JudgmentState(judged, false)
    else if needs[i] !in Ids(criteria) then JudgeFrom(criteria, needs, judge, i + 1, judged)
    else if OutcomeAt(judge, i).CreditExhausted? then JudgmentState(FillUpTo(criteria, needs, judged, |needs|), true)
    else JudgeFrom(criteria, needs, judge, i + 1, judged[needs[i] := Judgment(CategoryOf(criteria, needs[i]), OutcomeAt(judge, i))])
  }

  method EvaluationNode(criteria: seq<Criterion>, needs: seq<string>, judge: seq<JudgeOutcome>)
    returns (state: JudgmentState, layer2Resolved: nat)
    ensures state == JudgeFrom(criteria, needs, judge, 0, map[])
    ensures layer2Resolved == |state.judgments|
  {
    var judged: Results, partialEvaluation := map[], false;
    for i := 0 to |needs|
      invariant !partialEvaluation
      invariant JudgeFrom(criteria, needs, judge, 0, map[]) == JudgeFrom(criteria, needs, judge, i, judged)
    {
      if needs[i] !in Ids(criteria) {
        continue;
      }
      var outcome := OutcomeAt(judge, i);
      if outcome == CreditExhausted {
        ghost var before := judged;
        partialEvaluation := true;
        for j := 0 to |needs|
          invariant judged == FillUpTo(criteria, needs, before, j)
        {
          if needs[j] !in judged {
            judged := judged[needs[j] := Judgment(CategoryOf(criteria, needs[j]), CreditExhausted)];
          }
        }
        return JudgmentState(judged, true), |judged|;
      }
      judged := judged[needs[i] := Judgment(CategoryOf(criteria, needs[i]), outcome)];
    }
    return JudgmentState(judged, partialEvaluation), |judged|;
  }

  // ----- The whole run -----

  datatype World = World(rules: seq<Verdict>, judge: seq<JudgeOutcome>)

  datatype Run = Run(rules: RulesState, judgments: Results, partialEvaluation: bool, layer2Resolved: nat,
                     merged: Results, score: real, status: Status)

  /** Layer 2 is skipped when the rules leave nothing to judge. */
  function LayerTwo(criteria: seq<Criterion>, needs: seq<string>, judge: seq<JudgeOutcome>): JudgmentState {
    if needs == [] then JudgmentState(map[], false) else JudgeFrom(criteria, needs, judge, 0, map[])
  }

  /** Judgments override rule results. */
  function RunPipeline(criteria: seq<Criterion>, w: World): Run {
    var rules := Rules(criteria, w.rules);
    var judged := LayerTwo(criteria, rules.needs, w.judge);
    var merged := rules.results + judged.judgments;
    var (score, status) := Score(criteria, merged, judged.partialEvaluation);
    Run(rules, judged.judgments, judged.partialEvaluation, |judged.judgments|, merged, score, status)
  }

  // ----- Formatting -----

  function OrderedResults(criteria: seq<Criterion>, results: Results, n: nat): seq<CriterionResult>
    requires n <= |criteria|
  {
    if n == 0 then []
    else OrderedResults(criteria, results, n - 1) + if criteria[n - 1].id in results then [results[criteria[n - 1].id]] else []
  }

  predicate PolicyRuleListed(results: Results, score: real) {
    PolicyFails(results) && score <= 0.84
  }

  predicate ImplementationRuleListed(results: Results) {
    var total := |ImplementationResults(results)|;
    total > 0 && |ImplementationFails(results)| as real / total as real > 0.25
  }

  datatype Report = Report(criteriaResults: seq<CriterionResult>, layer1Count: nat, layer2Count: nat,
                           policyRuleListed: bool, implementationRuleListed: bool)

  method OrderResults(criteria: seq<Criterion>, results: Results) returns (ordered: seq<CriterionResult>)
    ensures ordered == OrderedResults(criteria, results, |criteria|)
  {
    ordered := [];
    for i := 0 to |criteria|
      invariant ordered == OrderedResults(criteria, results, i)
    {
      if criteria[i].id in results {
        ordered := ordered + [results[criteria[i].id]];
      }
    }
  }

  method FormatterNode(criteria: seq<Criterion>, ruleResults: Results, judgments: Results, score: real) returns (report: Report)
    ensures report.criteriaResults == OrderedResults(criteria, ruleResults + judgments, |criteria|)
    ensures report.layer1Count == |ruleResults| && report.layer2Count == |judgments|
    ensures report.policyRuleListed == PolicyRuleListed(ruleResults + judgments, score)
    ensures report.implementationRuleListed == ImplementationRuleListed(ruleResults + judgments)
  {
    var all := ruleResults + judgments;
    var ordered := OrderResults(criteria, all);
    var policyFail := CheckPolicyFail(all);
    report := Report(ordered, |ruleResults|, |judgments|, policyFail && score <= 0.84, ImplementationRuleListed(all));
  }

  // ----- Graph -----

  datatype Node = Router | Discovery | Extractor | LoadCriteria | RulesEngine | Sandbox | CodeFixer | EvaluationStep | ScoringStep | Formatter | End

  /** What the routing functions read from the state after a node has run. */
  datatype Signals = Signals(intent: string, cached: bool, hasEvidence: bool, error: bool, needsJudgment: bool,
                             structuredNeed: bool, structuredEvidence: bool, sandboxOutput: bool, sandboxError: bool,
                             sandboxRetries: int, maxSandboxRetries: int)

  function NextNode(n: Node, s: Signals): Node {
    match n
    case Router => if s.intent == "evaluate" then Discovery else Formatter
    case Discovery => if s.cached then Formatter else if !s.hasEvidence && s.error then Formatter else Extractor
    case Extractor => LoadCriteria
    case LoadCriteria => RulesEngine
    case RulesEngine =>
      if !s.needsJudgment then ScoringStep
      else if s.structuredNeed && s.structuredEvidence then Sandbox else EvaluationStep
    case Sandbox =>
      if !s.sandboxOutput || (s.sandboxError && s.sandboxRetries < s.maxSandboxRetries) then CodeFixer else EvaluationStep
    case CodeFixer => EvaluationStep
    case EvaluationStep => ScoringStep
    case ScoringStep => Formatter
    case Formatter => End
    case End => End
  }

  /** A walk through the graph from its entry point, with whatever state each node leaves behind. */
  ghost predicate IsWalk(nodes: seq<Node>, signals: seq<Signals>) {
    && |nodes| >= 1 && |signals| >= |nodes| && nodes[0] == Router
    && forall i :: 0 <= i < |nodes| - 1 ==> nodes[i] != End && nodes[i + 1] == NextNode(nodes[i], signals[i])
  }
}
