/** Deterministic scoring: weighted score, floor rules and status thresholds. */
module Scoring {
  import opened Summation

  datatype Verdict = Pass | Partial | Fail | NeedsJudgment | CannotAssess | InsufficientEvidence

  datatype Status = Compliant | PartiallyCompliant | NonCompliant | NotEnoughEvidence | PartialEvaluation

  datatype Criterion = Criterion(id: string, category: string, weight: real)

  datatype CriterionResult = CriterionResult(category: string, verdict: Verdict)

  type Results = map<string, CriterionResult>

  const POLICY := "policy"
  const IMPLEMENTATION := "implementation"

  function ScoreValue(v: Verdict): real {
    match v
    case Pass => 1.0
    case Partial => 0.5
    case _ => 0.0
  }

  predicate Assessable(results: Results, c: Criterion) {
    c.id in results && !results[c.id].verdict.CannotAssess? && !results[c.id].verdict.InsufficientEvidence?
  }

  function Weight(): Criterion -> real {
    (c: Criterion) => c.weight
  }

  function AssessableWeight(results: Results): Criterion -> real {
    (c: Criterion) => if Assessable(results, c) then c.weight else 0.0
  }

  function NonAssessableWeight(results: Results): Criterion -> real {
    (c: Criterion) => if Assessable(results, c) then 0.0 else c.weight
  }

  function WeightedValue(results: Results): Criterion -> real {
    (c: Criterion) => if Assessable(results, c) then c.weight * ScoreValue(results[c.id].verdict) else 0.0
  }

  predicate IsPolicyFail(r: CriterionResult) {
    r.category == POLICY && r.verdict.Fail?
  }

  predicate PolicyFails(results: Results) {
    exists id :: id in results && IsPolicyFail(results[id])
  }

  function ImplementationResults(results: Results): set<string> {
    set id | id in results && results[id].category == IMPLEMENTATION
  }

  function ImplementationFails(results: Results): set<string> {
    set id | id in results && results[id].category == IMPLEMENTATION && results[id].verdict.Fail?
  }

  function ImplementationFailRatio(results: Results): real {
    var total := |ImplementationResults(results)|;
    if total == 0 then 0.0 else |ImplementationFails(results)| as real / total as real
  }

  datatype Sums = Sums(total: real, assessable: real, nonAssessable: real, weighted: real)

  function SumsOf(criteria: seq<Criterion>, results: Results): Sums {
    Sums(SumOf(criteria, Weight()), SumOf(criteria, AssessableWeight(results)),
         SumOf(criteria, NonAssessableWeight(results)), SumOf(criteria, WeightedValue(results)))
  }

  /** The formula, given the weight sums and what the floor rules look at. */
  function ScoreFromSums(s: Sums, policyFails: bool, failRatio: real, partialEvaluation: bool): (real, Status) {
    if s.total > 0.0 && s.nonAssessable / s.total >= 0.50 then (0.0, NotEnoughEvidence)
    else if s.assessable == 0.0 then (0.0, NotEnoughEvidence)
    else
      var raw := s.weighted / s.assessable;
      var score := if policyFails && raw > 0.84 then 0.84 else raw;
      if failRatio > 0.25 then (score, NonCompliant)
      else if partialEvaluation then (score, PartialEvaluation)
      else if score >= 0.85 then (score, Compliant)
      else if score >= 0.60 then (score, PartiallyCompliant)
      else (score, NonCompliant)
  }

  function Score(criteria: seq<Criterion>, results: Results, partialEvaluation: bool): (real, Status) {
    ScoreFromSums(SumsOf(criteria, results), PolicyFails(results), ImplementationFailRatio(results), partialEvaluation)
  }

  method CheckPolicyFail(results: Results) returns (fails: bool)
    ensures fails <==> PolicyFails(results)
  {
    var remaining := results.Keys;
    while remaining != {}
      invariant remaining <= results.Keys
      invariant forall id :: id in results && id !in remaining ==> !IsPolicyFail(results[id])
    {
      var id :| id in remaining;
      if results[id].category == POLICY && results[id].verdict == Fail {
        return true;
      }
      remaining := remaining - {id};
    }
    return false;
  }

  lemma CountStep(counted: set<string>, remaining: set<string>, id: string)
    requires id in remaining
    ensures |counted - (remaining - {id})| == |counted - remaining| + if id in counted then 1 else 0
  {
    assert counted - (remaining - {id}) == counted - remaining + if id in counted then {id} else {};
  }

  method CheckImplementationFailRatio(results: Results) returns (ratio: real)
    ensures ratio == ImplementationFailRatio(results)
  {
    var implTotal, implFail := 0, 0;
    var remaining := results.Keys;
    while remaining != {}
      invariant remaining <= results.Keys
      invariant implTotal == |ImplementationResults(results) - remaining|
      invariant implFail == |ImplementationFails(results) - remaining|
    {
      var id :| id in remaining;
      CountStep(ImplementationResults(results), remaining, id);
      CountStep(ImplementationFails(results), remaining, id);
      if results[id].category == IMPLEMENTATION {
        implTotal := implTotal + 1;
        if results[id].verdict == Fail {
          implFail := implFail + 1;
        }
      }
      remaining := remaining - {id};
    }
    assert ImplementationResults(results) - {} == ImplementationResults(results);
    assert ImplementationFails(results) - {} == ImplementationFails(results);
    if implTotal == 0 {
      return 0.0;
    }
    ratio := implFail as real / implTotal as real;
  }

  method AccumulateWeights(criteria: seq<Criterion>, results: Results) returns (total: real, assessable: real, nonAssessable: real)
    ensures total == SumOf(criteria, Weight())
    ensures assessable == SumOf(criteria, AssessableWeight(results)) && nonAssessable == SumOf(criteria, NonAssessableWeight(results))
  {
    assessable, total, nonAssessable := 0.0, 0.0, 0.0;
    for i := 0 to |criteria|
      invariant total == SumOf(criteria[..i], Weight())
      invariant assessable == SumOf(criteria[..i], AssessableWeight(results))
      invariant nonAssessable == SumOf(criteria[..i], NonAssessableWeight(results))
    {
      assert criteria[..i + 1][..i] == criteria[..i];
      total := total + criteria[i].weight;
      if !Assessable(results, criteria[i]) {
        nonAssessable := nonAssessable + criteria[i].weight;
      } else {
        assessable := assessable + criteria[i].weight;
      }
    }
    assert criteria[..|criteria|] == criteria;
  }

  method AccumulateScore(criteria: seq<Criterion>, results: Results) returns (weightedSum: real)
    ensures weightedSum == SumOf(criteria, WeightedValue(results))
  {
    weightedSum := 0.0;
    for i := 0 to |criteria|
      invariant weightedSum == SumOf(criteria[..i], WeightedValue(results))
    {
      assert criteria[..i + 1][..i] == criteria[..i];
      if !Assessable(results, criteria[i]) {
        continue;
      }
      weightedSum := weightedSum + criteria[i].weight * ScoreValue(results[criteria[i].id].verdict);
    }
    assert criteria[..|criteria|] == criteria;
  }

  method CalculateScore(criteria: seq<Criterion>, results: Results, partialEvaluation: bool) returns (score: real, status: Status)
    ensures (score, status) == Score(criteria, results, partialEvaluation)
  {
    var total, assessable, nonAssessable := AccumulateWeights(criteria, results);
    if total > 0.0 && nonAssessable / total >= 0.50 {
      return 0.0, NotEnoughEvidence;
    }
    if assessable == 0.0 {
      return 0.0, NotEnoughEvidence;
    }
    var weightedSum := AccumulateScore(criteria, results);
    score := weightedSum / assessable;
    var policyFail := CheckPolicyFail(results);
    if policyFail && score > 0.84 {
      score := 0.84;
    }
    var ratio := CheckImplementationFailRatio(results);
    if ratio > 0.25 {
      return score, NonCompliant;
    }
    if partialEvaluation {
      status := PartialEvaluation;
    } else if score >= 0.85 {
      status := Compliant;
    } else if score >= 0.60 {
      status := PartiallyCompliant;
    } else {
      status := NonCompliant;
    }
  }
}
