/** Properties of the scoring formula. */
module ScoringTheorems {
  import opened Basics
  import opened Scoring
  import opened Summation

  ghost predicate NonNegative(criteria: seq<Criterion>) {
    forall c :: c in criteria ==> c.weight >= 0.0
  }

  /** Neither the score nor the status depends on the order of the criteria. */
  lemma ScoreIgnoresOrder(a: seq<Criterion>, b: seq<Criterion>, results: Results, partialEvaluation: bool)
    requires multiset(a) == multiset(b)
    ensures Score(a, results, partialEvaluation) == Score(b, results, partialEvaluation)
  {
    SumIgnoresOrder(a, b, Weight());
    SumIgnoresOrder(a, b, AssessableWeight(results));
    SumIgnoresOrder(a, b, NonAssessableWeight(results));
    SumIgnoresOrder(a, b, WeightedValue(results));
  }

  function ScaledCriterion(c: Criterion, k: real): Criterion {
    c.(weight := k * c.weight)
  }

  function Scaled(criteria: seq<Criterion>, k: real): (scaled: seq<Criterion>)
    ensures |scaled| == |criteria|
    ensures forall i :: 0 <= i < |criteria| ==> scaled[i] == ScaledCriterion(criteria[i], k)
  {
    seq(|criteria|, i requires 0 <= i < |criteria| => ScaledCriterion(criteria[i], k))
  }

  lemma ScaledInit(criteria: seq<Criterion>, k: real)
    requires criteria != []
    ensures Scaled(criteria, k)[..|criteria| - 1] == Scaled(criteria[..|criteria| - 1], k)
  {}

  /** Scaling one criterion's weight scales its measure. */
  ghost predicate ScalesWith(k: real, f: Criterion -> real, c: Criterion) {
    IsMultiple(k, f(c), f(ScaledCriterion(c, k)))
  }

  ghost predicate IsMultiple(k: real, x: real, y: real) {
    y == k * x
  }

  lemma AddMultiples(k: real, x: real, v: real, y: real, w: real)
    requires IsMultiple(k, x, y) && IsMultiple(k, v, w)
    ensures IsMultiple(k, x + v, y + w)
  {
    Distribute(k, x, v);
  }

  lemma {:induction false} SumScales(criteria: seq<Criterion>, k: real, f: Criterion -> real)
    requires forall c :: c in criteria ==> ScalesWith(k, f, c)
    ensures IsMultiple(k, SumOf(criteria, f), SumOf(Scaled(criteria, k), f))
  {
    if criteria != [] {
      var n := |criteria| - 1;
      var init, last := criteria[..n], criteria[n];
      SumScales(init, k, f);
      ScaledInit(criteria, k);
      assert ScalesWith(k, f, last);
      AddMultiples(k, SumOf(init, f), f(last), SumOf(Scaled(init, k), f), f(ScaledCriterion(last, k)));
    }
  }

  lemma Distribute(k: real, x: real, y: real)
    ensures k * (x + y) == k * x + k * y
  {}

  lemma RatioScales(a: real, b: real, k: real)
    requires k > 0.0 && b != 0.0
    ensures k * b != 0.0 && (k * a) / (k * b) == a / b
  {
    var q := a / b;
    assert q * b == a;
    assert q * (k * b) == k * a;
  }

  lemma WeightedValueScales(results: Results, k: real, c: Criterion)
    ensures ScalesWith(k, WeightedValue(results), c)
  {
    if Assessable(results, c) {
      var v := ScoreValue(results[c.id].verdict);
      assert (k * c.weight) * v == k * (c.weight * v);
    }
  }

  ghost predicate SumsScale(k: real, s: Sums, s': Sums) {
    && IsMultiple(k, s.total, s'.total) && IsMultiple(k, s.assessable, s'.assessable)
    && IsMultiple(k, s.nonAssessable, s'.nonAssessable) && IsMultiple(k, s.weighted, s'.weighted)
  }

  lemma TotalScales(criteria: seq<Criterion>, k: real)
    ensures IsMultiple(k, SumOf(criteria, Weight()), SumOf(Scaled(criteria, k), Weight()))
  {
    SumScales(criteria, k, Weight());
  }

  lemma AssessableScales(criteria: seq<Criterion>, k: real, results: Results)
    ensures IsMultiple(k, SumOf(criteria, AssessableWeight(results)), SumOf(Scaled(criteria, k), AssessableWeight(results)))
  {
    SumScales(criteria, k, AssessableWeight(results));
  }

  lemma NonAssessableScales(criteria: seq<Criterion>, k: real, results: Results)
    ensures IsMultiple(k, SumOf(criteria, NonAssessableWeight(results)), SumOf(Scaled(criteria, k), NonAssessableWeight(results)))
  {
    SumScales(criteria, k, NonAssessableWeight(results));
  }

  lemma WeightedScales(criteria: seq<Criterion>, k: real, results: Results)
    ensures IsMultiple(k, SumOf(criteria, WeightedValue(results)), SumOf(Scaled(criteria, k), WeightedValue(results)))
  {
    forall c | c in criteria ensures ScalesWith(k, WeightedValue(results), c) {
      WeightedValueScales(results, k, c);
    }
    SumScales(criteria, k, WeightedValue(results));
  }

  lemma SumsOfScaled(criteria: seq<Criterion>, k: real, results: Results)
    ensures SumsScale(k, SumsOf(criteria, results), SumsOf(Scaled(criteria, k), results))
  {
    TotalScales(criteria, k);
    AssessableScales(criteria, k, results);
    NonAssessableScales(criteria, k, results);
    WeightedScales(criteria, k, results);
  }

  /** The formula only looks at two ratios and at whether they exist. */
  lemma FormulaSeesRatios(s: Sums, s': Sums, policyFails: bool, failRatio: real, partialEvaluation: bool)
    requires (s.total > 0.0 <==> s'.total > 0.0) && (s.assessable == 0.0 <==> s'.assessable == 0.0)
    requires s.total > 0.0 ==> s'.nonAssessable / s'.total == s.nonAssessable / s.total
    requires s.assessable != 0.0 ==> s'.weighted / s'.assessable == s.weighted / s.assessable
    ensures ScoreFromSums(s', policyFails, failRatio, partialEvaluation) == ScoreFromSums(s, policyFails, failRatio, partialEvaluation)
  {}

  lemma FormulaIgnoresScale(k: real, s: Sums, s': Sums, policyFails: bool, failRatio: real, partialEvaluation: bool)
    requires k > 0.0 && SumsScale(k, s, s')
    ensures ScoreFromSums(s', policyFails, failRatio, partialEvaluation) == ScoreFromSums(s, policyFails, failRatio, partialEvaluation)
  {
    ProductSign(k, s.total);
    ProductSign(k, s.assessable);
    if s.total > 0.0 {
      RatioScales(s.nonAssessable, s.total, k);
    }
    if s.assessable != 0.0 {
      RatioScales(s.weighted, s.assessable, k);
    }
    FormulaSeesRatios(s, s', policyFails, failRatio, partialEvaluation);
  }

  /** Multiplying every weight by the same positive factor changes nothing. */
  lemma ScoreIgnoresScale(criteria: seq<Criterion>, k: real, results: Results, partialEvaluation: bool)
    requires k > 0.0
    ensures Score(Scaled(criteria, k), results, partialEvaluation) == Score(criteria, results, partialEvaluation)
  {
    SumsOfScaled(criteria, k, results);
    FormulaIgnoresScale(k, SumsOf(criteria, results), SumsOf(Scaled(criteria, k), results),
                        PolicyFails(results), ImplementationFailRatio(results), partialEvaluation);
  }

  lemma ProductSign(k: real, x: real)
    requires k > 0.0
    ensures k * x > 0.0 <==> x > 0.0
    ensures k * x == 0.0 <==> x == 0.0
  {
    if x > 0.0 { assert k * x > 0.0; } else if x < 0.0 { assert k * (-x) > 0.0; }
  }

  // ----- Range and exact status -----

  /** The three weight sums, the weighted sum and how they bound each other. */
  lemma SumsAreConsistent(criteria: seq<Criterion>, results: Results)
    requires NonNegative(criteria)
    ensures SumOf(criteria, Weight()) == SumOf(criteria, AssessableWeight(results)) + SumOf(criteria, NonAssessableWeight(results))
    ensures SumOf(criteria, NonAssessableWeight(results)) >= 0.0
    ensures 0.0 <= SumOf(criteria, WeightedValue(results)) <= SumOf(criteria, AssessableWeight(results))
  {
    SumsAdd(criteria, AssessableWeight(results), NonAssessableWeight(results), Weight());
    ZeroSum(criteria);
    SumsCompare(criteria, Zero(), NonAssessableWeight(results));
    SumsCompare(criteria, Zero(), WeightedValue(results));
    SumsCompare(criteria, WeightedValue(results), AssessableWeight(results));
  }

  function Zero(): Criterion -> real {
    (c: Criterion) => 0.0
  }

  lemma {:induction false} ZeroSum(criteria: seq<Criterion>)
    ensures SumOf(criteria, Zero()) == 0.0
  {
    if criteria != [] { ZeroSum(criteria[..|criteria| - 1]); }
  }

  lemma ScoreInRange(criteria: seq<Criterion>, results: Results, partialEvaluation: bool)
    requires NonNegative(criteria)
    ensures 0.0 <= Score(criteria, results, partialEvaluation).0 <= 1.0
  {
    SumsAreConsistent(criteria, results);
    var assessable, weighted := SumOf(criteria, AssessableWeight(results)), SumOf(criteria, WeightedValue(results));
    if assessable > 0.0 {
      RatioAtLeast(weighted, assessable, 0.0);
      RatioAtMost(weighted, assessable, 1.0);
    }
  }

  lemma FailRatioAboveQuarter(results: Results)
    ensures ImplementationFailRatio(results) > 0.25 <==> 4 * |ImplementationFails(results)| > |ImplementationResults(results)|
  {
    var total, fails := |ImplementationResults(results)|, |ImplementationFails(results)|;
    assert ImplementationFails(results) <= ImplementationResults(results);
    if total == 0 {
      assert ImplementationResults(results) == {};
      assert ImplementationFails(results) == {};
    } else {
      RatioAtMost(fails as real, total as real, 0.25);
    }
  }

  /** Enough of the weight could be assessed, and no more than a quarter of the implementation
      criteria failed: what every status other than the two forced ones presupposes. */
  ghost predicate Scorable(criteria: seq<Criterion>, results: Results) {
    SumOf(criteria, AssessableWeight(results)) > SumOf(criteria, NonAssessableWeight(results))
  }

  ghost predicate ImplementationHolds(results: Results) {
    4 * |ImplementationFails(results)| <= |ImplementationResults(results)|
  }

  /** The weighted sum reaches `share` of the assessable weight. */
  ghost predicate Reaches(criteria: seq<Criterion>, results: Results, share: real) {
    SumOf(criteria, WeightedValue(results)) >= share * SumOf(criteria, AssessableWeight(results))
  }

  /** Every status, exactly, without divisions or intermediate caps. */
  lemma StatusBySums(criteria: seq<Criterion>, results: Results, partialEvaluation: bool)
    requires NonNegative(criteria)
    ensures var status := Score(criteria, results, partialEvaluation).1;
            && (status == NotEnoughEvidence <==> !Scorable(criteria, results))
            && (status == PartialEvaluation <==> Scorable(criteria, results) && ImplementationHolds(results) && partialEvaluation)
            && (status == Compliant <==>
                 && Scorable(criteria, results) && ImplementationHolds(results) && !partialEvaluation
                 && !PolicyFails(results) && Reaches(criteria, results, 0.85))
            && (status == PartiallyCompliant <==>
                 && Scorable(criteria, results) && ImplementationHolds(results) && !partialEvaluation
                 && Reaches(criteria, results, 0.60) && (PolicyFails(results) || !Reaches(criteria, results, 0.85)))
            && (status == NonCompliant <==>
                 && Scorable(criteria, results)
                 && (!ImplementationHolds(results) || (!partialEvaluation && !Reaches(criteria, results, 0.60))))
  {
    SumsAreConsistent(criteria, results);
    FailRatioAboveQuarter(results);
    var total, assessable := SumOf(criteria, Weight()), SumOf(criteria, AssessableWeight(results));
    if total > 0.0 { RatioAtLeast(SumOf(criteria, NonAssessableWeight(results)), total, 0.50); }
    if assessable > 0.0 {
      RatioAtLeast(SumOf(criteria, WeightedValue(results)), assessable, 0.85);
      RatioAtLeast(SumOf(criteria, WeightedValue(results)), assessable, 0.60);
    }
  }

  // ----- Score and status by verdicts -----

  predicate HasVerdict(results: Results, c: Criterion, v: Verdict) {
    c.id in results && results[c.id].verdict == v
  }

  /** The weight of a criterion that has this verdict. */
  function WeightWith(results: Results, v: Verdict): Criterion -> real {
    (c: Criterion) => if HasVerdict(results, c, v) then c.weight else 0.0
  }

  function HalfWeightWith(results: Results, v: Verdict): Criterion -> real {
    (c: Criterion) => if HasVerdict(results, c, v) then 0.5 * c.weight else 0.0
  }

  /** The weight of a criterion that has a result other than the two that assess nothing. */
  function AssessedWeight(results: Results): Criterion -> real {
    (c: Criterion) =>
      if c.id in results && !HasVerdict(results, c, CannotAssess) && !HasVerdict(results, c, InsufficientEvidence) then c.weight else 0.0
  }

  ghost predicate SomePolicyFailed(results: Results) {
    exists id :: id in results && results[id] == CriterionResult("policy", Fail)
  }

  ghost predicate FewImplementationsFailed(results: Results) {
    4 * |set id | id in results && results[id] == CriterionResult("implementation", Fail)|
      <= |set id | id in results && results[id].category == "implementation"|
  }

  lemma {:induction false} HalfSum(criteria: seq<Criterion>, results: Results, v: Verdict)
    ensures SumOf(criteria, HalfWeightWith(results, v)) == 0.5 * SumOf(criteria, WeightWith(results, v))
  {
    if criteria != [] { HalfSum(criteria[..|criteria| - 1], results, v); }
  }

  lemma SumsByVerdict(criteria: seq<Criterion>, results: Results)
    ensures SumOf(criteria, WeightedValue(results))
         == SumOf(criteria, WeightWith(results, Pass)) + 0.5 * SumOf(criteria, WeightWith(results, Partial))
    ensures SumOf(criteria, AssessableWeight(results)) == SumOf(criteria, AssessedWeight(results))
  {
    SumsAdd(criteria, WeightWith(results, Pass), HalfWeightWith(results, Partial), WeightedValue(results));
    HalfSum(criteria, results, Partial);
    SumsCompare(criteria, AssessableWeight(results), AssessedWeight(results));
    SumsCompare(criteria, AssessedWeight(results), AssessableWeight(results));
  }

  lemma FloorsByVerdict(results: Results)
    ensures PolicyFails(results) <==> SomePolicyFailed(results)
    ensures ImplementationHolds(results) <==> FewImplementationsFailed(results)
  {
    assert PolicyFails(results) ==> exists id :: id in results && results[id] == CriterionResult("policy", Fail) by {
      if PolicyFails(results) {
        var id :| id in results && IsPolicyFail(results[id]);
        assert results[id] == CriterionResult("policy", Fail);
      }
    }
    assert SomePolicyFailed(results) ==> PolicyFails(results) by {
      if SomePolicyFailed(results) {
        var id :| id in results && results[id] == CriterionResult("policy", Fail);
        assert IsPolicyFail(results[id]);
      }
    }
    assert ImplementationFails(results) == set id | id in results && results[id] == CriterionResult("implementation", Fail);
    assert ImplementationResults(results) == set id | id in results && results[id].category == "implementation";
  }

  /** The score: with at most half of the weight assessed it is zero; otherwise it is the weight passed
      plus half the weight partially passed, over the weight assessed, and with a failed policy
      criterion at most 0.84. */
  lemma ScoreExactly(criteria: seq<Criterion>, results: Results, partialEvaluation: bool)
    requires NonNegative(criteria)
    ensures var score := Score(criteria, results, partialEvaluation).0;
            var passed, partially := SumOf(criteria, WeightWith(results, Pass)), SumOf(criteria, WeightWith(results, Partial));
            var assessed, total := SumOf(criteria, AssessedWeight(results)), SumOf(criteria, Weight());
            if 2.0 * assessed <= total then score == 0.0
            else
              assessed > 0.0 &&
              var uncapped := (passed + 0.5 * partially) / assessed;
              score == if SomePolicyFailed(results) then MinReal(0.84, uncapped) else uncapped
  {
    SumsAreConsistent(criteria, results);
    SumsByVerdict(criteria, results);
    FloorsByVerdict(results);
    var total := SumOf(criteria, Weight());
    if total > 0.0 { RatioAtLeast(SumOf(criteria, NonAssessableWeight(results)), total, 0.50); }
  }

  /** Every status, exactly, by the weights of the criteria passed, partially passed and assessed. */
  lemma StatusExactly(criteria: seq<Criterion>, results: Results, partialEvaluation: bool)
    requires NonNegative(criteria)
    ensures var status := Score(criteria, results, partialEvaluation).1;
            var reached := SumOf(criteria, WeightWith(results, Pass)) + 0.5 * SumOf(criteria, WeightWith(results, Partial));
            var assessed := SumOf(criteria, AssessedWeight(results));
            var scorable := 2.0 * assessed > SumOf(criteria, Weight());
            && (status == NotEnoughEvidence <==> !scorable)
            && (status == PartialEvaluation <==> scorable && FewImplementationsFailed(results) && partialEvaluation)
            && (status == Compliant <==>
                 && scorable && FewImplementationsFailed(results) && !partialEvaluation
                 && !SomePolicyFailed(results) && reached >= 0.85 * assessed)
            && (status == PartiallyCompliant <==>
                 && scorable && FewImplementationsFailed(results) && !partialEvaluation
                 && reached >= 0.60 * assessed && (SomePolicyFailed(results) || reached < 0.85 * assessed))
            && (status == NonCompliant <==>
                 && scorable
                 && (!FewImplementationsFailed(results) || (!partialEvaluation && reached < 0.60 * assessed)))
  {
    SumsAreConsistent(criteria, results);
    SumsByVerdict(criteria, results);
    FloorsByVerdict(results);
    StatusBySums(criteria, results, partialEvaluation);
  }

  // ----- Monotonicity -----

  function VerdictRank(v: Verdict): Option<nat> {
    match v
    case Fail => Some(0)
    case Partial => Some(1)
    case Pass => Some(2)
    case _ => None
  }

  predicate VerdictRaised(before: Verdict, after: Verdict) {
    || before == after
    || (VerdictRank(before).Some? && VerdictRank(after).Some? && VerdictRank(before).value <= VerdictRank(after).value)
  }

  /** The same criteria were judged, each at least as favourably along Fail, Partial, Pass. */
  ghost predicate Raised(before: Results, after: Results) {
    && before.Keys == after.Keys
    && forall id :: id in before ==>
         before[id].category == after[id].category && VerdictRaised(before[id].verdict, after[id].verdict)
  }

  function StatusRank(s: Status): int {
    match s
    case NonCompliant => 0
    case PartiallyCompliant => 1
    case PartialEvaluation => 1
    case Compliant => 2
    case NotEnoughEvidence => 0
  }

  lemma RaisingKeepsValue(before: Results, after: Results, c: Criterion)
    requires c.weight >= 0.0 && Raised(before, after)
    ensures WeightedValue(before)(c) <= WeightedValue(after)(c)
  {
    if Assessable(before, c) {
      var v, v' := ScoreValue(before[c.id].verdict), ScoreValue(after[c.id].verdict);
      assert v <= v';
      assert c.weight * (v' - v) >= 0.0;
    }
  }

  lemma RaisingKeepsWeights(criteria: seq<Criterion>, before: Results, after: Results)
    requires NonNegative(criteria) && Raised(before, after)
    ensures SumOf(criteria, AssessableWeight(before)) == SumOf(criteria, AssessableWeight(after))
    ensures SumOf(criteria, NonAssessableWeight(before)) == SumOf(criteria, NonAssessableWeight(after))
    ensures SumOf(criteria, WeightedValue(before)) <= SumOf(criteria, WeightedValue(after))
  {
    SumsCompare(criteria, AssessableWeight(before), AssessableWeight(after));
    SumsCompare(criteria, AssessableWeight(after), AssessableWeight(before));
    SumsCompare(criteria, NonAssessableWeight(before), NonAssessableWeight(after));
    SumsCompare(criteria, NonAssessableWeight(after), NonAssessableWeight(before));
    forall c | c in criteria ensures WeightedValue(before)(c) <= WeightedValue(after)(c) {
      RaisingKeepsValue(before, after, c);
    }
    SumsCompare(criteria, WeightedValue(before), WeightedValue(after));
  }

  lemma RaisingKeepsFloors(before: Results, after: Results)
    requires Raised(before, after)
    ensures PolicyFails(after) ==> PolicyFails(before)
    ensures ImplementationHolds(before) ==> ImplementationHolds(after)
  {
    if PolicyFails(after) {
      var id :| id in after && IsPolicyFail(after[id]);
      assert id in before && IsPolicyFail(before[id]);
    }
    assert ImplementationResults(before) == ImplementationResults(after);
    assert ImplementationFails(after) <= ImplementationFails(before);
    assert ImplementationFails(before) == ImplementationFails(after) + (ImplementationFails(before) - ImplementationFails(after));
  }

  /** Judging criteria more favourably never lowers the score and never worsens the status, through
      the weighting, the policy cap, the forced failure and the thresholds together. */
  lemma ScoreIsMonotone(criteria: seq<Criterion>, before: Results, after: Results, partialEvaluation: bool)
    requires NonNegative(criteria) && Raised(before, after)
    ensures var (score, status) := Score(criteria, before, partialEvaluation);
            var (score', status') := Score(criteria, after, partialEvaluation);
            && score <= score'
            && (status == NotEnoughEvidence <==> status' == NotEnoughEvidence)
            && StatusRank(status) <= StatusRank(status')
  {
    RaisingKeepsWeights(criteria, before, after);
    RaisingKeepsFloors(before, after);
    StatusBySums(criteria, before, partialEvaluation);
    StatusBySums(criteria, after, partialEvaluation);
    SumsAreConsistent(criteria, before);
    var assessable := SumOf(criteria, AssessableWeight(before));
    if assessable > 0.0 {
      QuotientsCompare(SumOf(criteria, WeightedValue(before)), SumOf(criteria, WeightedValue(after)), assessable);
    }
  }

  lemma QuotientsCompare(a: real, b: real, whole: real)
    requires whole > 0.0 && a <= b
    ensures a / whole <= b / whole
  {
    RatioAtMost(a, whole, b / whole);
    assert (b / whole) * whole == b;
  }

  /** An unfinished evaluation is never reported as compliant or partially compliant. */
  lemma PartialEvaluationIsNeverCompliant(criteria: seq<Criterion>, results: Results)
    ensures Score(criteria, results, true).1 in {NonCompliant, NotEnoughEvidence, PartialEvaluation}
  {}
}
