/** Coverage, conservation and reporting over every run of the evaluation pipeline. */
module PipelineTheorems {
  import opened Basics
  import opened Scoring
  import opened Summation
  import opened ScoringTheorems
  import opened Pipeline

  // ----- Layer 1 -----

  lemma {:induction false} RulesCover(criteria: seq<Criterion>, rules: seq<Verdict>, n: nat)
    requires n <= |criteria|
    ensures RuleResults(criteria, rules, n).Keys == Ids(criteria[..n])
    ensures forall id :: id in NeedsFrom(criteria, rules, n) ==> id in Ids(criteria[..n])
    ensures forall id :: id in RuleResults(criteria, rules, n) && RuleResults(criteria, rules, n)[id].verdict.NeedsJudgment?
              ==> id in NeedsFrom(criteria, rules, n)
  {
    if n > 0 {
      RulesCover(criteria, rules, n - 1);
      assert criteria[..n] == criteria[..n - 1] + [criteria[n - 1]];
      assert Ids(criteria[..n]) == Ids(criteria[..n - 1]) + {criteria[n - 1].id};
    }
  }

  /** With distinct criteria, distinct criteria need judgment. */
  lemma {:induction false} NeedsAreDistinct(criteria: seq<Criterion>, rules: seq<Verdict>, n: nat)
    requires n <= |criteria| && forall i, j :: 0 <= i < j < |criteria| ==> criteria[i].id != criteria[j].id
    ensures Distinct(NeedsFrom(criteria, rules, n))
  {
    if n > 0 {
      NeedsAreDistinct(criteria, rules, n - 1);
      RulesCover(criteria, rules, n - 1);
      assert criteria[n - 1].id !in Ids(criteria[..n - 1]);
    }
  }

  // ----- Layer 2 -----

  function Members(ids: seq<string>): set<string> {
    set id | id in ids
  }

  ghost predicate Conclusive(results: Results) {
    forall id :: id in results ==> !results[id].verdict.NeedsJudgment?
  }

  lemma {:induction false} FillingCovers(criteria: seq<Criterion>, needs: seq<string>, judged: Results, n: nat)
    requires n <= |needs|
    ensures var filled := FillUpTo(criteria, needs, judged, n);
            && filled.Keys == judged.Keys + Members(needs[..n])
            && forall id :: id in filled ==>
                 filled[id] == if id in judged then judged[id] else Judgment(CategoryOf(criteria, id), CreditExhausted)
  {
    if n > 0 {
      FillingCovers(criteria, needs, judged, n - 1);
      assert needs[..n] == needs[..n - 1] + [needs[n - 1]];
      assert Members(needs[..n]) == Members(needs[..n - 1]) + {needs[n - 1]};
    } else {
      assert needs[..0] == [];
    }
  }

  lemma OneMoreMember(needs: seq<string>, i: nat)
    requires i < |needs|
    ensures Members(needs[..i + 1]) == Members(needs[..i]) + {needs[i]}
    ensures needs[i] in Members(needs) && Members(needs[..i]) <= Members(needs)
  {
    assert needs[..i + 1] == needs[..i] + [needs[i]];
  }

  lemma {:induction false} JudgingCovers(criteria: seq<Criterion>, needs: seq<string>, judge: seq<JudgeOutcome>, i: nat, judged: Results)
    requires i <= |needs| && Members(needs) <= Ids(criteria)
    requires judged.Keys == Members(needs[..i]) && Conclusive(judged)
    ensures JudgeFrom(criteria, needs, judge, i, judged).judgments.Keys == Members(needs)
    ensures Conclusive(JudgeFrom(criteria, needs, judge, i, judged).judgments)
    decreases |needs| - i
  {
    assert needs[..|needs|] == needs;
    if i < |needs| {
      OneMoreMember(needs, i);
      if OutcomeAt(judge, i).CreditExhausted? {
        FillingCovers(criteria, needs, judged, |needs|);
      } else {
        JudgingCovers(criteria, needs, judge, i + 1, judged[needs[i] := Judgment(CategoryOf(criteria, needs[i]), OutcomeAt(judge, i))]);
      }
    }
  }

  /** The position at which credit runs out, or `n` if it does not. */
  function ExhaustedAt(judge: seq<JudgeOutcome>, n: nat): (e: nat)
    ensures e <= n && (e < n ==> OutcomeAt(judge, e).CreditExhausted?)
    ensures forall j: nat :: j < e ==> !OutcomeAt(judge, j).CreditExhausted?
  {
    if n == 0 then 0
    else
      var e := ExhaustedAt(judge, n - 1);
      if e < n - 1 || !OutcomeAt(judge, n - 1).CreditExhausted? then (if e < n - 1 then e else n) else n - 1
  }

  /** The last of the first `n` positions at which the judge is handed this identifier. */
  function LastHanded(needs: seq<string>, id: string, n: nat): (last: Option<nat>)
    requires n <= |needs|
    ensures last.None? ==> id !in needs[..n]
    ensures last.Some? ==> last.value < n && needs[last.value] == id && forall j :: last.value < j < n ==> needs[j] != id
  {
    if n == 0 then None
    else if needs[n - 1] == id then Some(n - 1)
    else
      assert needs[..n] == needs[..n - 1] + [needs[n - 1]];
      LastHanded(needs, id, n - 1)
  }

  /** What a criterion handed to the judge ends up with when credit runs out at `e`. */
  function FinalJudgment(criteria: seq<Criterion>, needs: seq<string>, judge: seq<JudgeOutcome>, e: nat, id: string): CriterionResult
    requires e <= |needs|
  {
    Judgment(CategoryOf(criteria, id),
             match LastHanded(needs, id, e) case Some(j) => OutcomeAt(judge, j) case None => CreditExhausted)
  }

  /** The judgments after the first `n` identifiers, no credit having run out. */
  ghost predicate JudgedBefore(criteria: seq<Criterion>, needs: seq<string>, judge: seq<JudgeOutcome>, judged: Results, n: nat)
    requires n <= |needs|
  {
    && judged.Keys == Members(needs[..n])
    && forall id :: id in judged ==> judged[id] == FinalJudgment(criteria, needs, judge, n, id)
  }

  lemma HandedBefore(needs: seq<string>, id: string, n: nat)
    requires n <= |needs|
    ensures LastHanded(needs, id, n).None? <==> id !in Members(needs[..n])
  {
    var last := LastHanded(needs, id, n);
    if last.Some? { assert needs[..n][last.value] == id; }
  }

  lemma FillingIsExact(criteria: seq<Criterion>, needs: seq<string>, judge: seq<JudgeOutcome>, judged: Results, e: nat)
    requires e <= |needs| && JudgedBefore(criteria, needs, judge, judged, e)
    ensures var filled := FillUpTo(criteria, needs, judged, |needs|);
            forall id :: id in needs ==> id in filled && filled[id] == FinalJudgment(criteria, needs, judge, e, id)
  {
    var filled := FillUpTo(criteria, needs, judged, |needs|);
    FillingCovers(criteria, needs, judged, |needs|);
    assert needs[..|needs|] == needs;
    forall id | id in needs ensures id in filled && filled[id] == FinalJudgment(criteria, needs, judge, e, id) {
      assert id in Members(needs);
      HandedBefore(needs, id, e);
    }
  }

  lemma JudgingOneMore(criteria: seq<Criterion>, needs: seq<string>, judge: seq<JudgeOutcome>, judged: Results, i: nat)
    requires i < |needs| && JudgedBefore(criteria, needs, judge, judged, i)
    ensures JudgedBefore(criteria, needs, judge, judged[needs[i] := Judgment(CategoryOf(criteria, needs[i]), OutcomeAt(judge, i))], i + 1)
  {
    OneMoreMember(needs, i);
  }

  lemma JudgeUnfold(criteria: seq<Criterion>, needs: seq<string>, judge: seq<JudgeOutcome>, i: nat, judged: Results)
    requires i < |needs| && needs[i] in Ids(criteria) && !OutcomeAt(judge, i).CreditExhausted?
    ensures JudgeFrom(criteria, needs, judge, i, judged)
         == JudgeFrom(criteria, needs, judge, i + 1, judged[needs[i] := Judgment(CategoryOf(criteria, needs[i]), OutcomeAt(judge, i))])
  {}

  lemma {:induction false} JudgingExactly(criteria: seq<Criterion>, needs: seq<string>, judge: seq<JudgeOutcome>, i: nat, judged: Results)
    requires Members(needs) <= Ids(criteria) && i <= ExhaustedAt(judge, |needs|)
    requires JudgedBefore(criteria, needs, judge, judged, i)
    ensures var s := JudgeFrom(criteria, needs, judge, i, judged); var e := ExhaustedAt(judge, |needs|);
            (s.partialEvaluation <==> e < |needs|)
            && forall id :: id in needs ==> id in s.judgments && s.judgments[id] == FinalJudgment(criteria, needs, judge, e, id)
    decreases |needs| - i
  {
    if i < |needs| {
      assert needs[i] in Members(needs);
      if OutcomeAt(judge, i).CreditExhausted? {
        FillingIsExact(criteria, needs, judge, judged, i);
      } else {
        JudgingOneMore(criteria, needs, judge, judged, i);
        JudgeUnfold(criteria, needs, judge, i, judged);
        JudgingExactly(criteria, needs, judge, i + 1, judged[needs[i] := Judgment(CategoryOf(criteria, needs[i]), OutcomeAt(judge, i))]);
      }
    } else {
      AllJudged(criteria, needs, judge, judged);
    }
  }

  lemma AllJudged(criteria: seq<Criterion>, needs: seq<string>, judge: seq<JudgeOutcome>, judged: Results)
    requires JudgedBefore(criteria, needs, judge, judged, |needs|)
    ensures forall id :: id in needs ==> id in judged && judged[id] == FinalJudgment(criteria, needs, judge, |needs|, id)
  {
    assert needs[..|needs|] == needs;
  }

  // ----- Whole runs -----

  lemma NeedsAreKnown(criteria: seq<Criterion>, w: World)
    ensures var needs := Rules(criteria, w.rules).needs; Members(needs) <= Ids(criteria)
  {
    RulesCover(criteria, w.rules, |criteria|);
    assert criteria[..|criteria|] == criteria;
  }

  lemma LayerTwoCovers(criteria: seq<Criterion>, needs: seq<string>, judge: seq<JudgeOutcome>)
    requires Members(needs) <= Ids(criteria)
    ensures LayerTwo(criteria, needs, judge).judgments.Keys == Members(needs)
    ensures Conclusive(LayerTwo(criteria, needs, judge).judgments)
  {
    assert needs[..0] == [];
    JudgingCovers(criteria, needs, judge, 0, map[]);
  }

  /** Whatever the rules and the judge do, and even if criteria share identifiers: every criterion
      has a result, nothing else has one, and nothing is left waiting for judgment. */
  lemma EveryCriterionIsConcluded(criteria: seq<Criterion>, w: World)
    ensures var run := RunPipeline(criteria, w);
            run.merged.Keys == Ids(criteria) && Conclusive(run.merged) && run.judgments.Keys == Members(run.rules.needs)
  {
    RulesCover(criteria, w.rules, |criteria|);
    assert criteria[..|criteria|] == criteria;
    NeedsAreKnown(criteria, w);
    LayerTwoCovers(criteria, Rules(criteria, w.rules).needs, w.judge);
  }

  /** The two layers' counts add up to the number of criteria exactly when no identifier is handed
      to the judge twice, which distinct identifiers guarantee. */
  lemma LayerCountsAddUpIff(criteria: seq<Criterion>, w: World)
    ensures var run := RunPipeline(criteria, w);
            run.rules.layer1Resolved + run.layer2Resolved == |criteria| <==> Distinct(run.rules.needs)
    ensures (forall i, j :: 0 <= i < j < |criteria| ==> criteria[i].id != criteria[j].id)
              ==> Distinct(RunPipeline(criteria, w).rules.needs)
  {
    var run := RunPipeline(criteria, w);
    EveryCriterionIsConcluded(criteria, w);
    DistinctIffSetIsAsLarge(run.rules.needs);
    assert run.judgments.Keys == set id | id in run.rules.needs;
    assert |run.judgments| == |run.judgments.Keys|;
    if forall i, j :: 0 <= i < j < |criteria| ==> criteria[i].id != criteria[j].id {
      NeedsAreDistinct(criteria, w.rules, |criteria|);
    }
  }

  /** What each criterion handed to the judge ends up with: the judge's last word on it before the
      point where credit runs out, insufficient evidence if there is none. The run is partial exactly
      if there is such a point. */
  lemma JudgedUntilCreditRunsOut(criteria: seq<Criterion>, w: World)
    ensures var run := RunPipeline(criteria, w); var needs := run.rules.needs; var e := ExhaustedAt(w.judge, |needs|);
            && (run.partialEvaluation <==> e < |needs|)
            && forall id :: id in needs ==> id in run.merged && run.merged[id] == FinalJudgment(criteria, needs, w.judge, e, id)
  {
    NeedsAreKnown(criteria, w);
    LayerTwoIsExact(criteria, Rules(criteria, w.rules).needs, w.judge);
  }

  lemma LayerTwoIsExact(criteria: seq<Criterion>, needs: seq<string>, judge: seq<JudgeOutcome>)
    requires Members(needs) <= Ids(criteria)
    ensures var s := LayerTwo(criteria, needs, judge); var e := ExhaustedAt(judge, |needs|);
            (s.partialEvaluation <==> e < |needs|)
            && forall id :: id in needs ==> id in s.judgments && s.judgments[id] == FinalJudgment(criteria, needs, judge, e, id)
  {
    assert needs[..0] == [];
    JudgingExactly(criteria, needs, judge, 0, map[]);
  }

  /** Position `i` is the last one that carries this identifier. */
  ghost predicate IsLastWithId(criteria: seq<Criterion>, i: nat, id: string) {
    i < |criteria| && criteria[i].id == id && forall j :: i < j < |criteria| ==> criteria[j].id != id
  }

  lemma {:induction false} RuleResultAt(criteria: seq<Criterion>, rules: seq<Verdict>, n: nat, i: nat)
    requires i < n <= |criteria| && forall j :: i < j < n ==> criteria[j].id != criteria[i].id
    ensures criteria[i].id in RuleResults(criteria, rules, n)
    ensures RuleResults(criteria, rules, n)[criteria[i].id]
         == CriterionResult(criteria[i].category, if i < |rules| then rules[i] else NeedsJudgment)
    decreases n
  {
    if i < n - 1 { RuleResultAt(criteria, rules, n - 1, i); }
  }

  lemma {:induction false} NeedsAt(criteria: seq<Criterion>, rules: seq<Verdict>, n: nat, id: string)
    requires n <= |criteria|
    ensures id in NeedsFrom(criteria, rules, n) <==>
              exists i :: 0 <= i < n && criteria[i].id == id && (i >= |rules| || rules[i] == NeedsJudgment)
  {
    if n > 0 { NeedsAt(criteria, rules, n - 1, id); }
  }

  lemma {:induction false} CategoryOfLast(criteria: seq<Criterion>, i: nat)
    requires i < |criteria| && IsLastWithId(criteria, i, criteria[i].id)
    ensures CategoryOf(criteria, criteria[i].id) == criteria[i].category
    decreases |criteria|
  {
    if i < |criteria| - 1 { CategoryOfLast(criteria[..|criteria| - 1], i); }
  }

  /** An identifier is handed to the judge exactly if, somewhere, no rule decided a criterion that
      carries it. */
  lemma JudgedExactly(criteria: seq<Criterion>, w: World, id: string)
    ensures id in RunPipeline(criteria, w).rules.needs <==>
              exists i :: 0 <= i < |criteria| && criteria[i].id == id && (i >= |w.rules| || w.rules[i] == NeedsJudgment)
  {
    NeedsAt(criteria, w.rules, |criteria|, id);
  }

  ghost predicate Undecided(rules: seq<Verdict>, i: nat) {
    i >= |rules| || rules[i] == NeedsJudgment
  }

  ghost function UndecidedBefore(rules: seq<Verdict>, n: nat): set<nat> {
    set i: nat | i < n && Undecided(rules, i)
  }

  lemma {:induction false} HandedCount(criteria: seq<Criterion>, rules: seq<Verdict>, n: nat)
    requires n <= |criteria|
    ensures |NeedsFrom(criteria, rules, n)| == |UndecidedBefore(rules, n)|
  {
    if n == 0 {
      assert UndecidedBefore(rules, 0) == {};
    } else {
      HandedCount(criteria, rules, n - 1);
      if Undecided(rules, n - 1) {
        assert UndecidedBefore(rules, n) == UndecidedBefore(rules, n - 1) + {n - 1};
      } else {
        assert UndecidedBefore(rules, n) == UndecidedBefore(rules, n - 1);
      }
    }
  }

  lemma {:induction false} NeedsGrow(criteria: seq<Criterion>, rules: seq<Verdict>, n: nat, m: nat)
    requires n <= m <= |criteria|
    ensures NeedsFrom(criteria, rules, n) <= NeedsFrom(criteria, rules, m)
    decreases m
  {
    if n < m { NeedsGrow(criteria, rules, n, m - 1); }
  }

  /** The criteria that no rule decided are handed to the judge in order, each once per position, and
      the others are the ones counted as resolved. */
  lemma HandedInOrder(criteria: seq<Criterion>, rules: seq<Verdict>, i: nat)
    requires i < |criteria|
    ensures var state, n, k := Rules(criteria, rules), |UndecidedBefore(rules, |criteria|)|, |UndecidedBefore(rules, i)|;
            && |state.needs| == n && state.layer1Resolved == |criteria| - n
            && (Undecided(rules, i) ==> k < n && state.needs[k] == criteria[i].id)
  {
    HandedCount(criteria, rules, i);
    HandedCount(criteria, rules, |criteria|);
    NeedsGrow(criteria, rules, i + 1, |criteria|);
    if Undecided(rules, i) { HandedLast(criteria, rules, i); }
  }

  lemma HandedLast(criteria: seq<Criterion>, rules: seq<Verdict>, i: nat)
    requires i < |criteria| && Undecided(rules, i)
    ensures NeedsFrom(criteria, rules, i + 1) == NeedsFrom(criteria, rules, i) + [criteria[i].id]
  {}

  /** A criterion that the rules decided keeps its category and the rule's own verdict. */
  lemma RulesDecide(criteria: seq<Criterion>, w: World, i: nat)
    requires i < |criteria| && IsLastWithId(criteria, i, criteria[i].id)
    requires criteria[i].id !in RunPipeline(criteria, w).rules.needs
    ensures var run, id := RunPipeline(criteria, w), criteria[i].id;
            i < |w.rules| && id in run.merged && run.merged[id] == CriterionResult(criteria[i].category, w.rules[i])
  {
    RuleResultAt(criteria, w.rules, |criteria|, i);
    NeedsAt(criteria, w.rules, |criteria|, criteria[i].id);
    EveryCriterionIsConcluded(criteria, w);
    assert criteria[i].id !in Members(Rules(criteria, w.rules).needs);
  }

  /** The judge's outcomes up to the `e`-th, for the identifiers handed to it. */
  ghost predicate IsLastHanded(needs: seq<string>, j: nat, e: nat, id: string) {
    j < e <= |needs| && needs[j] == id && forall k :: j < k < e ==> needs[k] != id
  }

  /** A criterion handed to the judge keeps its category and the judge's last verdict on it before
      credit ran out; where the judge was unavailable it cannot be assessed, and what was not reached
      has insufficient evidence. */
  lemma JudgeDecides(criteria: seq<Criterion>, w: World, i: nat, e: nat)
    requires i < |criteria| && IsLastWithId(criteria, i, criteria[i].id)
    requires var needs := RunPipeline(criteria, w).rules.needs;
             && criteria[i].id in needs && e <= |needs|
             && (forall k: nat :: k < e ==> k >= |w.judge| || w.judge[k] != CreditExhausted)
             && (e < |needs| ==> e < |w.judge| && w.judge[e] == CreditExhausted)
    ensures var run, id := RunPipeline(criteria, w), criteria[i].id; var needs := run.rules.needs;
            && id in run.merged && run.merged[id].category == criteria[i].category
            && (id !in needs[..e] ==> run.merged[id].verdict == Verdict.InsufficientEvidence)
            && (forall j: nat :: IsLastHanded(needs, j, e, id) ==>
                 if j < |w.judge| && w.judge[j].Judged? then run.merged[id].verdict == w.judge[j].verdict
                 else run.merged[id].verdict == CannotAssess)
            && (run.partialEvaluation <==> e < |needs|)
  {
    var needs, id := RunPipeline(criteria, w).rules.needs, criteria[i].id;
    JudgedUntilCreditRunsOut(criteria, w);
    CategoryOfLast(criteria, i);
    ExhaustionIsUnique(w.judge, |needs|, e);
    if id !in needs[..e] { JudgmentOfUnreached(criteria, needs, w.judge, e, id); }
    forall j: nat | IsLastHanded(needs, j, e, id)
      ensures FinalJudgment(criteria, needs, w.judge, e, id).verdict
           == if j < |w.judge| && w.judge[j].Judged? then w.judge[j].verdict else CannotAssess
    {
      assert !OutcomeAt(w.judge, j).CreditExhausted?;
      JudgmentOfHanded(criteria, needs, w.judge, e, id, j);
    }
  }

  lemma JudgmentOfUnreached(criteria: seq<Criterion>, needs: seq<string>, judge: seq<JudgeOutcome>, e: nat, id: string)
    requires e <= |needs| && id !in needs[..e]
    ensures FinalJudgment(criteria, needs, judge, e, id).verdict == Verdict.InsufficientEvidence
  {
    HandedBefore(needs, id, e);
  }

  lemma JudgmentOfHanded(criteria: seq<Criterion>, needs: seq<string>, judge: seq<JudgeOutcome>, e: nat, id: string, j: nat)
    requires IsLastHanded(needs, j, e, id) && !OutcomeAt(judge, j).CreditExhausted?
    ensures FinalJudgment(criteria, needs, judge, e, id).verdict == if j < |judge| && judge[j].Judged? then judge[j].verdict else CannotAssess
  {
    assert needs[..e][j] == id;
    assert LastHanded(needs, id, e) == Some(j);
  }

  lemma ExhaustionIsUnique(judge: seq<JudgeOutcome>, n: nat, e: nat)
    requires e <= n && (forall k: nat :: k < e ==> k >= |judge| || judge[k] != CreditExhausted)
    requires e < n ==> e < |judge| && judge[e] == CreditExhausted
    ensures ExhaustedAt(judge, n) == e
  {
    var found := ExhaustedAt(judge, n);
    assert found < n ==> found < |judge| && judge[found] == CreditExhausted;
    assert e < n ==> OutcomeAt(judge, e).CreditExhausted?;
  }

  /** A run in which credit ran out is never reported compliant or partially compliant. */
  lemma ExhaustionIsNeverCompliant(criteria: seq<Criterion>, w: World)
    requires ExhaustedAt(w.judge, |Rules(criteria, w.rules).needs|) < |Rules(criteria, w.rules).needs|
    ensures RunPipeline(criteria, w).status in {NonCompliant, NotEnoughEvidence, PartialEvaluation}
  {
    JudgedUntilCreditRunsOut(criteria, w);
    PartialEvaluationIsNeverCompliant(criteria, RunPipeline(criteria, w).merged);
  }

  // ----- Reporting -----

  /** The formatter's two floor rules, recomputed from the merged results: the policy rule is listed
      exactly for runs with a failed policy criterion, the implementation rule exactly above a
      quarter of failures, and then the status is non-compliant or undecided. */
  lemma FloorRulesAreReported(criteria: seq<Criterion>, w: World)
    requires NonNegative(criteria)
    ensures var run := RunPipeline(criteria, w);
            && (PolicyRuleListed(run.merged, run.score) <==> SomePolicyFailed(run.merged))
            && (ImplementationRuleListed(run.merged) <==> !FewImplementationsFailed(run.merged))
            && (ImplementationRuleListed(run.merged) ==> run.status in {NonCompliant, NotEnoughEvidence})
  {
    var run := RunPipeline(criteria, w);
    FailRatioAboveQuarter(run.merged);
    assert ImplementationFails(run.merged) <= ImplementationResults(run.merged);
    FloorsByVerdict(run.merged);
    StatusBySums(criteria, run.merged, run.partialEvaluation);
  }

  /** The policy cap changed the score exactly when a policy criterion failed and the uncapped
      score was above the cap; a listed cap may have changed nothing. */
  lemma ListedCapLoweredScoreIff(criteria: seq<Criterion>, results: Results, partialEvaluation: bool)
    requires NonNegative(criteria) && 2.0 * SumOf(criteria, AssessedWeight(results)) > SumOf(criteria, Weight())
    ensures var assessed := SumOf(criteria, AssessedWeight(results));
            var reached := SumOf(criteria, WeightWith(results, Pass)) + 0.5 * SumOf(criteria, WeightWith(results, Partial));
            && assessed > 0.0
            && ((Score(criteria, results, partialEvaluation).0 != reached / assessed) <==> (SomePolicyFailed(results) && reached > 0.84 * assessed))
  {
    ScoreExactly(criteria, results, partialEvaluation);
    RatioAtMost(SumOf(criteria, WeightWith(results, Pass)) + 0.5 * SumOf(criteria, WeightWith(results, Partial)),
                SumOf(criteria, AssessedWeight(results)), 0.84);
  }

  lemma {:induction false} OrderedIsComplete(criteria: seq<Criterion>, results: Results, n: nat)
    requires n <= |criteria| && Ids(criteria) <= results.Keys
    ensures |OrderedResults(criteria, results, n)| == n
    ensures forall i :: 0 <= i < n ==> criteria[i].id in results && OrderedResults(criteria, results, n)[i] == results[criteria[i].id]
  {
    if n > 0 {
      OrderedIsComplete(criteria, results, n - 1);
      assert criteria[n - 1] in criteria && criteria[n - 1].id in Ids(criteria);
    }
  }

  /** The report lists one result per criterion, in the criteria's order. */
  lemma ReportIsComplete(criteria: seq<Criterion>, w: World)
    ensures var run := RunPipeline(criteria, w); var report := OrderedResults(criteria, run.merged, |criteria|);
            && |report| == |criteria|
            && forall i :: 0 <= i < |criteria| ==> criteria[i].id in run.merged && report[i] == run.merged[criteria[i].id]
  {
    EveryCriterionIsConcluded(criteria, w);
    OrderedIsComplete(criteria, RunPipeline(criteria, w).merged, |criteria|);
  }

  /** The report's count of criteria "resolved by rules" is the number of all criteria; it is the
      number the rules did resolve exactly when nothing needed judgment. */
  lemma ReportedRuleCountIsExactIff(criteria: seq<Criterion>, w: World)
    requires forall i, j :: 0 <= i < j < |criteria| ==> criteria[i].id != criteria[j].id
    ensures var run := RunPipeline(criteria, w);
            |run.rules.results| == |criteria| && (|run.rules.results| == run.rules.layer1Resolved <==> run.rules.needs == [])
  {
    RulesCover(criteria, w.rules, |criteria|);
    assert criteria[..|criteria|] == criteria;
    var ids := seq(|criteria|, i requires 0 <= i < |criteria| => criteria[i].id);
    assert Distinct(ids);
    DistinctIffSetIsAsLarge(ids);
    forall id ensures id in Ids(criteria) <==> id in ids {
      if id in Ids(criteria) {
        var i :| 0 <= i < |criteria| && criteria[i].id == id;
        assert ids[i] == id;
      }
      if id in ids {
        var i :| 0 <= i < |ids| && ids[i] == id;
        assert criteria[i] in criteria;
      }
    }
    assert Ids(criteria) == set id | id in ids;
    assert |RunPipeline(criteria, w).rules.results| == |RunPipeline(criteria, w).rules.results.Keys|;
  }

  // ----- Order of the nodes -----

  function NodeRank(n: Node): nat {
    match n
    case Router => 0
    case Discovery => 1
    case Extractor => 2
    case LoadCriteria => 3
    case RulesEngine => 4
    case Sandbox => 5
    case CodeFixer => 6
    case EvaluationStep => 7
    case ScoringStep => 8
    case Formatter => 9
    case End => 10
  }

  lemma {:induction false} RanksGrow(nodes: seq<Node>, signals: seq<Signals>, i: nat, j: nat)
    requires IsWalk(nodes, signals) && i < j < |nodes|
    ensures NodeRank(nodes[i]) + (j - i) <= NodeRank(nodes[j])
  {
    assert nodes[j] == NextNode(nodes[j - 1], signals[j - 1]);
    if i < j - 1 { RanksGrow(nodes, signals, i, j - 1); }
  }

  /** Every walk ends within eleven nodes and visits no node twice. */
  lemma WalksAreShort(nodes: seq<Node>, signals: seq<Signals>)
    requires IsWalk(nodes, signals)
    ensures |nodes| <= 11 && forall i, j :: 0 <= i < j < |nodes| ==> nodes[i] != nodes[j]
  {
    if |nodes| > 1 { RanksGrow(nodes, signals, 0, |nodes| - 1); }
    forall i, j | 0 <= i < j < |nodes| ensures nodes[i] != nodes[j] {
      RanksGrow(nodes, signals, i, j);
    }
  }

  lemma Predecessor(nodes: seq<Node>, signals: seq<Signals>, i: nat)
    requires IsWalk(nodes, signals) && 0 < i < |nodes|
    ensures nodes[i] == NextNode(nodes[i - 1], signals[i - 1])
  {}

  /** An evaluation step is always preceded by the rules engine, which left something to judge. */
  lemma EvaluationFollowsRules(nodes: seq<Node>, signals: seq<Signals>, i: nat) returns (r: nat)
    requires IsWalk(nodes, signals) && i < |nodes| && nodes[i] == EvaluationStep
    ensures r < i && nodes[r] == RulesEngine && signals[r].needsJudgment
  {
    r := i - 1;
    Predecessor(nodes, signals, i);
    if nodes[r] == CodeFixer {
      Predecessor(nodes, signals, r);
      r := r - 1;
    }
    if nodes[r] == Sandbox {
      Predecessor(nodes, signals, r);
      r := r - 1;
    }
  }

  /** A walk that scores has run the rules, and has run the evaluation step in between exactly when
      the rules left something to judge. */
  lemma ScoringFollowsRules(nodes: seq<Node>, signals: seq<Signals>, i: nat) returns (r: nat)
    requires IsWalk(nodes, signals) && i < |nodes| && nodes[i] == ScoringStep
    ensures r < i && nodes[r] == RulesEngine
    ensures signals[r].needsJudgment <==> EvaluationStep in nodes[r..i]
  {
    Predecessor(nodes, signals, i);
    if nodes[i - 1] == EvaluationStep {
      r := EvaluationFollowsRules(nodes, signals, i - 1);
      assert nodes[r..i][i - 1 - r] == EvaluationStep;
    } else {
      r := i - 1;
      assert nodes[r..i] == [RulesEngine];
    }
  }

  /** Where a walk goes from each node that has a choice, and that the other nodes have none. */
  lemma NextNodeExactly(nodes: seq<Node>, signals: seq<Signals>, i: nat)
    requires IsWalk(nodes, signals) && i + 1 < |nodes|
    ensures var n, next, s := nodes[i], nodes[i + 1], signals[i];
            && (n == Router ==> (next == Discovery <==> s.intent == "evaluate") && (next == Formatter <==> s.intent != "evaluate"))
            && (n == Discovery ==> (next == Extractor <==> !s.cached && (s.hasEvidence || !s.error)) && (next != Extractor ==> next == Formatter))
            && (n == Extractor ==> next == LoadCriteria) && (n == LoadCriteria ==> next == RulesEngine)
            && (n == RulesEngine ==>
                 && (next == ScoringStep <==> !s.needsJudgment)
                 && (next == Sandbox <==> s.needsJudgment && s.structuredNeed && s.structuredEvidence)
                 && (next == EvaluationStep <==> s.needsJudgment && !(s.structuredNeed && s.structuredEvidence)))
            && (n == Sandbox ==>
                 && (next == CodeFixer <==> !s.sandboxOutput || (s.sandboxError && s.sandboxRetries < s.maxSandboxRetries))
                 && (next != CodeFixer ==> next == EvaluationStep))
            && (n == CodeFixer ==> next == EvaluationStep) && (n == EvaluationStep ==> next == ScoringStep)
            && (n == ScoringStep ==> next == Formatter) && (n == Formatter ==> next == End)
  {
    assert nodes[i + 1] == NextNode(nodes[i], signals[i]);
  }

  /** A walk that has ended ran the rules exactly for a request to evaluate that had no cached result
      and either found evidence or met no error; otherwise it only formatted. */
  lemma RulesRunIff(nodes: seq<Node>, signals: seq<Signals>)
    requires IsWalk(nodes, signals) && nodes[|nodes| - 1] == End
    ensures RulesEngine in nodes <==>
              signals[0].intent == "evaluate" && !signals[1].cached && (signals[1].hasEvidence || !signals[1].error)
    ensures ScoringStep in nodes <==> RulesEngine in nodes
    ensures RulesEngine !in nodes ==> nodes == [Router, Formatter, End] || nodes == [Router, Discovery, Formatter, End]
  {
    Predecessor(nodes, signals, 1);
    if nodes[1] == Discovery {
      Predecessor(nodes, signals, 2);
      Predecessor(nodes, signals, 3);
      if nodes[2] == Extractor {
        Predecessor(nodes, signals, 4);
        assert nodes[4] == RulesEngine;
        ScoringIsReached(nodes, signals, 4);
      }
    } else {
      Predecessor(nodes, signals, 2);
    }
  }

  /** Once the rules have run, an ended walk has scored. */
  lemma {:induction false} ScoringIsReached(nodes: seq<Node>, signals: seq<Signals>, i: nat)
    requires IsWalk(nodes, signals) && nodes[|nodes| - 1] == End
    requires i < |nodes| && NodeRank(RulesEngine) <= NodeRank(nodes[i]) <= NodeRank(ScoringStep)
    ensures ScoringStep in nodes
    decreases |nodes| - i
  {
    if nodes[i] != ScoringStep {
      Predecessor(nodes, signals, i + 1);
      ScoringIsReached(nodes, signals, i + 1);
    }
  }
}
