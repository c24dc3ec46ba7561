# Verified models of the OnPremAI control logic

OnPremAI is an AI layer for compliance work, made of small services. This project models the parts of
it that decide something and proves what those decisions guarantee over all inputs, all interleavings
and all runs:

* **LLM gateway.** A request reads its tenant's spend, gets a degradation level, is rejected or capped
  to a tier, runs a fallback and escalation loop, and is charged (`Degradation`, `Admission`,
  `AdmissionHistory`, `TierFallback`, `Escalation`, `EscalationTheorems`, `BudgetTracker`). Requests interleave at every
  suspension point; providers, the level during a request and midnight are unconstrained.
* **Evaluation pipeline.** Rules resolve some criteria, an LLM judges the rest and may run out of credit
  at any of them, scoring applies weights and floor rules, the formatter recomputes the floor rules
  (`Scoring`, `ScoringTheorems`, `Pipeline`, `PipelineTheorems`).
* **Observer.** A circuit breaker with a lazy cooldown and a rollback window, and a ladder of autonomy
  levels (`CircuitBreaker`, `SelfRegulation`).
* **Evaluation jobs.** Background jobs under a semaphore, as steps between suspension points (`Jobs`).
* **Loops and indexes that refine a plain specification.** `${NAME}` expansion (`EnvExpansion`), the
  testing-criteria index (`CriteriaIndex`), the user-state merge (`UserState`), canary metrics
  (`CanaryMetrics`).

Code that changes state is a class or a method with a loop, proved equal to a function of its inputs
or old state; the theorems are lemmas about those functions and about runs of them. For every such
function some theorem says what it amounts to without naming it: over the list of events or calls, by
positions and counts, or by the constants of the code. Oracles
(providers, rules, judge, environment, size of a document) are parameters. Money, weights, scores and
confidences are exact reals; clocks are integers.

## What the proofs say about the code

Several promises hold only under a condition. The code is modelled as it is, and the condition is
proved to be exact where the list says "exactly when":

* The daily limit is a soft limit. Spend stays below 95% of the limit plus one full cost per live
  request, that bound cannot be lowered, and the limit itself holds in every run exactly when the
  live requests cannot together cost more than a twentieth of it.
* The escalation loop may return a less confident response than it has seen: attempts that use up the
  escalations are accepted unchecked, and a low threshold accepts less than the fixed confidence given
  to refusals. The shipped configuration has this property for requests that start at the fast tier.
* `model_used`, by which the response is priced, names the last model that answered. It is always the
  model that gave the returned response exactly when escalation is disabled, limited to one move, or
  impossible from the start tier. One possible move is not harmless if the limit is higher.
* `cap_tier` restricts nothing at levels 3 and 4, although its comment says "level 0". Requests are
  rejected at those levels, but an admitted one can be overtaken: between its decision and the cap,
  a request that read yesterday's spend can set such a level. Some run leads there exactly when requests
  are served at all and cost something, even if only one is live at a time.
* The administrator's confidence threshold for a task is computed and then not passed on
  (llm-gateway/src/main.py:453-456 and 503). While escalation is possible, the checks decide as they
  would under it exactly when it is absent or no higher than the request's own.
* A rollback or a success recorded after the cooldown has elapsed, but before anyone has looked, is
  treated as if the breaker were still open.
* Neither a reset nor a closing success clears the rollback window, so the next rollback can trip the
  breaker again.
* Changes that are applied and not yet validated lower the success rate: a week without a single
  rollback can restrict the observer.
* With a daily limit of zero the change history is never cut, because the slice `[-0:]` is everything.
* For a finished job whose last write was accepted, polls and store agree exactly when saving its
  completed status and its result never failed; otherwise polls say completed for ever and the store failed.
* A job cancelled in the queue is reported as processing for ever, and it is the only kind of job that
  is reported so with nothing left to run. The number of "currently running" jobs includes the queue.
* The report's number of criteria "resolved by rules" is the number of all criteria.
* The report lists the policy cap whenever a policy criterion failed, even if the cap changed nothing.
* A framework whose name followed by a colon starts another's can be answered with the other's criteria.
* The canary's p95 is the slowest sample up to twenty samples, and one rank above the nearest-rank
  percentile whenever the count is a multiple of twenty.

## Model

| member | source | states |
|---|---|---|
| Admission.OverspendBound | llm-gateway/src/main.py:410-557 | In every interleaving of key computations, lookups, decisions, charges, failures and midnights, over any number of tenants, no tenant's spend on any day reaches 0.95·limit + N·maxCost, N being the number of requests of one tenant that can still be charged at any one time. A lookup that comes after midnight may find yesterday's spend, part of it or nothing. |
| Admission.BoundIsApproached | llm-gateway/src/main.py:410-557 | For every spend below the 95% mark some run ends exactly N full costs above it, so the bound is the least one. |
| Admission.LimitHoldsIff | llm-gateway/src/main.py:410-434 | The daily limit itself is respected in all runs exactly when N·maxCost is at most a twentieth of it. |
| Admission.RunsKeepInv | llm-gateway/src/main.py:410-557 | Every run keeps the invariant that spend plus the worst that the requests charging a day can still add stays below the bound, for every tenant and day. |
| Admission.ComputeKeyKeepsInv | llm-gateway/src/budget/tracker.py:108 | Computing the key of the lookup keeps the invariant: the request becomes a possible charge if less than 95% is spent. |
| Admission.LookupKeepsInv | llm-gateway/src/budget/tracker.py:109-112 | The lookup keeps the invariant, also when midnight passed since its key was computed: a request whose key is out of date has counted as a possible charge from midnight on. |
| Admission.DecideKeepsInv | llm-gateway/src/main.py:412-434 | Deciding keeps the invariant: exactly the requests below the mark stay, though spend may have risen since they read it. |
| Admission.BillKeepsInv | llm-gateway/src/budget/tracker.py:98 | Fixing the day a charge goes to keeps the invariant for that day and all others. |
| Admission.ChargeKeepsInv | llm-gateway/src/main.py:556-557 | Charging keeps the invariant, even when midnight passed after the ledger key was computed. |
| Admission.AbandonKeepsInv | llm-gateway/src/main.py:529-545 | A request that ends without a charge keeps the invariant. |
| Admission.NextDayKeepsInv | llm-gateway/src/budget/tracker.py:162-170 | Midnight keeps the invariant: the new day's ledger is empty and takes over the requests not yet billed, those with an outdated key included. |
| Admission.MeetsRejectingLevelIff | llm-gateway/src/main.py:410-443 | Some run ends with an admitted request, not yet capped, whose tenant is at a level at which LLM calls are rejected, exactly when at least one request may be live and requests may cost something. |
| AdmissionHistory.LedgerIsHistory | llm-gateway/src/main.py:411-557 | In every run every ledger holds exactly the costs charged to it, read off the list of events: a charge belongs to the tenant its request last started for, and to the day given by the midnights before the request was last billed. |
| AdmissionHistory.LevelIsLastDecision | llm-gateway/src/budget/degradation.py:87-96 | In every run a tenant is at the level, by the four thresholds, of the spend that its last decided request had seen, whether that request was admitted or rejected; no other request changes it. |
| AdmissionHistory.NextEventExactly | llm-gateway/src/main.py:410-557 | Which events may come next, in terms of the earlier events only: a decision after a lookup, a billing after a decision that saw less than 95%, a charge after a billing, and a lookup that sees exactly what has been charged today, or at most what had been on an earlier day. |
| AdmissionHistory.LiveExactly | llm-gateway/src/main.py:410-434 | The requests counted as live are exactly those admitted and those that some possible lookup still allows to be admitted. |
| Degradation.LevelThresholds | llm-gateway/src/budget/degradation.py:46-69 | Each level starts exactly at 70, 85, 95 and 100 percent of a positive limit. |
| Degradation.SpendIsAntitone | llm-gateway/src/budget/degradation.py:46-69 | More spend never lowers the level and never adds an allowed tier. |
| Degradation.CappedTierIsStrongestAllowed | llm-gateway/src/budget/degradation.py:116-142 | At levels 0 to 2 the capped tier is the unique strongest allowed tier that is no stronger than the requested one. |
| Degradation.CapIsIdentityWhenNothingIsAllowed | llm-gateway/src/budget/degradation.py:124-132 | Where no tier is allowed, or the tier is unknown, the cap leaves the request as it is. |
| Degradation.CapNeverStrongerIff | llm-gateway/src/budget/degradation.py:116-142 | Rising to a given spend never yields a stronger capped tier, from any smaller spend, exactly when that spend is below the 95% mark. |
| Degradation.DegradationManager.UpdateForSpend | llm-gateway/src/budget/degradation.py:87-96 | Only the named tenant's level changes; the new level rejects LLM calls exactly from 95% of a positive limit on. |
| Degradation.DegradationManager.CapTier | llm-gateway/src/budget/degradation.py:116-142 | The search over the priority list computes the capped tier, and its last fallback is never reached. |
| Degradation.DegradationManager.IsTierAllowed | llm-gateway/src/budget/degradation.py:103-106 | Every level takes away the strongest tier left: a tier is allowed exactly if it is a known one whose rank (fast 0, mid 1, strong 2) and the tenant's level, from 0 on, add up to at most 2; where LLM calls are rejected nothing is. |
| Degradation.DegradationManager.UpdateConfig | llm-gateway/src/budget/degradation.py:42-44 | A new limit changes no tenant's level by itself. |
| Degradation.DegradationManager.ResetTenant | llm-gateway/src/budget/degradation.py:155-159 | The tenant is back at full service and no other tenant's level changes. |
| TierFallback.TryTierModels | llm-gateway/src/main.py:689-750 | The loop over the reordered list computes the tier's answer. |
| TierFallback.TierAnswersWithFirstServing | llm-gateway/src/main.py:711-750 | The answer is that of the first healthy, enabled, registered model that responds, under its own identifier; none exactly when there is no such model. |
| TierFallback.PreferenceOnlyReorders | llm-gateway/src/main.py:705-709 | Preferring a model drops and duplicates none, and tries all entries of the preferred model first. |
| TierFallback.FilterOfParts | llm-gateway/src/main.py:707-708 | Both groups keep the configured order. |
| Escalation.EscalationLoop | llm-gateway/src/main.py:458-523 | The loop ends for every oracle; its counter is the length of the escalation path, and its final state is that of the specification. |
| Escalation.RunMatchesLog | llm-gateway/src/main.py:458-523 | What the loop computes incrementally is what its log of attempts says: the path is the tiers tried, the response is the accepted last one or else the earliest of greatest positive confidence, and the reported model is the last that answered. |
| EscalationTheorems.CheckExactly | llm-gateway/src/escalation.py:73-125 | A response is rejected exactly while escalation is enabled and not used up and the response is empty, refused, unparseable where JSON is wanted, or below a positive threshold. Its confidence is the extracted one unless a rejection for one of the first three causes fixes it at 0, 0.1 or 0.3, the first cause deciding. |
| EscalationTheorems.AcceptedAsExtracted | llm-gateway/src/main.py:509-512 | An accepted last response is returned with the confidence extracted from it, also when it was accepted because escalation was disabled or used up. |
| EscalationTheorems.AttemptsExactly | llm-gateway/src/main.py:467-484 | Every attempt is one round of fallback within its own tier, with the preferred model and the answers of that attempt. |
| EscalationTheorems.MovesExactly | llm-gateway/src/main.py:486-523 | The loop goes on after an attempt exactly when escalation is enabled and not used up, the path goes on to a tier allowed at that moment, and the attempt failed or its response was poor. |
| EscalationTheorems.NextTierExactly | llm-gateway/src/escalation.py:269-281 | The next tier is the one behind the first occurrence of the current one in the path, and there is none if it does not occur or occurs last. |
| EscalationTheorems.EscalationFollowsConfiguration | llm-gateway/src/main.py:486-523 | At most max_escalations moves, each to the configured successor of the tier being left and to a tier allowed at that moment. |
| EscalationTheorems.TrailIsStretchOfPath | llm-gateway/src/escalation.py:269-281 | If the configured path repeats no tier, the tiers tried are a contiguous stretch of it and no tier is tried twice. |
| EscalationTheorems.UnknownTierIsFinal | llm-gateway/src/escalation.py:269-281 | A start tier outside the configured path is never left. |
| EscalationTheorems.EveryMoveIsJustified | llm-gateway/src/main.py:486-523 | A move is made only with escalation enabled and not used up, and only after a failed tier or a response that the checks rejected. |
| EscalationTheorems.AttemptsAreBounded | llm-gateway/src/main.py:467-523 | At most max_escalations + 1 tiers are tried, from any point of the loop. |
| EscalationTheorems.AllowedWhenChosenIff | llm-gateway/src/main.py:443-523 | However the level changes while a request is handled, every tier tried was allowed when it was chosen, the first by the cap and the others by a move, exactly when the cap saw one of the levels 0 to 2. |
| EscalationTheorems.OnlyAllowedTiersAreTried | llm-gateway/src/main.py:443-523 | In particular, while the level stays what the cap saw, only tiers allowed at that level are tried. |
| EscalationTheorems.OverrideIsIgnoredIff | llm-gateway/src/main.py:453-503 | At a given count of escalations, the checks decide every response as they would under the effective threshold exactly when escalation is over, or there is no override, or it is no higher than the request's own threshold. |
| EscalationTheorems.UnavailableIff | llm-gateway/src/main.py:529-545 | Status 503 exactly when the last attempt was not accepted and no response had positive confidence. |
| EscalationTheorems.ReturnsMaximumIff | llm-gateway/src/main.py:505-512 | For a given configuration, request and start tier the returned confidence is the greatest seen, in all worlds, exactly when no escalation is possible, or they cannot be used up and the threshold covers the confidence of rejected content. |
| EscalationTheorems.ExhaustedEscalationsReturnLess | llm-gateway/src/escalation.py:80-86 | If all escalations can be used up, some world returns less confidence than it saw. |
| EscalationTheorems.LowThresholdReturnsLess | llm-gateway/src/escalation.py:96-110 | If the threshold is below the confidence given to refusals or unparseable answers, some world returns less than it saw. |
| EscalationTheorems.DefaultConfigCanBeBeaten | llm-gateway/src/escalation.py:36-37 | For the shipped path and limit: requests starting at fast can be returned less than was seen, at strong never, at mid exactly with a low threshold. |
| EscalationTheorems.NamesProducerIff | llm-gateway/src/main.py:498-557 | The reported, and priced, model is the one that gave the returned response, in all worlds, exactly when escalation is disabled, limited to one move, or impossible from the start tier. |
| EscalationTheorems.SecondAttemptCanMisattribute | llm-gateway/src/main.py:498-512 | If a first move is available and the limit is above one, a world in which a refusal is returned under the name of a model that answered nothing. |
| BudgetTracker.MemoryTracker.RecordCost | llm-gateway/src/budget/tracker.py:133-137 | Records one cost event on today's counter of this tenant and returns the exact total of that counter. |
| BudgetTracker.MemoryTracker.IncrementRequests | llm-gateway/src/budget/tracker.py:146-150 | Records one request and returns the exact count of the day. |
| BudgetTracker.MemoryTracker.GetDailySpend | llm-gateway/src/budget/tracker.py:139-144 | Returns the sum of the tenant's cost events of the current UTC day. |
| BudgetTracker.MemoryTracker.GetRequestCount | llm-gateway/src/budget/tracker.py:74-77 | Returns the number of the tenant's requests of the current UTC day. |
| BudgetTracker.MemoryTracker.GetOrCreateState | llm-gateway/src/budget/tracker.py:152-158 | Replacing a stale state loses nothing of today, and keeps every other tenant's state. |
| BudgetTracker.RedisTracker.RecordCost | llm-gateway/src/budget/tracker.py:96-104 | The increment, the expiry query and the expiry command, at different times, record one event and return the exact total, even if midnight passes after the increment; if it passes before, they return what was added to the counter since some moment. The counter ends up with an expiry, and no other key is touched. |
| BudgetTracker.RedisTracker.IncrementRequests | llm-gateway/src/budget/tracker.py:122-129 | The same for the request count. |
| BudgetTracker.RedisTracker.Get | llm-gateway/src/budget/tracker.py:106-120 | A lookup on the day of its key returns that day's exact total; a later one returns what was added to that counter since some moment, perhaps nothing. |
| BudgetTracker.PartsAreBetween | llm-gateway/src/budget/tracker.py:96-112 | With costs that are not negative, what was added since any moment lies between nothing and the total, so a late lookup never reads too much. |
| BudgetTracker.RedisTracker.Expire | llm-gateway/src/budget/tracker.py:102-103 | The key, if it is still there, expires at the next midnight or in one minute; nothing else changes, and every counter stays exact, whether the key is of a past day or has an expiry already. |
| BudgetTracker.RedisTracker.CurrentKeysAreKept | llm-gateway/src/budget/tracker.py:100-103 | A key of the current day or later is never lost to its expiry. |
| BudgetTracker.MidnightArithmetic | llm-gateway/src/budget/tracker.py:172-176 | The expiry is never before the next UTC midnight, less than a minute after it, and exactly at it unless less than a minute of the day is left. |
| BudgetTracker.OnlyOwnEventsCount | llm-gateway/src/budget/tracker.py:162-170 | Events of other tenants, days or kinds change no total. |
| BudgetTracker.RequestTotalsAreWhole | llm-gateway/src/budget/tracker.py:114-129 | Request totals are whole numbers, so converting them loses nothing. |
| BudgetTracker.KeyNamesAreDistinct | llm-gateway/src/budget/tracker.py:162-170 | Two counters share a Redis key only if kind, tenant and date agree, colons in tenant names notwithstanding. |
| Scoring.CalculateScore | agent-eval/src/graph/scoring.py:109-181 | Both accumulation loops and the early returns compute the score and status of the specification. |
| Scoring.CheckPolicyFail | agent-eval/src/graph/scoring.py:184-192 | True exactly when some policy result is a failure. |
| Scoring.CheckImplementationFailRatio | agent-eval/src/graph/scoring.py:195-212 | The ratio of failed to all implementation results, zero without any. |
| Scoring.AccumulateWeights | agent-eval/src/graph/scoring.py:128-138 | The loop accumulates the total, the assessable and the other weight. |
| Scoring.AccumulateScore | agent-eval/src/graph/scoring.py:147-154 | The loop accumulates the weighted sum over assessable criteria. |
| ScoringTheorems.ScoreExactly | agent-eval/src/graph/scoring.py:128-164 | With at most half of the weight assessed the score is zero; otherwise it is the weight of the PASS criteria plus half that of the PARTIAL ones over the weight of the criteria with a result other than CANNOT_ASSESS and INSUFFICIENT_EVIDENCE, and at most 0.84 if a policy criterion failed. |
| ScoringTheorems.StatusExactly | agent-eval/src/graph/scoring.py:128-181 | Each of the five statuses holds exactly under a condition on those same weights, the failed policy criteria and the counts of implementation criteria, with no division, cap or order of branches left in it. |
| ScoringTheorems.ScoreInRange | agent-eval/src/graph/scoring.py:109-181 | With non-negative weights the score lies in [0,1]. |
| ScoringTheorems.ScoreIsMonotone | agent-eval/src/graph/scoring.py:119-212 | Raising results along FAIL, PARTIAL, PASS lowers neither the score nor the status, through weighting, cap, forced failure and thresholds together. |
| ScoringTheorems.ScoreIgnoresOrder | agent-eval/src/graph/scoring.py:132-156 | Permuting the criteria changes neither score nor status. |
| ScoringTheorems.ScoreIgnoresScale | agent-eval/src/graph/scoring.py:132-156 | Multiplying all weights by the same positive factor changes neither score nor status. |
| ScoringTheorems.PartialEvaluationIsNeverCompliant | agent-eval/src/graph/scoring.py:165-173 | An unfinished evaluation is never compliant or partially compliant. |
| Pipeline.RulesEngineNode | agent-eval/src/graph/rules_engine.py:56-100 | The loop computes the results, the list still to be judged and the counter of the specification. |
| Pipeline.EvaluationNode | agent-eval/src/graph/evaluation.py:108-168 | The judging loop, with its fill-up and break on exhausted credit, computes the specification; the count is the number of judgments. |
| Pipeline.OrderResults | agent-eval/src/graph/formatter.py:87-95 | Results are listed in the order of the criteria. |
| Pipeline.FormatterNode | agent-eval/src/graph/formatter.py:83-140 | Merged and ordered results, both layer counts and both floor rules, each recomputed from the merged results. |
| PipelineTheorems.EveryCriterionIsConcluded | agent-eval/src/graph/scoring.py:69-72 | Whatever rules and judge do, the merged results cover exactly the criteria and none is left waiting for judgment. |
| PipelineTheorems.RulesDecide | agent-eval/src/graph/rules_engine.py:60-72 | A criterion not handed to the judge ends up with its own category and the verdict of its rule, of the last one if criteria share the identifier. |
| PipelineTheorems.JudgedExactly | agent-eval/src/graph/rules_engine.py:69-72 | An identifier is handed to the judge exactly if some criterion that carries it was left undecided by its rule. |
| PipelineTheorems.HandedInOrder | agent-eval/src/graph/rules_engine.py:58-72 | The undecided criteria are handed over in their order, once per position, and the resolved count is the number of the others. |
| PipelineTheorems.JudgeDecides | agent-eval/src/graph/evaluation.py:114-168 | A criterion handed to the judge keeps its own category and gets the judge's last verdict on it before credit ran out, CANNOT_ASSESS where the judge was unavailable, and INSUFFICIENT_EVIDENCE where it was not reached. |
| PipelineTheorems.LayerCountsAddUpIff | agent-eval/src/graph/evaluation.py:413-418 | layer1_resolved + layer2_resolved is the number of criteria exactly when no identifier is handed to the judge twice; distinct identifiers guarantee it. |
| PipelineTheorems.JudgedUntilCreditRunsOut | agent-eval/src/graph/evaluation.py:114-168 | Each criterion handed to the judge keeps the judge's last word on it before the point where credit runs out, and is marked insufficient if there is none; the run is partial exactly if there is such a point. No assumption on identifiers. |
| PipelineTheorems.ExhaustionIsNeverCompliant | agent-eval/src/graph/evaluation.py:133-154 | A run in which credit ran out is reported neither compliant nor partially compliant. |
| PipelineTheorems.FloorRulesAreReported | agent-eval/src/graph/formatter.py:125-140 | For every scored run: the policy rule is listed exactly if a policy criterion failed, the implementation rule exactly above a quarter of failures, and then the status is non-compliant or insufficient evidence. |
| PipelineTheorems.ListedCapLoweredScoreIff | agent-eval/src/graph/scoring.py:160-163 | The policy cap changed the score exactly when a policy criterion failed and the uncapped score was above 0.84. |
| PipelineTheorems.ReportIsComplete | agent-eval/src/graph/formatter.py:87-95 | The report holds one result per criterion, its own, in the criteria's order. |
| PipelineTheorems.ReportedRuleCountIsExactIff | agent-eval/src/graph/formatter.py:121-147 | The reported number of criteria resolved by rules is right exactly when nothing needed judgment. |
| PipelineTheorems.WalksAreShort | agent-eval/src/graph/graph.py:146-211 | Every walk through the graph has at most eleven nodes and visits none twice. |
| PipelineTheorems.NextNodeExactly | agent-eval/src/graph/graph.py:35-211 | The condition under which each node of a walk is followed by each of its successors. |
| PipelineTheorems.RulesRunIff | agent-eval/src/graph/graph.py:35-58 | A walk that has ended ran the rules, and scored, exactly for a request to evaluate without a cached result and with evidence or without an error; otherwise it only formatted. |
| PipelineTheorems.EvaluationFollowsRules | agent-eval/src/graph/graph.py:61-122 | LLM evaluation is reached only behind a rules step that left something to judge. |
| PipelineTheorems.ScoringFollowsRules | agent-eval/src/graph/graph.py:61-122 | Scoring is reached only behind the rules, with an evaluation in between exactly when something was left to judge. |
| CircuitBreaker.CircuitBreaker.RecordRollback | observer/src/circuit_breaker.py:76-105 | The rollback is always noted; the whole new state and the answer are those of the specification, with the window counted at a later clock reading. |
| CircuitBreaker.CircuitBreaker.RecordSuccess | observer/src/circuit_breaker.py:107-116 | Only a half-open breaker changes. |
| CircuitBreaker.CircuitBreaker.CanAutoApply | observer/src/circuit_breaker.py:118-134 | New state and grant, after the lazy cooldown. |
| CircuitBreaker.CircuitBreaker.Reset | observer/src/circuit_breaker.py:136-147 | Closes the breaker and reports the previous state; the noted rollbacks remain. |
| CircuitBreaker.CircuitBreaker.IsOpen | observer/src/circuit_breaker.py:64-68 | Blocking exactly if not closed after the cooldown check, which may change the state. |
| CircuitBreaker.CircuitBreaker.CountRecentRollbacks | observer/src/circuit_breaker.py:197-202 | The number of noted rollbacks from the start of the window on. |
| CircuitBreaker.GrantedExactly | observer/src/circuit_breaker.py:107-195 | In every run an automatic change is granted exactly if the breaker never tripped before, or was closed since its latest trip by a reset or by a success after the cooldown had been noticed, or the cooldown of that trip has elapsed and no change was asked for since it did. |
| CircuitBreaker.TripsExactly | observer/src/circuit_breaker.py:76-105 | A call trips the breaker exactly if it records a rollback and the rollbacks of the run in the window, this one included, are at least max_rollbacks, or the breaker is half-open by the calls since its latest trip. |
| CircuitBreaker.ProbesAreSpaced | observer/src/circuit_breaker.py:118-195 | In every run under a clock that does not go back, resets included, two probes granted by a half-open breaker are at least a cooldown apart. |
| CircuitBreaker.NoApplyDuringCooldown | observer/src/circuit_breaker.py:118-195 | Without a reset, nothing is granted between a trip and the end of its cooldown. |
| CircuitBreaker.OpensExactlyOnFullWindow | observer/src/circuit_breaker.py:76-105 | A closed breaker opens on a call exactly when it records a rollback and at least max_rollbacks of all rollbacks of the run lie in the window. |
| CircuitBreaker.ReachableStates | observer/src/circuit_breaker.py:76-195 | In every reachable state a used probe means half-open, and a trip time is kept exactly while not closed. |
| CircuitBreaker.AllRollbacksAreKept | observer/src/circuit_breaker.py:76-147 | The window is fed by every rollback ever recorded; nothing clears it. |
| CircuitBreaker.LazyIsEagerUntilOverlooked | observer/src/circuit_breaker.py:76-195 | In every run the lazy breaker cannot be told from one that notices an elapsed cooldown at once, up to the first success or window-not-filling rollback that overlooks one, and differs from it right after that call. |
| CircuitBreaker.LazyDiffersFromEagerIff | observer/src/circuit_breaker.py:82-116 | One call ends differently from a breaker that notices the cooldown first, exactly when the cooldown has elapsed unnoticed and the call is a success or a rollback that does not fill the window. |
| SelfRegulation.SelfRegulator.Evaluate | observer/src/self_regulation.py:117-198 | The week's tally, the adjusted autonomy, the result and the bounded evaluation history; the change history is untouched. |
| SelfRegulation.SelfRegulator.ExpandAutonomy | observer/src/self_regulation.py:200-245 | The field-by-field assignments make exactly one rung up. |
| SelfRegulation.SelfRegulator.RestrictAutonomy | observer/src/self_regulation.py:247-292 | The field-by-field assignments make exactly one rung down. |
| SelfRegulation.SelfRegulator.RecordChange | observer/src/self_regulation.py:105-115 | The change is appended and the history cut as Python's negative slice does it. |
| SelfRegulation.WeekTally | observer/src/self_regulation.py:129-152 | The tally counts exactly the changes proposed within the last seven days, by position, with the statuses that stand for applied, rolled back and validated. |
| SelfRegulation.AdjustmentExactly | observer/src/self_regulation.py:154-165 | With at least five resolved changes the level goes up one rung exactly if more than nine in ten are validated and down if fewer than seven in ten, unless it is at the end of the ladder; otherwise nothing changes. |
| SelfRegulation.LevelParameters | observer/src/self_regulation.py:200-279 | The parameters of each level from the configured ones: the steps of 0.05 and 0.10, 5 and 20, 5 and 5, the floors, ceilings and daily caps, and the allowed types. |
| SelfRegulation.ParametersNeverDrift | observer/src/self_regulation.py:200-279 | After any number of evaluations the operating parameters are a function of the level alone. |
| SelfRegulation.StandardLevelRepairsParameters | observer/src/self_regulation.py:207-260 | From any parameters, restored ones for example, one return to the standard level repairs them for good. |
| SelfRegulation.OneRungPerEvaluation | observer/src/self_regulation.py:154-165 | At most one rung per evaluation, only on five resolved changes, up exactly above 90% and down exactly below 70% unless at the end of the ladder. |
| SelfRegulation.SuccessRateInRange | observer/src/self_regulation.py:140-155 | The success rate of every list of changes lies in [0,1]. |
| SelfRegulation.UnvalidatedChangesRestrict | observer/src/self_regulation.py:140-165 | Without any rollback, at least five applied changes restrict the observer exactly if fewer than 70% of them are validated. |
| SelfRegulation.LadderIsOrderedIff | observer/src/self_regulation.py:214-279 | Restricted is at least as strict as standard, and standard as expanded, exactly for settings inside the floors, ceilings and daily caps; then all levels stay inside. |
| SelfRegulation.KeptEntries | observer/src/self_regulation.py:113-115 | Over a whole run a positive limit keeps the latest entries, a negative one nothing, zero everything. |
| SelfRegulation.MonthIsKept | observer/src/self_regulation.py:112-115 | With a positive daily limit the history holds the latest thirty times that many changes. |
| SelfRegulation.ChangeHistoryIsBoundedIff | observer/src/self_regulation.py:105-115 | The change history is bounded over all runs exactly when the daily limit is not zero. |
| Jobs.JobManager.StartJob | agent-eval/src/jobs.py:70-71 | The new job is active and waits for the semaphore; no other job changes. |
| Jobs.JobManager.EnterSemaphore | agent-eval/src/jobs.py:89 | One permit is taken, by a job that waited. |
| Jobs.JobManager.KeepResult | agent-eval/src/jobs.py:91-92 | The result is in memory before anything is persisted. |
| Jobs.JobManager.KeepError | agent-eval/src/jobs.py:106-108 | The error is in memory, also when persisting the result failed after the job completed. |
| Jobs.JobManager.LeaveSemaphore | agent-eval/src/jobs.py:126-127 | However the job ends inside the semaphore, it leaves the active jobs and frees its permit. |
| Jobs.JobManager.GetStatus | agent-eval/src/jobs.py:129-154 | What a poll answers from memory, and when it has to consult the store. |
| Jobs.ConcurrencyIsBounded | agent-eval/src/jobs.py:83-127 | No interleaving has more than max_concurrent jobs inside the semaphore. |
| Jobs.SemaphoreExactly | agent-eval/src/jobs.py:89-127 | By the events alone: the jobs that acquired a permit and have not ended since are at most max_concurrent, and a job that was started and neither admitted nor cancelled can be admitted exactly while there are fewer. |
| Jobs.StoreIsConsultedIff | agent-eval/src/jobs.py:129-157 | A poll falls through to the store exactly for jobs never started here and jobs cancelled inside the semaphore without result or error. |
| Jobs.OutcomesAreFinal | agent-eval/src/jobs.py:129-148 | Once a poll has reported a result or an error, all later polls report the same, whatever happens. |
| Jobs.OutcomeIsWhatHappened | agent-eval/src/jobs.py:91-148 | A poll reports a result exactly if the job returned that result, and an error exactly if its evaluation raised that error. |
| Jobs.ProcessingIsWhatIsLeft | agent-eval/src/jobs.py:70-154 | A poll reports processing exactly for a job that was started, has neither returned nor raised, and was not cancelled inside the semaphore. |
| Jobs.StoreIsWhatWasSaved | agent-eval/src/jobs.py:59-117 | The store says failed once a failure was saved, otherwise completed once that status was saved, otherwise processing once the job was started. |
| Jobs.StoreAgreesIff | agent-eval/src/jobs.py:90-117 | For a finished job whose last write was accepted, memory and store agree on the outcome exactly when no save of its completed status or result failed in the run; if one did, memory says completed and the store failed. |
| Jobs.CancelledInQueueIsProcessingForEver | agent-eval/src/jobs.py:89-154 | A job cancelled while it waits for the semaphore is reported as processing by every later poll. |
| Jobs.DeadButProcessingIff | agent-eval/src/jobs.py:129-154 | In every reachable state the jobs reported as processing with nothing left to run are exactly those cancelled in the queue. |
| Jobs.EventKeepsInv | agent-eval/src/jobs.py:57-127 | Every step keeps permits plus holders equal to max_concurrent, and every job's stage consistent with the three maps and the store. |
| Jobs.EveryEventIsProgress | agent-eval/src/jobs.py:83-127 | Every step brings its own job closer to its end and no other job further from it. |
| Jobs.SomeJobCanGoOn | agent-eval/src/jobs.py:83-127 | While some started job has not ended, some job can go on: the semaphore cannot deadlock. |
| Jobs.ActiveCountIsRunningCountIff | agent-eval/src/jobs.py:211-214 | The reported count is the jobs inside the semaphore plus the queue, so it is the number of running jobs exactly when the queue is empty. |
| EnvExpansion.ExpandEnvVars | llm-gateway/src/routing/config_loader.py:28-47 | The in-place loop ends for every environment and equals left-to-right substitution. |
| EnvExpansion.ExpansionSubstitutesTokens | llm-gateway/src/routing/config_loader.py:28-47 | A string is the concatenation of tokens found without looking at the environment, and its expansion the concatenation of their values: inserted values are never scanned again. |
| EnvExpansion.TokensAreLeftmost | llm-gateway/src/routing/config_loader.py:37-42 | Texts and references alternate; no text before a reference holds an opening, no name a closing brace, and no opening of the last text is ever closed, so that every reference is found. |
| EnvExpansion.UnclosedTailIsKept | llm-gateway/src/routing/config_loader.py:40-42 | From behind the last closing brace on the text is kept as it is, whatever is expanded before it: an opening that is never closed changes nothing. |
| EnvExpansion.ProcessingKeepsShape | llm-gateway/src/routing/config_loader.py:50-58 | Expanding a document keeps keys, their order, list lengths and other scalars, and expands its strings one by one in place. |
| CriteriaIndex.RAGIndex.BuildCriteriaIndex | agent-eval/src/rag/index.py:146-155 | The loop builds, for every key, the position last seen and the order of first insertion. |
| CriteriaIndex.RAGIndex.GetTestingCriteria | agent-eval/src/rag/index.py:68-88 | Exact key first, then the first stored key that differs in case only. |
| CriteriaIndex.LookupIsScan | agent-eval/src/rag/index.py:68-88 | If the framework is nested in no stored one nor the reverse, a lookup finds exactly the last testing-criteria chunk with both names whose names equal the given ones up to the case of letters, and the fallback loop never finds anything. |
| CriteriaIndex.CaseMappingExactly | agent-eval/src/rag/index.py:78 | Lower-casing and upper-casing each identify exactly the strings equal up to the case of their letters. |
| CriteriaIndex.ExactKeyIsPreferred | agent-eval/src/rag/index.py:79-81 | For any names, a lookup finds the last chunk with exactly the key if there is one. |
| CriteriaIndex.FirstEqualKeyIsNext | agent-eval/src/rag/index.py:83-86 | Otherwise it finds the last chunk with the key that came first among those equal up to case. |
| CriteriaIndex.NothingFoundIff | agent-eval/src/rag/index.py:78-88 | A lookup finds nothing exactly if no indexed chunk has the key up to case. |
| CriteriaIndex.LookupAgreesIff | agent-eval/src/rag/index.py:68-155 | Lookups agree with the scan, for all chunks and controls of given frameworks, exactly when no framework's name followed by a colon starts another's. |
| CriteriaIndex.NestedFrameworksCollide | agent-eval/src/rag/index.py:78-86 | For every nested pair, a lookup that returns the other framework's criteria. |
| CriteriaIndex.NestedNamesHaveColons | agent-eval/src/rag/index.py:151-154 | Framework names without colons are never nested. |
| CriteriaIndex.FoldedKeysDecide | agent-eval/src/rag/index.py:78-86 | Without nesting, keys that agree up to case agree in framework and control. |
| CriteriaIndex.PositionsAreLast | agent-eval/src/rag/index.py:149-155 | The stored position of a key is that of the last indexed chunk that has it. |
| UserState.UserStateDoc.MergeReflection | compliance-assistant/src/agent/user_state.py:105-181 | The step-by-step updates of session, focus, actions, preferences, patterns and date, and the compaction, amount to the specified merge of the whole document. |
| UserState.UserStateDoc.MergePending | compliance-assistant/src/agent/user_state.py:142-157 | The two appending loops and the filter amount to the specified list of actions. |
| UserState.UserStateDoc.MergePreferences | compliance-assistant/src/agent/user_state.py:159-165 | The deduplicating loop and the cap amount to the specified list of preferences. |
| UserState.AverageExactly | compliance-assistant/src/agent/user_state.py:167-175 | The running average of session lengths is the mean of what it was and the new length, rounded down, so between the two; the first session starts it and an empty one leaves it. |
| UserState.SessionAndFocus | compliance-assistant/src/agent/user_state.py:124-140 | The session is dated and its summary names at most three accomplished and two deferred items, or says that it was brief; the focus moves to the first accomplished item if there is one. |
| UserState.SkillsAreRecent | compliance-assistant/src/agent/user_state.py:176-178 | The skills stay free of repetitions and at most five, include the active one, and are otherwise forgotten only from the front. |
| UserState.UserStateDoc.Compact | compliance-assistant/src/agent/user_state.py:183-189 | Popping from the front ends, and leaves the specified suffix. |
| UserState.UnaccomplishedExactly | compliance-assistant/src/agent/user_state.py:152-157 | Exactly the actions that match an accomplished item up to case are removed; the others keep their multiplicity. |
| UserState.MergedActionsKeepOrder | compliance-assistant/src/agent/user_state.py:142-157 | After a merge the actions are what is left of the old ones, then of at most five deferred items, then of at most three commitments, the new ones dated and marked with their source. |
| UserState.NothingAccomplishedIsPending | compliance-assistant/src/agent/user_state.py:142-181 | After merge and compaction no pending action is an accomplished item. |
| UserState.CompactionDropsShortestPrefix | compliance-assistant/src/agent/user_state.py:183-189 | Exactly the shortest prefix of the oldest actions that makes the document fit is dropped, or all of them, and nothing else changes, for any size measure. |
| UserState.CompactionIsIdempotent | compliance-assistant/src/agent/user_state.py:183-189 | Compacting twice is compacting once. |
| UserState.PreferencesStayDistinct | compliance-assistant/src/agent/user_state.py:159-164 | Adding preferences extends the list, keeps it distinct up to case if it was, and leaves no added one unrepresented. |
| UserState.PreferencesAreCapped | compliance-assistant/src/agent/user_state.py:159-165 | After a merge the cap holds, distinctness survives it, existing preferences win over new ones, and with room for three each of the first three new ones is represented. |
| CanaryMetrics.CanaryExperiment.RecordResult | llm-gateway/src/routing/canary.py:189-211 | The sample goes to the end of exactly one variant's list. |
| CanaryMetrics.EverySampleIsRecordedOnce | llm-gateway/src/routing/canary.py:207-211 | Over a whole run the two lists together hold exactly the recorded samples, and the canary list as many as were recorded under its name. |
| CanaryMetrics.MetricsExactly | llm-gateway/src/routing/canary.py:225-248 | The count is the number of samples, each average times the count is the sum of its own measure, each rate times the count the number of samples concerned; without samples everything is zero. |
| CanaryMetrics.P95Exactly | llm-gateway/src/routing/canary.py:237-244 | The reported p95 is the one latency that occurs, has at most 95% of the samples below it and more than 95% at or below it. |
| CanaryMetrics.P95IsLastIff | llm-gateway/src/routing/canary.py:238 | The reported position is the last one exactly up to twenty samples. |
| CanaryMetrics.NearestRankIff | llm-gateway/src/routing/canary.py:238 | The position is that of the nearest-rank percentile exactly when the count is not a multiple of twenty. |
| CanaryMetrics.MetricsAreWithinSamples | llm-gateway/src/routing/canary.py:225-248 | Every average lies between two samples' values; both rates lie in [0,1] and are 0 or 1 exactly when no or every sample has the property. |
| CanaryMetrics.MetricsIgnoreOrder | llm-gateway/src/routing/canary.py:225-248 | No metric depends on the order in which concurrent requests report. |

## Left out

- Admission.OverspendBound: admission assumes a positive limit that stays the same; a limit of zero or less turns budgets off, and configuration reloads are not modelled.
- Escalation.EscalationLoop: the configuration is fixed during a request; reloads between attempts are not modelled.
- Escalation.RunMatchesLog: confidence extraction, refusal detection and JSON parsing are flags and a value of the response, not computed.
- EscalationTheorems.OnlyAllowedTiersAreTried: assumes that the level does not change between the cap and the last attempt; AllowedWhenChosenIff does not.
- EscalationTheorems.OverrideIsIgnoredIff: compares single decisions, not the responses of whole runs.
- TierFallback.TryTierModels: the provider call itself, its parameters and the constant "unknown" tier name are not modelled.
- BudgetTracker.MemoryTracker.RecordCost: one clock reading per call, where the code reads the clock up to twice; the state is a value in the map and not a shared object.
- BudgetTracker.RedisTracker.RecordCost: a total returned after midnight for a key computed before it may be partial, because the key may have been gone.
- BudgetTracker.KeyNamesAreDistinct: dates are any strings of equal length; elsewhere they are day numbers.
- Redis failures, the choice between Redis and memory, and the switch from one to the other.
- Floating-point rounding: all quotients and thresholds are exact.
- Scoring.CheckPolicyFail: dictionaries are read in arbitrary order, which the result does not depend on.
- Pipeline.EvaluationNode: exceptions other than exhausted credit and unavailability end the run and are not modelled; neither is how a single criterion is judged (tribunal, prompts, parsing).
- Pipeline.RulesEngineNode: the rules themselves are an oracle; the error path without testing criteria is not modelled.
- Pipeline.FormatterNode: timings, justification text and the path without testing criteria.
- The nodes router, discovery, extractor, sandbox and code fixer appear only as steps of the graph.
- CircuitBreaker.CircuitBreaker.CanAutoApply: get_status and the state property are covered by the poll step of a run, without the status record.
- CircuitBreaker.LazyIsEagerUntilOverlooked: says nothing about a cooldown of zero, nor whether the two breakers meet again after they have parted.
- SelfRegulation.SelfRegulator.Evaluate: timestamps are integers where the code compares ISO strings; saving and restoring the autonomy level are not modelled.
- Jobs.JobManager.GetStatus: what the store answers to a poll that falls through to it, and shutdown.
- Jobs.JobManager.StartJob: stages of jobs and the contents of the store are ghost fields; the exchange with the store is one write per step.
- EnvExpansion.ProcessingKeepsShape: scalars other than strings are integers.
- CriteriaIndex.LookupIsScan: case mapping is ASCII; loading the chunks and the vector search are not modelled.
- CriteriaIndex.LookupAgreesIff: case mapping is ASCII.
- CriteriaIndex.FoldedKeysDecide: case mapping is ASCII.
- UserState.UserStateDoc.MergeReflection: the fields it never changes (identity, agent name, typical session time) are not modelled and enter only through the size of the document; the preference cap is not negative.
- CanaryMetrics.CanaryExperiment.RecordResult: sample timestamps and locking; the traffic split and promotion are not modelled.
- Request queue, idempotency, health checks, retry decorator, metrics store, route resolution and authentication: only simple members.
