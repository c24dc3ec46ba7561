/** The observer's control of its own autonomy: a weekly evaluation moves one rung up or down a
    ladder of three levels and sets the operating parameters of the new level. */
module SelfRegulation {
  import opened Basics
  import opened Summation

  datatype Level = Restricted | Standard | Expanded

  datatype Settings = Settings(minConfidence: real, minSamples: int, maxAppliesPerDay: int,
                               confidenceFloor: real, confidenceCeiling: real, samplesFloor: int, samplesCeiling: int)

  datatype Autonomy = Autonomy(level: Level, minConfidence: real, minSamples: int, maxAppliesPerDay: int, allowedTypes: seq<string>)

  const STANDARD_TYPES := ["routing", "threshold", "pattern"]
  const EXPANDED_TYPES := ["routing", "threshold", "pattern", "prompt"]
  const RESTRICTED_TYPES := ["threshold"]

  datatype ChangeStatus = Proposed | Applied | Validated | CanaryPassed | RolledBack | CanaryFailed | OtherStatus

  datatype Change = Change(proposedAt: int, status: ChangeStatus)

  const WEEK := 604800

  function StandardAutonomy(s: Settings): Autonomy {
    Autonomy(Standard, s.minConfidence, s.minSamples, s.maxAppliesPerDay, STANDARD_TYPES)
  }

  /** One rung up; the second component says whether anything changed. */
  function Expand(s: Settings, a: Autonomy): (Autonomy, bool) {
    match a.level
    case Expanded => (a, false)
    case Restricted => (StandardAutonomy(s), true)
    case Standard =>
      (Autonomy(Expanded, MaxReal(s.confidenceFloor, a.minConfidence - 0.05), Max(s.samplesFloor, a.minSamples - 5),
                Min(20, a.maxAppliesPerDay + 5), EXPANDED_TYPES), true)
  }

  /** One rung down. */
  function Restrict(s: Settings, a: Autonomy): (Autonomy, bool) {
    match a.level
    case Restricted => (a, false)
    case Expanded => (StandardAutonomy(s), true)
    case Standard =>
      (Autonomy(Restricted, MinReal(s.confidenceCeiling, a.minConfidence + 0.10), Min(s.samplesCeiling, a.minSamples + 20),
                Max(2, a.maxAppliesPerDay - 5), RESTRICTED_TYPES), true)
  }

  predicate CountsAsApplied(c: Change) {
    c.status.Applied? || c.status.Validated? || c.status.CanaryPassed?
  }

  predicate CountsAsRolledBack(c: Change) {
    c.status.RolledBack? || c.status.CanaryFailed?
  }

  function Recent(changes: seq<Change>, since: int): seq<Change> {
    if changes == [] then []
    else
      var last := changes[|changes| - 1];
      Recent(changes[..|changes| - 1], since) + if last.proposedAt >= since then [last] else []
  }

  /** The tally of one week. */
  datatype Tally = Tally(applied: nat, rolledBack: nat, validated: nat) {
    function Resolved(): nat {
      applied + rolledBack
    }

    function SuccessRate(): real {
      if Resolved() > 0 then validated as real / Resolved() as real else 1.0
    }
  }

  function TallyOf(changes: seq<Change>): Tally {
    Tally(Count(changes, CountsAsApplied), Count(changes, CountsAsRolledBack), Count(changes, (c: Change) => c.status.Validated?))
  }

  function Adjusted(s: Settings, a: Autonomy, t: Tally): (Autonomy, bool) {
    if t.Resolved() < 5 then (a, false)
    else if t.SuccessRate() > 0.90 then Expand(s, a)
    else if t.SuccessRate() < 0.70 then Restrict(s, a)
    else (a, false)
  }

  datatype EvalResult = EvalResult(totalChanges: nat, tally: Tally, previous: Level, current: Level, adjustmentMade: bool)

  /** The slice `s[-n:]` of a list, whatever the sign of `n`. */
  function LastOf<T>(s: seq<T>, n: int): seq<T> {
    if n > 0 then (if |s| > n then s[|s| - n..] else s)
    else if -n < |s| then s[-n..] else []
  }

  /** How a history that is cut to `n` entries whenever it gets longer is extended by one entry. */
  function Appended<T>(history: seq<T>, entry: T, n: int): seq<T> {
    var longer := history + [entry];
    if |longer| > n then LastOf(longer, n) else longer
  }

  const EVAL_HISTORY := 52

  /** How many changes are remembered: thirty days' worth. */
  function HistoryLimit(s: Settings): int {
    s.maxAppliesPerDay * 30
  }

  lemma AppendedIsBounded(history: seq<EvalResult>, result: EvalResult)
    ensures var longer := Appended(history, result, EVAL_HISTORY);
            |history| <= 52 ==> 1 <= |longer| <= 52 && longer[|longer| - 1] == result
  {}

  class SelfRegulator {
    const settings: Settings
    var autonomy: Autonomy
    var evalHistory: seq<EvalResult>
    var changeHistory: seq<Change>

    constructor (s: Settings)
      ensures settings == s && autonomy == StandardAutonomy(s) && evalHistory == [] && changeHistory == []
    {
      settings, autonomy, evalHistory, changeHistory := s, StandardAutonomy(s), [], [];
    }

    method RecordChange(c: Change)
      modifies this`changeHistory
      ensures changeHistory == Appended(old(changeHistory), c, HistoryLimit(settings))
    {
      changeHistory := changeHistory + [c];
      var maxHistory := HistoryLimit(settings);
      if |changeHistory| > maxHistory {
        changeHistory := LastOf(changeHistory, maxHistory);
      }
    }

    method ExpandAutonomy() returns (adjusted: bool)
      modifies this`autonomy
      ensures (autonomy, adjusted) == Expand(settings, old(autonomy))
    {
      if autonomy.level == Expanded { return false; }
      var previous := autonomy.level;
      if previous == Restricted {
        autonomy := autonomy.(level := Standard);
        autonomy := autonomy.(minConfidence := settings.minConfidence);
        autonomy := autonomy.(minSamples := settings.minSamples);
        autonomy := autonomy.(maxAppliesPerDay := settings.maxAppliesPerDay);
        autonomy := autonomy.(allowedTypes := STANDARD_TYPES);
      } else if previous == Standard {
        autonomy := autonomy.(level := Expanded);
        autonomy := autonomy.(minConfidence := MaxReal(settings.confidenceFloor, autonomy.minConfidence - 0.05));
        autonomy := autonomy.(minSamples := Max(settings.samplesFloor, autonomy.minSamples - 5));
        autonomy := autonomy.(maxAppliesPerDay := Min(20, autonomy.maxAppliesPerDay + 5));
        autonomy := autonomy.(allowedTypes := EXPANDED_TYPES);
      }
      return true;
    }

    method RestrictAutonomy() returns (adjusted: bool)
      modifies this`autonomy
      ensures (autonomy, adjusted) == Restrict(settings, old(autonomy))
    {
      if autonomy.level == Restricted { return false; }
      var previous := autonomy.level;
      if previous == Expanded {
        autonomy := autonomy.(level := Standard);
        autonomy := autonomy.(minConfidence := settings.minConfidence);
        autonomy := autonomy.(minSamples := settings.minSamples);
        autonomy := autonomy.(maxAppliesPerDay := settings.maxAppliesPerDay);
        autonomy := autonomy.(allowedTypes := STANDARD_TYPES);
      } else if previous == Standard {
        autonomy := autonomy.(level := Restricted);
        autonomy := autonomy.(minConfidence := MinReal(settings.confidenceCeiling, autonomy.minConfidence + 0.10));
        autonomy := autonomy.(minSamples := Min(settings.samplesCeiling, autonomy.minSamples + 20));
        autonomy := autonomy.(maxAppliesPerDay := Max(2, autonomy.maxAppliesPerDay - 5));
        autonomy := autonomy.(allowedTypes := RESTRICTED_TYPES);
      }
      return true;
    }

    method Evaluate(now: int) returns (result: EvalResult)
      modifies this
      ensures var week := Recent(old(changeHistory), now - WEEK);
              && (autonomy, result.adjustmentMade) == Adjusted(settings, old(autonomy), TallyOf(week))
              && result.totalChanges == |week| && result.tally == TallyOf(week)
              && result.previous == old(autonomy).level && result.current == autonomy.level
      ensures evalHistory == Appended(old(evalHistory), result, EVAL_HISTORY)
      ensures |old(evalHistory)| <= 52 ==> 1 <= |evalHistory| <= 52 && evalHistory[|evalHistory| - 1] == result
      ensures changeHistory == old(changeHistory)
    {
      var recent := Recent(changeHistory, now - WEEK);
      var tally := TallyOf(recent);
      var rate := if tally.Resolved() > 0 then tally.validated as real / tally.Resolved() as real else 1.0;
      var previous := autonomy.level;
      var adjusted := false;
      if tally.Resolved() >= 5 {
        if rate > 0.90 {
          adjusted := ExpandAutonomy();
        } else if rate < 0.70 {
          adjusted := RestrictAutonomy();
        }
      }
      result := EvalResult(|recent|, tally, previous, autonomy.level, adjusted);
      AppendedIsBounded(evalHistory, result);
      evalHistory := evalHistory + [result];
      if |evalHistory| > EVAL_HISTORY {
        evalHistory := LastOf(evalHistory, EVAL_HISTORY);
      }
    }
  }

  // ----- No drift -----

  /** The parameters that belong to a level. */
  function Canonical(s: Settings, level: Level): Autonomy {
    match level
    case Restricted => Restrict(s, StandardAutonomy(s)).0
    case Standard => StandardAutonomy(s)
    case Expanded => Expand(s, StandardAutonomy(s)).0
  }

  function LevelRank(level: Level): int {
    match level
    case Restricted => 0
    case Standard => 1
    case Expanded => 2
  }

  /** The autonomy after a sequence of weekly tallies. */
  function AfterWeeks(s: Settings, a: Autonomy, weeks: seq<Tally>): Autonomy {
    if weeks == [] then a
    else Adjusted(s, AfterWeeks(s, a, weeks[..|weeks| - 1]), weeks[|weeks| - 1]).0
  }

  /** Starting from the configured autonomy, the parameters are a function of the level alone, after
      any number of evaluations with any outcomes. */
  lemma {:induction false} ParametersNeverDrift(s: Settings, weeks: seq<Tally>)
    ensures var a := AfterWeeks(s, StandardAutonomy(s), weeks); a == Canonical(s, a.level)
  {
    if weeks != [] { ParametersNeverDrift(s, weeks[..|weeks| - 1]); }
  }

  /** From any autonomy whatever, one restored from storage for example, a visit to the standard
      level repairs the parameters for good. */
  lemma {:induction false} StandardLevelRepairsParameters(s: Settings, a: Autonomy, weeks: seq<Tally>, k: nat)
    requires k < |weeks|
    requires AfterWeeks(s, a, weeks[..k]).level != Standard && AfterWeeks(s, a, weeks[..k + 1]).level == Standard
    ensures var b := AfterWeeks(s, a, weeks); b == Canonical(s, b.level)
    decreases |weeks|
  {
    var init := weeks[..|weeks| - 1];
    assert weeks[..k + 1][..k] == weeks[..k];
    if k + 1 == |weeks| {
      assert weeks[..k + 1] == weeks;
    } else {
      assert init[..k] == weeks[..k] && init[..k + 1] == weeks[..k + 1];
      StandardLevelRepairsParameters(s, a, init, k);
    }
  }

  // ----- The week's tally and the rungs, in plain numbers -----

  /** The changes proposed within the week before `now`, by position, that have one of these statuses. */
  ghost function InWeek(changes: seq<Change>, now: int, statuses: set<ChangeStatus>): set<nat> {
    set i: nat | i < |changes| && changes[i].proposedAt >= now - 7 * 86400 && changes[i].status in statuses
  }

  function RecentWith(since: int, wanted: Change -> bool): Change -> bool {
    (c: Change) => c.proposedAt >= since && wanted(c)
  }

  lemma {:induction false} CountRecent(changes: seq<Change>, since: int, wanted: Change -> bool)
    ensures Count(Recent(changes, since), wanted) == Count(changes, RecentWith(since, wanted))
  {
    if changes != [] {
      var init, last := changes[..|changes| - 1], changes[|changes| - 1];
      CountRecent(init, since, wanted);
      CountOneMore(Recent(init, since), last, wanted);
      assert Recent(init, since) + [] == Recent(init, since);
    }
  }

  lemma {:induction false} CountEverything<T>(items: seq<T>)
    ensures Count(items, (x: T) => true) == |items|
  {
    if items != [] { CountEverything(items[..|items| - 1]); }
  }

  /** The tally of an evaluation counts exactly the changes proposed within the last seven days, by
      what became of them. */
  lemma WeekTally(changes: seq<Change>, now: int)
    ensures var week := Recent(changes, now - WEEK); var t := TallyOf(week);
            && t.applied == |InWeek(changes, now, {Applied, Validated, CanaryPassed})|
            && t.rolledBack == |InWeek(changes, now, {RolledBack, CanaryFailed})|
            && t.validated == |InWeek(changes, now, {Validated})|
            && |week| == |InWeek(changes, now, {Proposed, Applied, Validated, CanaryPassed, RolledBack, CanaryFailed, OtherStatus})|
  {
    var since, validated := now - WEEK, (c: Change) => c.status.Validated?;
    CountInWeek(changes, now, CountsAsApplied, {Applied, Validated, CanaryPassed});
    CountInWeek(changes, now, CountsAsRolledBack, {RolledBack, CanaryFailed});
    CountInWeek(changes, now, validated, {Validated});
    CountInWeek(changes, now, (c: Change) => true, {Proposed, Applied, Validated, CanaryPassed, RolledBack, CanaryFailed, OtherStatus});
    CountEverything(Recent(changes, since));
  }

  lemma CountInWeek(changes: seq<Change>, now: int, wanted: Change -> bool, statuses: set<ChangeStatus>)
    requires forall c: Change :: wanted(c) <==> c.status in statuses
    ensures Count(Recent(changes, now - WEEK), wanted) == |InWeek(changes, now, statuses)|
  {
    CountRecent(changes, now - WEEK, wanted);
    CountIsPositions(changes, RecentWith(now - WEEK, wanted));
    assert Positions(changes, RecentWith(now - WEEK, wanted)) == InWeek(changes, now, statuses);
  }

  /** An evaluation moves a rung exactly on at least five resolved changes: up if more than nine in ten
      are validated, down if fewer than seven in ten, unless at the end of the ladder; otherwise
      nothing changes. */
  lemma AdjustmentExactly(s: Settings, a: Autonomy, t: Tally)
    ensures var resolved := t.applied + t.rolledBack; var b := Adjusted(s, a, t).0;
            var up, down := resolved >= 5 && 10 * t.validated > 9 * resolved, resolved >= 5 && 10 * t.validated < 7 * resolved;
            && (up ==> b.level == match a.level case Restricted => Standard case Standard => Expanded case Expanded => Expanded)
            && (down ==> b.level == match a.level case Restricted => Restricted case Standard => Restricted case Expanded => Standard)
            && ((!up && !down) || b.level == a.level ==> b == a)
  {
    RateThresholds(t);
  }

  /** The two thresholds of the success rate without the division. */
  lemma RateThresholds(t: Tally)
    ensures t.Resolved() > 0 ==>
              (t.SuccessRate() > 0.90 <==> 10 * t.validated > 9 * t.Resolved()) && (t.SuccessRate() < 0.70 <==> 10 * t.validated < 7 * t.Resolved())
  {
    if t.Resolved() > 0 {
      var validated, resolved := t.validated as real, t.Resolved() as real;
      RatioAtLeast(validated, resolved, 0.70);
      RatioAtMost(validated, resolved, 0.90);
      assert 10 * t.validated > 9 * t.Resolved() <==> 10.0 * validated > 9.0 * resolved;
      assert 10 * t.validated < 7 * t.Resolved() <==> 10.0 * validated < 7.0 * resolved;
    }
  }

  /** The parameters of each level, from the configured ones. */
  lemma LevelParameters(s: Settings)
    ensures var restricted, standard, expanded := Canonical(s, Restricted), Canonical(s, Standard), Canonical(s, Expanded);
            && standard == Autonomy(Standard, s.minConfidence, s.minSamples, s.maxAppliesPerDay, ["routing", "threshold", "pattern"])
            && expanded.level == Expanded && restricted.level == Restricted
            && expanded.minConfidence >= s.confidenceFloor && expanded.minConfidence >= s.minConfidence - 0.05
            && (expanded.minConfidence == s.confidenceFloor || expanded.minConfidence == s.minConfidence - 0.05)
            && restricted.minConfidence <= s.confidenceCeiling && restricted.minConfidence <= s.minConfidence + 0.10
            && (restricted.minConfidence == s.confidenceCeiling || restricted.minConfidence == s.minConfidence + 0.10)
            && expanded.minSamples >= s.samplesFloor && expanded.minSamples >= s.minSamples - 5
            && (expanded.minSamples == s.samplesFloor || expanded.minSamples == s.minSamples - 5)
            && restricted.minSamples <= s.samplesCeiling && restricted.minSamples <= s.minSamples + 20
            && (restricted.minSamples == s.samplesCeiling || restricted.minSamples == s.minSamples + 20)
            && expanded.maxAppliesPerDay <= 20 && expanded.maxAppliesPerDay <= s.maxAppliesPerDay + 5
            && (expanded.maxAppliesPerDay == 20 || expanded.maxAppliesPerDay == s.maxAppliesPerDay + 5)
            && restricted.maxAppliesPerDay >= 2 && restricted.maxAppliesPerDay >= s.maxAppliesPerDay - 5
            && (restricted.maxAppliesPerDay == 2 || restricted.maxAppliesPerDay == s.maxAppliesPerDay - 5)
            && expanded.allowedTypes == ["routing", "threshold", "pattern", "prompt"] && restricted.allowedTypes == ["threshold"]
  {}

  /** A level changes by one rung at most, only on at least five resolved changes, and in the
      direction the success rate calls for. */
  lemma OneRungPerEvaluation(s: Settings, a: Autonomy, t: Tally)
    ensures var (b, adjusted) := Adjusted(s, a, t); var step := LevelRank(b.level) - LevelRank(a.level);
            && -1 <= step <= 1
            && (adjusted <==> step != 0)
            && (step > 0 <==> t.Resolved() >= 5 && t.SuccessRate() > 0.90 && a.level != Expanded)
            && (step < 0 <==> t.Resolved() >= 5 && t.SuccessRate() < 0.70 && a.level != Restricted)
  {}

  lemma {:induction false} ValidatedAreApplied(changes: seq<Change>)
    ensures TallyOf(changes).validated <= TallyOf(changes).applied
    ensures TallyOf(changes).Resolved() <= |changes|
  {
    if changes != [] { ValidatedAreApplied(changes[..|changes| - 1]); }
  }

  lemma SuccessRateInRange(changes: seq<Change>)
    ensures 0.0 <= TallyOf(changes).SuccessRate() <= 1.0
  {
    var t := TallyOf(changes);
    ValidatedAreApplied(changes);
    if t.Resolved() > 0 {
      RatioAtLeast(t.validated as real, t.Resolved() as real, 0.0);
      RatioAtMost(t.validated as real, t.Resolved() as real, 1.0);
    }
  }

  /** Changes that are applied but not yet validated count against the observer: without a single
      rollback a week leads to a restriction as soon as fewer than 70% of at least five applied
      changes are validated. */
  lemma UnvalidatedChangesRestrict(s: Settings, t: Tally)
    requires t.rolledBack == 0 && t.applied >= 5
    ensures Adjusted(s, StandardAutonomy(s), t).0.level == Restricted <==> 10 * t.validated < 7 * t.applied
  {
    RatioAtLeast(t.validated as real, t.Resolved() as real, 0.70);
  }

  // ----- The ladder is ordered -----

  /** `a` is at least as strict as `b` in every parameter. */
  predicate AtLeastAsStrict(a: Autonomy, b: Autonomy) {
    && a.minConfidence >= b.minConfidence && a.minSamples >= b.minSamples && a.maxAppliesPerDay <= b.maxAppliesPerDay
    && forall t :: t in a.allowedTypes ==> t in b.allowedTypes
  }

  /** The configured standard parameters lie inside the configured floors and ceilings and the built-in daily caps. */
  predicate InsideBounds(s: Settings) {
    && s.confidenceFloor <= s.minConfidence <= s.confidenceCeiling
    && s.samplesFloor <= s.minSamples <= s.samplesCeiling
    && 2 <= s.maxAppliesPerDay <= 20
  }

  /** Restricted is at least as strict as standard, and standard as expanded, exactly for settings
      inside the bounds; then every level's parameters stay inside them too. */
  lemma LadderIsOrderedIff(s: Settings)
    ensures AtLeastAsStrict(Canonical(s, Restricted), Canonical(s, Standard)) && AtLeastAsStrict(Canonical(s, Standard), Canonical(s, Expanded))
       <==> InsideBounds(s)
    ensures InsideBounds(s) ==> forall level ::
              var a := Canonical(s, level);
              && s.confidenceFloor <= a.minConfidence <= s.confidenceCeiling
              && s.samplesFloor <= a.minSamples <= s.samplesCeiling
              && 2 <= a.maxAppliesPerDay <= 20
  {
    assert STANDARD_TYPES[0] == "routing" && STANDARD_TYPES[1] == "threshold" && STANDARD_TYPES[2] == "pattern";
    assert EXPANDED_TYPES[0] == "routing" && EXPANDED_TYPES[1] == "threshold" && EXPANDED_TYPES[2] == "pattern";
    assert forall t :: t in RESTRICTED_TYPES ==> t in STANDARD_TYPES;
    assert forall t :: t in STANDARD_TYPES ==> t in EXPANDED_TYPES;
  }

  // ----- Histories -----

  /** The history kept after recording all of `entries` with limit `n`. */
  function Kept<T>(entries: seq<T>, n: int): seq<T> {
    if entries == [] then [] else Appended(Kept(entries[..|entries| - 1], n), entries[|entries| - 1], n)
  }

  /** A positive limit keeps the most recent entries; a negative one keeps nothing; and a limit of
      zero, because the slice `[-0:]` is the whole list, keeps everything. */
  lemma {:induction false} KeptEntries<T>(entries: seq<T>, n: int)
    ensures n > 0 ==> Kept(entries, n) == if |entries| > n then entries[|entries| - n..] else entries
    ensures n < 0 ==> Kept(entries, n) == []
    ensures n == 0 ==> Kept(entries, n) == entries
  {
    if entries != [] {
      var init, last := entries[..|entries| - 1], entries[|entries| - 1];
      KeptEntries(init, n);
      assert entries == init + [last];
      if n > 0 {
        if |init| > n {
          assert init[|init| - n..] + [last] == entries[|entries| - n - 1..];
        }
      }
    }
  }

  /** With a positive daily limit the change history is what thirty days at the limit can add. */
  lemma MonthIsKept(s: Settings, entries: seq<Change>)
    requires s.maxAppliesPerDay > 0
    ensures var n := HistoryLimit(s);
            n == 30 * s.maxAppliesPerDay && Kept(entries, n) == if |entries| > n then entries[|entries| - n..] else entries
  {
    KeptEntries(entries, HistoryLimit(s));
  }

  ghost predicate HistoryBoundedBy(s: Settings, bound: nat) {
    forall entries: seq<Change> :: |Kept(entries, HistoryLimit(s))| <= bound
  }

  /** The change history is bounded, over all runs, exactly when the daily limit is not zero. */
  lemma ChangeHistoryIsBoundedIff(s: Settings)
    ensures (exists bound: nat :: HistoryBoundedBy(s, bound)) <==> s.maxAppliesPerDay != 0
  {
    var n := HistoryLimit(s);
    if s.maxAppliesPerDay != 0 {
      forall entries: seq<Change> ensures |Kept(entries, n)| <= Max(n, 0) {
        KeptEntries(entries, n);
      }
      assert HistoryBoundedBy(s, Max(n, 0));
    } else {
      forall bound: nat ensures !HistoryBoundedBy(s, bound) {
        var entries := seq(bound + 1, _ => Change(0, Applied));
        KeptEntries(entries, n);
        assert |Kept(entries, n)| > bound;
      }
    }
  }
}
