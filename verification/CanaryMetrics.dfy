/** What a canary experiment records for its two variants, and the metrics it reports.

    Times and identities of samples play no part in the metrics and are left out. */
module CanaryMetrics {
  import opened Basics
  import opened Summation

  datatype Sample = Sample(confidence: real, latency: int, error: bool, escalated: bool, cost: real)

  datatype Metrics = Metrics(count: nat, confidence: real, latency: real, p95: real, errorRate: real, escalationRate: real, cost: real)

  const CANARY := "canary"

  // ----- Recording -----

  datatype Recorded = Recorded(control: seq<Sample>, canary: seq<Sample>)

  function Record(r: Recorded, variant: string, sample: Sample): Recorded {
    if variant == CANARY then r.(canary := r.canary + [sample]) else r.(control := r.control + [sample])
  }

  /** Every recording of a run, in order, on a fresh experiment. */
  function RecordAll(results: seq<(string, Sample)>): Recorded {
    if results == [] then Recorded([], [])
    else
      var last := results[|results| - 1];
      Record(RecordAll(results[..|results| - 1]), last.0, last.1)
  }

  function SamplesOf(results: seq<(string, Sample)>): (samples: seq<Sample>)
    ensures |samples| == |results|
    ensures forall i :: 0 <= i < |results| ==> samples[i] == results[i].1
  {
    seq(|results|, i requires 0 <= i < |results| => results[i].1)
  }

  class CanaryExperiment {
    var controlSamples: seq<Sample>
    var canarySamples: seq<Sample>

    ghost function Contents(): Recorded
      reads this
    {
      Recorded(controlSamples, canarySamples)
    }

    constructor ()
      ensures Contents() == RecordAll([])
    {
      controlSamples, canarySamples := [], [];
    }

    method RecordResult(variant: string, sample: Sample)
      modifies this
      ensures Contents() == Record(old(Contents()), variant, sample)
    {
      if variant == CANARY {
        canarySamples := canarySamples + [sample];
      } else {
        controlSamples := controlSamples + [sample];
      }
    }

    method GetStatus() returns (control: Metrics, canary: Metrics)
      ensures control == ComputeMetrics(controlSamples) && canary == ComputeMetrics(canarySamples)
    {
      control, canary := ComputeMetrics(controlSamples), ComputeMetrics(canarySamples);
    }
  }

  lemma RecordAddsOne(r: Recorded, variant: string, sample: Sample)
    ensures var after := Record(r, variant, sample);
            && multiset(after.control) + multiset(after.canary) == multiset(r.control) + multiset(r.canary) + multiset{sample}
            && |after.control| + |after.canary| == |r.control| + |r.canary| + 1
            && |after.canary| == |r.canary| + if variant == CANARY then 1 else 0
  {}

  lemma SamplesOfOneMore(results: seq<(string, Sample)>)
    requires results != []
    ensures multiset(SamplesOf(results)) == multiset(SamplesOf(results[..|results| - 1])) + multiset{results[|results| - 1].1}
  {
    assert SamplesOf(results) == SamplesOf(results[..|results| - 1]) + [results[|results| - 1].1];
  }

  /** Recording loses and invents nothing: the two variants together hold exactly the recorded
      samples, and the canary list those recorded under exactly its name. */
  lemma {:induction false} EverySampleIsRecordedOnce(results: seq<(string, Sample)>)
    ensures var r := RecordAll(results);
            && multiset(r.control) + multiset(r.canary) == multiset(SamplesOf(results))
            && |r.control| + |r.canary| == |results|
            && |r.canary| == Count(results, ForCanary())
  {
    if results == [] {
      assert SamplesOf(results) == [];
    } else {
      var init, last := results[..|results| - 1], results[|results| - 1];
      EverySampleIsRecordedOnce(init);
      RecordAddsOne(RecordAll(init), last.0, last.1);
      SamplesOfOneMore(results);
    }
  }

  function ForCanary(): ((string, Sample)) -> bool {
    (r: (string, Sample)) => r.0 == CANARY
  }

  // ----- Sorting -----

  ghost predicate Ascending(s: seq<int>) {
    forall i, j :: 0 <= i < j < |s| ==> s[i] <= s[j]
  }

  function Insert(x: int, s: seq<int>): (r: seq<int>)
    ensures multiset(r) == multiset(s) + multiset{x}
  {
    if s == [] || x <= s[0] then [x] + s
    else
      assert s == [s[0]] + s[1..];
      [s[0]] + Insert(x, s[1..])
  }

  lemma InsertedOrOld(x: int, s: seq<int>, y: int)
    requires y in Insert(x, s)
    ensures y == x || y in s
  {
    assert y in multiset(Insert(x, s));
  }

  lemma {:induction false} InsertKeepsAscending(x: int, s: seq<int>)
    requires Ascending(s)
    ensures Ascending(Insert(x, s))
  {
    if s != [] && s[0] < x {
      var rest := Insert(x, s[1..]);
      InsertKeepsAscending(x, s[1..]);
      forall i | 0 <= i < |rest| ensures s[0] <= rest[i] {
        InsertedOrOld(x, s[1..], rest[i]);
      }
    }
  }

  function Sorted(s: seq<int>): (r: seq<int>)
    ensures multiset(r) == multiset(s)
    ensures Ascending(r)
    ensures |r| == |s|
  {
    if s == [] then []
    else
      assert s == [s[0]] + s[1..];
      InsertKeepsAscending(s[0], Sorted(s[1..]));
      Insert(s[0], Sorted(s[1..]))
  }

  // ----- Metrics -----

  function Latencies(samples: seq<Sample>): (r: seq<int>)
    ensures |r| == |samples|
    ensures forall i :: 0 <= i < |samples| ==> r[i] == samples[i].latency
  {
    seq(|samples|, i requires 0 <= i < |samples| => samples[i].latency)
  }

  function Confidence(): Sample -> real { (s: Sample) => s.confidence }
  function Latency(): Sample -> real { (s: Sample) => s.latency as real }
  function Cost(): Sample -> real { (s: Sample) => s.cost }
  function Failed(): Sample -> bool { (s: Sample) => s.error }
  function Escalated(): Sample -> bool { (s: Sample) => s.escalated }

  function Mean(samples: seq<Sample>, value: Sample -> real): real
    requires samples != []
  {
    SumOf(samples, value) / |samples| as real
  }

  function Rate(samples: seq<Sample>, p: Sample -> bool): real
    requires samples != []
  {
    Count(samples, p) as real / |samples| as real
  }

  function P95Index(n: nat): (i: nat)
    requires n > 0
    ensures i < n
  {
    Min(95 * n / 100, n - 1)
  }

  function ComputeMetrics(samples: seq<Sample>): Metrics {
    if samples == [] then Metrics(0, 0.0, 0.0, 0.0, 0.0, 0.0, 0.0)
    else
      Metrics(|samples|, Mean(samples, Confidence()), Mean(samples, Latency()),
              Sorted(Latencies(samples))[P95Index(|samples|)] as real,
              Rate(samples, Failed()), Rate(samples, Escalated()), Mean(samples, Cost()))
  }

  // ----- The percentile -----

  function AtMost(bound: int): int -> bool {
    (x: int) => x <= bound
  }

  function LatencyAtMost(bound: int): Sample -> bool {
    (s: Sample) => s.latency <= bound
  }

  lemma {:induction false} CountsAgree(samples: seq<Sample>, bound: int)
    ensures Count(Latencies(samples), AtMost(bound)) == Count(samples, LatencyAtMost(bound))
  {
    if samples != [] {
      var init := samples[..|samples| - 1];
      CountsAgree(init, bound);
      assert Latencies(samples)[..|samples| - 1] == Latencies(init);
    }
  }

  /** In an ascending sequence, the element at `i` is within a bound exactly when more than `i` elements are. */
  lemma {:induction false} RankInAscending(s: seq<int>, i: nat, bound: int)
    requires Ascending(s) && i < |s|
    ensures s[i] <= bound <==> Count(s, AtMost(bound)) > i
    decreases |s|
  {
    var init, last := s[..|s| - 1], s[|s| - 1];
    CountIsSum(init, AtMost(bound));
    if i < |init| {
      RankInAscending(init, i, bound);
      if s[i] > bound { assert last > bound; }
    } else if last <= bound && i > 0 {
      RankInAscending(init, i - 1, bound);
    }
  }

  lemma PositionIsRank(latencies: seq<int>, i: nat, v: int)
    requires i < |latencies|
    ensures Sorted(latencies)[i] == v <==>
      v in latencies && Count(latencies, AtMost(v - 1)) <= i < Count(latencies, AtMost(v))
  {
    var s := Sorted(latencies);
    CountIgnoresOrder(s, latencies, AtMost(v));
    CountIgnoresOrder(s, latencies, AtMost(v - 1));
    RankInAscending(s, i, v);
    RankInAscending(s, i, v - 1);
    assert s[i] in multiset(latencies);
  }

  lemma PositionIsShare(n: nat, below: nat, within: nat)
    requires n > 0
    ensures below <= P95Index(n) < within <==> 100 * below <= 95 * n < 100 * within
  {
  }

  /** The reported percentile is the one latency that occurs in the sample, with at most 95 percent
      of the samples below it and more than 95 percent at or below it. Latencies are whole
      milliseconds, so below `v` means at most `v - 1`. */
  lemma P95Exactly(samples: seq<Sample>, v: int)
    requires samples != []
    ensures ComputeMetrics(samples).p95 == v as real <==>
      && (exists s :: s in samples && s.latency == v)
      && 100 * Count(samples, LatencyAtMost(v - 1)) <= 95 * |samples| < 100 * Count(samples, LatencyAtMost(v))
  {
    PositionIsRank(Latencies(samples), P95Index(|samples|), v);
    CountsAgree(samples, v);
    CountsAgree(samples, v - 1);
    PositionIsShare(|samples|, Count(samples, LatencyAtMost(v - 1)), Count(samples, LatencyAtMost(v)));
    LatenciesOccur(samples, v);
  }

  lemma LatenciesOccur(samples: seq<Sample>, v: int)
    ensures v in Latencies(samples) <==> exists s :: s in samples && s.latency == v
  {
    if v in Latencies(samples) {
      var i :| 0 <= i < |samples| && Latencies(samples)[i] == v;
      assert samples[i] in samples;
    }
  }

  /** With at most twenty samples the reported percentile is simply the slowest sample; with more,
      at least one sample lies beyond its position. */
  lemma P95IsLastIff(n: nat)
    requires n > 0
    ensures P95Index(n) == n - 1 <==> n <= 20
  {
  }

  /** The position is that of the nearest-rank percentile (the least rank covering 95 percent),
      except when the count is a multiple of twenty: then it is one further. */
  lemma NearestRankIff(n: nat, rank: nat)
    requires n > 0
    requires 100 * rank >= 95 * n && 100 * (rank - 1) < 95 * n
    ensures P95Index(n) == rank - 1 <==> n % 20 != 0
    ensures n % 20 == 0 ==> P95Index(n) == rank
  {
  }

  // ----- Averages and rates -----

  lemma OneMoreTimes(x: real, n: nat)
    ensures x * (n + 1) as real == x * n as real + x
  {}

  lemma {:induction false} SumWithin(samples: seq<Sample>, value: Sample -> real, low: real, high: real)
    requires forall s :: s in samples ==> low <= value(s) <= high
    ensures low * |samples| as real <= SumOf(samples, value) <= high * |samples| as real
  {
    if samples != [] {
      var n := |samples| - 1;
      SumWithin(samples[..n], value, low, high);
      OneMoreTimes(low, n);
      OneMoreTimes(high, n);
    }
  }

  /** Some sample has at most the value `x`, and some sample at least. */
  ghost predicate IsBetween(samples: seq<Sample>, value: Sample -> real, x: real) {
    exists a, b :: a in samples && b in samples && value(a) <= x <= value(b)
  }

  lemma {:induction false} Extremes(samples: seq<Sample>, value: Sample -> real) returns (least: Sample, greatest: Sample)
    requires samples != []
    ensures least in samples && greatest in samples
    ensures forall s :: s in samples ==> value(least) <= value(s) <= value(greatest)
  {
    var last := samples[|samples| - 1];
    if |samples| == 1 {
      least, greatest := last, last;
    } else {
      least, greatest := Extremes(samples[..|samples| - 1], value);
      if value(last) < value(least) { least := last; }
      if value(last) > value(greatest) { greatest := last; }
    }
  }

  lemma MeanIsBetween(samples: seq<Sample>, value: Sample -> real)
    requires samples != []
    ensures IsBetween(samples, value, Mean(samples, value))
  {
    var least, greatest := Extremes(samples, value);
    SumWithin(samples, value, value(least), value(greatest));
    var n := |samples| as real;
    RatioAtLeast(SumOf(samples, value), n, value(least));
    RatioAtMost(SumOf(samples, value), n, value(greatest));
  }

  lemma {:induction false} CountNone<T>(items: seq<T>, p: T -> bool)
    ensures Count(items, p) == 0 <==> forall i :: 0 <= i < |items| ==> !p(items[i])
  {
    if items != [] {
      CountNone(items[..|items| - 1], p);
      assert Count(items, p) == 0 ==> !p(items[|items| - 1]);
    }
  }

  lemma {:induction false} CountAll<T>(items: seq<T>, p: T -> bool)
    ensures Count(items, p) <= |items|
    ensures Count(items, p) == |items| <==> forall i :: 0 <= i < |items| ==> p(items[i])
  {
    if items != [] { CountAll(items[..|items| - 1], p); }
  }

  lemma RateIsShare(samples: seq<Sample>, p: Sample -> bool)
    requires samples != []
    ensures 0.0 <= Rate(samples, p) <= 1.0
    ensures Rate(samples, p) == 0.0 <==> forall s :: s in samples ==> !p(s)
    ensures Rate(samples, p) == 1.0 <==> forall s :: s in samples ==> p(s)
  {
    CountNone(samples, p);
    CountAll(samples, p);
    var part, whole := Count(samples, p) as real, |samples| as real;
    RatioAtLeast(part, whole, 0.0);
    RatioAtMost(part, whole, 0.0);
    RatioAtLeast(part, whole, 1.0);
    RatioAtMost(part, whole, 1.0);
  }

  /** Every reported average lies between two samples' values, and every rate is a share of the
      samples that is none or all exactly when none or all of them have the property. */
  lemma MetricsAreWithinSamples(samples: seq<Sample>)
    requires samples != []
    ensures var m := ComputeMetrics(samples);
            && IsBetween(samples, Confidence(), m.confidence)
            && IsBetween(samples, Latency(), m.latency)
            && IsBetween(samples, Cost(), m.cost)
            && 0.0 <= m.errorRate <= 1.0 && 0.0 <= m.escalationRate <= 1.0
            && (m.errorRate == 0.0 <==> forall s :: s in samples ==> !s.error)
            && (m.errorRate == 1.0 <==> forall s :: s in samples ==> s.error)
            && (m.escalationRate == 0.0 <==> forall s :: s in samples ==> !s.escalated)
            && (m.escalationRate == 1.0 <==> forall s :: s in samples ==> s.escalated)
  {
    MeanIsBetween(samples, Confidence());
    MeanIsBetween(samples, Latency());
    MeanIsBetween(samples, Cost());
    RateIsShare(samples, Failed());
    RateIsShare(samples, Escalated());
    assert forall s: Sample :: Failed()(s) == s.error;
    assert forall s: Sample :: Escalated()(s) == s.escalated;
  }

  /** The number `x`, taken once for every sample, makes up the sum of the measure. */
  ghost predicate IsMean(x: real, samples: seq<Sample>, value: Sample -> real) {
    x * |samples| as real == SumOf(samples, value)
  }

  /** The number `x` is the share of these positions. */
  ghost predicate IsShare(x: real, samples: seq<Sample>, positions: set<int>) {
    x * |samples| as real == |positions| as real
  }

  lemma MeanIsMean(samples: seq<Sample>, f: Sample -> real, g: Sample -> real)
    requires samples != [] && forall s :: f(s) == g(s)
    ensures IsMean(Mean(samples, f), samples, g)
  {
    SumsAgree(samples, f, g);
    TimesQuotient(SumOf(samples, f), |samples| as real);
  }

  lemma RateIsRate(samples: seq<Sample>, p: Sample -> bool)
    requires samples != []
    ensures IsShare(Rate(samples, p), samples, set i | 0 <= i < |samples| && p(samples[i]))
  {
    CountIsPositions(samples, p);
    assert Positions(samples, p) == set i | 0 <= i < |samples| && p(samples[i]);
    TimesQuotient(Count(samples, p) as real, |samples| as real);
  }

  /** Every average makes up the sum, and every rate is the share of the samples concerned; without
      samples everything is zero. */
  lemma MetricsExactly(samples: seq<Sample>)
    ensures samples == [] ==> ComputeMetrics(samples) == Metrics(0, 0.0, 0.0, 0.0, 0.0, 0.0, 0.0)
    ensures samples != [] ==>
              var m := ComputeMetrics(samples);
              && m.count == |samples|
              && IsMean(m.confidence, samples, (s: Sample) => s.confidence)
              && IsMean(m.latency, samples, (s: Sample) => s.latency as real)
              && IsMean(m.cost, samples, (s: Sample) => s.cost)
              && IsShare(m.errorRate, samples, set i | 0 <= i < |samples| && samples[i].error)
              && IsShare(m.escalationRate, samples, set i | 0 <= i < |samples| && samples[i].escalated)
  {
    if samples != [] {
      MeanIsMean(samples, Confidence(), (s: Sample) => s.confidence);
      MeanIsMean(samples, Latency(), (s: Sample) => s.latency as real);
      MeanIsMean(samples, Cost(), (s: Sample) => s.cost);
      RateIsRate(samples, Failed());
      assert (set i | 0 <= i < |samples| && Failed()(samples[i])) == set i | 0 <= i < |samples| && samples[i].error;
      RateIsRate(samples, Escalated());
      assert (set i | 0 <= i < |samples| && Escalated()(samples[i])) == set i | 0 <= i < |samples| && samples[i].escalated;
    }
  }

  lemma TimesQuotient(a: real, b: real)
    requires b != 0.0
    ensures a / b * b == a
  {}

  lemma {:induction false} SumsAgree(samples: seq<Sample>, f: Sample -> real, g: Sample -> real)
    requires forall s :: f(s) == g(s)
    ensures SumOf(samples, f) == SumOf(samples, g)
  {
    if samples != [] { SumsAgree(samples[..|samples| - 1], f, g); }
  }

  /** The order in which concurrent requests report does not change any metric. */
  lemma MetricsIgnoreOrder(a: seq<Sample>, b: seq<Sample>)
    requires multiset(a) == multiset(b)
    ensures ComputeMetrics(a) == ComputeMetrics(b)
  {
    assert |multiset(a)| == |a| && |multiset(b)| == |b|;
    if a != [] {
      SumIgnoresOrder(a, b, Confidence());
      SumIgnoresOrder(a, b, Latency());
      SumIgnoresOrder(a, b, Cost());
      CountIgnoresOrder(a, b, Failed());
      CountIgnoresOrder(a, b, Escalated());
      var v := Sorted(Latencies(a))[P95Index(|a|)];
      P95Exactly(a, v);
      CountIgnoresOrder(a, b, LatencyAtMost(v));
      CountIgnoresOrder(a, b, LatencyAtMost(v - 1));
      var s :| s in a && s.latency == v;
      assert s in multiset(b);
      P95Exactly(b, v);
    }
  }
}
