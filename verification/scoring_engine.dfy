/**
 * The popularity scoring engine: per-metric normalisation and the
 * redistribution of the base weights over the metrics that are not excluded.
 */
module ScoringEngine {
  import opened Numeric

  datatype Metric = Stars | Forks | Recency

  const MaxStars: real := 400000.0
  const MaxForks: real := 250000.0
  /** Two years, in days. */
  const MaxAge: real := 730.0
  const MillisPerDay: int := 1000 * 60 * 60 * 24

  /** The metrics in the key order of the base-weight record. */
  const AllMetrics: seq<Metric> := [Stars, Forks, Recency]

  /** The base weights; they add up to 1. */
  function InitialWeight(m: Metric): real
  {
    match m
    case Stars => 0.5
    case Forks => 0.3
    case Recency => 0.2
  }

  /** A weight per metric. */
  datatype Weights = Weights(stars: real, forks: real, recency: real) {
    function Get(m: Metric): real
    {
      match m
      case Stars => stars
      case Forks => forks
      case Recency => recency
    }

    /** The record with the entry of m replaced by w. */
    function With(m: Metric, w: real): (r: Weights)
      ensures r.Get(m) == w
      ensures forall n :: n != m ==> r.Get(n) == Get(n)
    {
      match m
      case Stars => this.(stars := w)
      case Forks => this.(forks := w)
      case Recency => this.(recency := w)
    }

    function Sum(): real
    {
      stars + forks + recency
    }
  }

  /** Weight and weighted value of one metric. */
  datatype MetricScore = MetricScore(weight: real, value: real)

  /** The score breakdown: one weight and value per metric. */
  datatype Breakdown = Breakdown(stars: MetricScore, forks: MetricScore, recency: MetricScore) {
    function Get(m: Metric): MetricScore
    {
      match m
      case Stars => stars
      case Forks => forks
      case Recency => recency
    }
  }

  /** The inputs of one scoring call; `lastUpdated` is in milliseconds since the epoch. */
  datatype RepoScoringData = RepoScoringData(stars: int, forks: int, lastUpdated: int)

  /** The metrics of ms that are not excluded, in their order in ms. */
  function Filter(ms: seq<Metric>, excluded: seq<Metric>): (inc: seq<Metric>)
    ensures forall m :: m in inc <==> m in ms && m !in excluded
    ensures |inc| <= |ms|
  {
    if |ms| == 0 then []
    else if ms[0] in excluded then Filter(ms[1..], excluded)
    else [ms[0]] + Filter(ms[1..], excluded)
  }

  /** The metrics that keep a weight. */
  function IncludedMetrics(excluded: seq<Metric>): (inc: seq<Metric>)
    ensures forall m :: m in inc <==> m !in excluded
  {
    EveryMetricIsListed();
    Filter(AllMetrics, excluded)
  }

  lemma EveryMetricIsListed()
    ensures forall m :: m in AllMetrics
  {
    forall m ensures m in AllMetrics {
      match m
      case Stars => assert AllMetrics[0] == m;
      case Forks => assert AllMetrics[1] == m;
      case Recency => assert AllMetrics[2] == m;
    }
  }

  /** The included metrics spelled out: those not excluded, in the order stars, forks, recency. */
  lemma IncludedMetricsExplicit(excluded: seq<Metric>)
    ensures IncludedMetrics(excluded) ==
      (if Stars in excluded then [] else [Stars]) +
      (if Forks in excluded then [] else [Forks]) +
      (if Recency in excluded then [] else [Recency])
  {
    assert AllMetrics[1..] == [Forks, Recency];
    assert [Forks, Recency][1..] == [Recency];
    assert [Recency][1..] == [];
    var last := Filter([Recency], excluded);
    assert last == (if Recency in excluded then [] else [Recency]);
    var tail := Filter([Forks, Recency], excluded);
    assert tail == (if Forks in excluded then [] else [Forks]) + last;
  }

  /** Sum of the base weights of ms. */
  function TotalWeight(ms: seq<Metric>): (t: real)
    ensures t >= 0.0
    ensures forall m :: m in ms ==> t >= InitialWeight(m)
  {
    if |ms| == 0 then 0.0 else InitialWeight(ms[0]) + TotalWeight(ms[1..])
  }

  /** The adjusted weight of one metric: 0 when excluded, otherwise its base weight
      divided by the total base weight of the included metrics, rounded to hundredths. */
  function AdjustedWeight(excluded: seq<Metric>, m: Metric): real
  {
    if m in excluded then 0.0
    else Round2(InitialWeight(m) / TotalWeight(IncludedMetrics(excluded)))
  }

  function AdjustedWeights(excluded: seq<Metric>): (w: Weights)
    ensures forall m :: w.Get(m) == AdjustedWeight(excluded, m)
  {
    Weights(AdjustedWeight(excluded, Stars), AdjustedWeight(excluded, Forks), AdjustedWeight(excluded, Recency))
  }

  /**
   * `getAdjustedWeights`: start from all-zero weights, write the rounded share of
   * each included metric, then write 0 for every metric of the exclusion list.
   */
  method GetAdjustedWeights(excluded: seq<Metric>) returns (w: Weights)
    ensures w == AdjustedWeights(excluded)
  {
    var included := IncludedMetrics(excluded);
    var totalWeight := TotalWeight(included);
    w := Weights(0.0, 0.0, 0.0);
    var i := 0;
    while i < |included|
      invariant 0 <= i <= |included|
      invariant forall m ::
                  w.Get(m) == (if m in included[..i] then Round2(InitialWeight(m) / totalWeight) else 0.0)
    {
      var m := included[i];
      w := w.With(m, Round2(InitialWeight(m) / totalWeight));
      assert included[..i + 1] == included[..i] + [m];
      i := i + 1;
    }
    assert included[..i] == included;
    var j := 0;
    while j < |excluded|
      invariant 0 <= j <= |excluded|
      invariant forall m ::
                  w.Get(m) == (if m in excluded[..j] then 0.0
                               else if m in included then Round2(InitialWeight(m) / totalWeight)
                               else 0.0)
    {
      w := w.With(excluded[j], 0.0);
      assert excluded[..j + 1] == excluded[..j] + [excluded[j]];
      j := j + 1;
    }
    assert excluded[..j] == excluded;
    assert forall m :: w.Get(m) == AdjustedWeights(excluded).Get(m);
  }

  /** Elapsed days from lastUpdated to now; negative when lastUpdated lies in the future. */
  function AgeInDays(now: int, lastUpdated: int): real
  {
    (now - lastUpdated) as real / MillisPerDay as real
  }

  /** `min(x / max, 1)`: only the upper bound is clamped. */
  function Normalize(x: real, max: real): (r: real)
    requires max > 0.0
    ensures r <= 1.0
    ensures x >= 0.0 ==> r >= 0.0
    ensures x <= max ==> r == x / max
    ensures x >= max ==> r == 1.0
  {
    if x >= max then
      RatioAtLeastOne(x, max);
      Min(x / max, 1.0)
    else
      Min(x / max, 1.0)
  }

  lemma RatioAtLeastOne(x: real, max: real)
    requires 0.0 < max <= x
    ensures x / max >= 1.0
  {
    assert x / max * max == x;
    assert (x / max - 1.0) * max == x - max;
  }

  /** A normalised measure weighted and scaled to a percentage, rounded to hundredths. */
  function WeightedValue(normalized: real, weight: real): real
  {
    Round2(normalized * weight * 100.0)
  }

  /**
   * `getIndividualScore`: each metric's value is its normalised measure times its
   * adjusted weight times 100, rounded to hundredths; recency uses one minus the
   * normalised age, so a more recent update scores higher.
   */
  function GetIndividualScore(repo: RepoScoringData, excluded: seq<Metric>, now: int): (b: Breakdown)
    ensures forall m :: b.Get(m).weight == AdjustedWeight(excluded, m)
  {
    var normalizedStars := Normalize(repo.stars as real, MaxStars);
    var normalizedForks := Normalize(repo.forks as real, MaxForks);
    var normalizedAge := Normalize(AgeInDays(now, repo.lastUpdated), MaxAge);
    var w := AdjustedWeights(excluded);
    Breakdown(
      MetricScore(w.stars, WeightedValue(normalizedStars, w.stars)),
      MetricScore(w.forks, WeightedValue(normalizedForks, w.forks)),
      MetricScore(w.recency, WeightedValue(1.0 - normalizedAge, w.recency)))
  }

  // ---------------------------------------------------------------------------
  // Properties of the weights
  // ---------------------------------------------------------------------------

  /** A positive part of a whole is a share in (0, 1]. */
  lemma ShareAtMostOne(part: real, whole: real)
    requires 0.0 < part <= whole
    ensures 0.0 < part / whole <= 1.0
  {
    assert part / whole * whole == part;
  }

  /** Each adjusted weight is a whole number of hundredths between 0 and 1. */
  lemma AdjustedWeightRange(excluded: seq<Metric>, m: Metric)
    ensures 0.0 <= AdjustedWeight(excluded, m) <= 1.0
    ensures IsHundredths(AdjustedWeight(excluded, m))
  {
    if m !in excluded {
      var t := TotalWeight(IncludedMetrics(excluded));
      assert m in IncludedMetrics(excluded);
      ShareAtMostOne(InitialWeight(m), t);
      Round2Monotone(InitialWeight(m) / t, 1.0);
      IntegerIsHundredths(1);
      Round2Exact(1.0);
    } else {
      IntegerIsHundredths(0);
    }
  }

  /** Only membership in the exclusion list matters: neither order nor repetition. */
  lemma WeightsDependOnMembershipOnly(e1: seq<Metric>, e2: seq<Metric>)
    requires forall m :: m in e1 <==> m in e2
    ensures AdjustedWeights(e1) == AdjustedWeights(e2)
  {
    assert IncludedMetrics(e1) == IncludedMetrics(e2) by {
      FilterDependsOnMembershipOnly(AllMetrics, e1, e2);
    }
  }

  lemma {:induction false} FilterDependsOnMembershipOnly(ms: seq<Metric>, e1: seq<Metric>, e2: seq<Metric>)
    requires forall m :: m in e1 <==> m in e2
    ensures Filter(ms, e1) == Filter(ms, e2)
  {
    if |ms| > 0 {
      FilterDependsOnMembershipOnly(ms[1..], e1, e2);
    }
  }

  /** With nothing excluded the adjusted weights are exactly the base weights. */
  lemma NoExclusionKeepsBaseWeights(excluded: seq<Metric>)
    requires Stars !in excluded && Forks !in excluded && Recency !in excluded
    ensures AdjustedWeights(excluded) == Weights(0.5, 0.3, 0.2)
  {
    IncludedMetricsExplicit(excluded);
    assert TotalWeight([Recency]) == 0.2;
    assert TotalWeight([Forks, Recency]) == 0.5;
    assert TotalWeight(IncludedMetrics(excluded)) == 1.0;
    BaseWeightUnchanged(Stars);
    BaseWeightUnchanged(Forks);
    BaseWeightUnchanged(Recency);
  }

  lemma BaseWeightUnchanged(m: Metric)
    ensures Round2(InitialWeight(m) / 1.0) == InitialWeight(m)
  {
    assert InitialWeight(m) / 1.0 == InitialWeight(m);
    assert IsHundredths(InitialWeight(m));
    Round2Exact(InitialWeight(m));
  }

  /** When all three metrics are excluded the included list is empty, so the zero
      total is never divided by, and every weight is 0. */
  lemma AllExcludedGivesZeroWeights(excluded: seq<Metric>)
    requires Stars in excluded && Forks in excluded && Recency in excluded
    ensures IncludedMetrics(excluded) == []
    ensures AdjustedWeights(excluded) == Weights(0.0, 0.0, 0.0)
  {
    IncludedMetricsExplicit(excluded);
  }

  /** When exactly one metric is left, it carries the whole weight. */
  lemma SingleIncludedMetricHasWeightOne(excluded: seq<Metric>, m: Metric)
    requires m !in excluded
    requires forall n :: n != m ==> n in excluded
    ensures AdjustedWeight(excluded, m) == 1.0
    ensures forall n :: n != m ==> AdjustedWeight(excluded, n) == 0.0
  {
    IncludedMetricsExplicit(excluded);
    assert IncludedMetrics(excluded) == [m];
    assert TotalWeight([m]) == InitialWeight(m);
    IntegerIsHundredths(1);
    Round2Exact(1.0);
  }

  /** Each included weight is its base weight's share of the included total, rounded,
      and so within half a hundredth of the exact share. */
  lemma IncludedWeightIsRoundedShare(excluded: seq<Metric>, m: Metric)
    requires m !in excluded
    ensures TotalWeight(IncludedMetrics(excluded)) >= InitialWeight(m) > 0.0
    ensures AdjustedWeight(excluded, m) == Round2(InitialWeight(m) / TotalWeight(IncludedMetrics(excluded)))
    ensures InitialWeight(m) / TotalWeight(IncludedMetrics(excluded)) - 0.005
            <= AdjustedWeight(excluded, m)
            <= InitialWeight(m) / TotalWeight(IncludedMetrics(excluded)) + 0.005
  {
  }

  /** Excluding stars alone leaves forks 0.6 and recency 0.4. */
  lemma StarsExcludedWeights(excluded: seq<Metric>)
    requires Stars in excluded && Forks !in excluded && Recency !in excluded
    ensures AdjustedWeights(excluded) == Weights(0.0, 0.6, 0.4)
  {
    IncludedMetricsExplicit(excluded);
    assert TotalWeight([Forks, Recency]) == 0.5;
    Round2Exact(0.6);
    Round2Exact(0.4);
  }

  /** Excluding forks alone leaves stars 0.71 and recency 0.29. */
  lemma ForksExcludedWeights(excluded: seq<Metric>)
    requires Stars !in excluded && Forks in excluded && Recency !in excluded
    ensures AdjustedWeights(excluded) == Weights(0.71, 0.0, 0.29)
  {
    IncludedMetricsExplicit(excluded);
    assert TotalWeight([Stars, Recency]) == 0.7;
    assert (0.5 / 0.7 * 100.0 + 0.5).Floor == 71;
    assert (0.2 / 0.7 * 100.0 + 0.5).Floor == 29;
  }

  /** Excluding recency alone leaves stars and forks within half a hundredth of
      their shares 5/8 and 3/8 (both exact halfway points). */
  lemma RecencyExcludedWeights(excluded: seq<Metric>)
    requires Stars !in excluded && Forks !in excluded && Recency in excluded
    ensures 0.62 <= AdjustedWeight(excluded, Stars) <= 0.63
    ensures 0.37 <= AdjustedWeight(excluded, Forks) <= 0.38
    ensures AdjustedWeight(excluded, Recency) == 0.0
    ensures 0.99 <= AdjustedWeights(excluded).Sum() <= 1.01
  {
    IncludedMetricsExplicit(excluded);
    assert TotalWeight([Stars, Forks]) == 0.8;
    IncludedWeightIsRoundedShare(excluded, Stars);
    IncludedWeightIsRoundedShare(excluded, Forks);
  }

  /** When at least one metric is left, the weights add up to 1 within a hundredth. */
  lemma WeightSumNearOne(excluded: seq<Metric>)
    requires Stars !in excluded || Forks !in excluded || Recency !in excluded
    ensures 0.99 <= AdjustedWeights(excluded).Sum() <= 1.01
  {
    var s, f, r := Stars in excluded, Forks in excluded, Recency in excluded;
    if !s && !f && !r {
      NoExclusionKeepsBaseWeights(excluded);
    } else if s && !f && !r {
      StarsExcludedWeights(excluded);
    } else if !s && f && !r {
      ForksExcludedWeights(excluded);
    } else if !s && !f && r {
      RecencyExcludedWeights(excluded);
    } else if s && f {
      SingleIncludedMetricHasWeightOne(excluded, Recency);
    } else if s && r {
      SingleIncludedMetricHasWeightOne(excluded, Forks);
    } else {
      SingleIncludedMetricHasWeightOne(excluded, Stars);
    }
  }

  // ---------------------------------------------------------------------------
  // Properties of the breakdown
  // ---------------------------------------------------------------------------

  /** An excluded metric has weight 0 and value 0. */
  lemma ExcludedMetricScoresZero(repo: RepoScoringData, excluded: seq<Metric>, now: int, m: Metric)
    requires m in excluded
    ensures GetIndividualScore(repo, excluded, now).Get(m) == MetricScore(0.0, 0.0)
  {
    IntegerIsHundredths(0);
    Round2Exact(0.0);
  }

  /** A weighted value with a measure in [0, 1] lies between 0 and 100 * weight. */
  lemma WeightedValueBounds(n: real, w: real)
    requires 0.0 <= n <= 1.0
    requires 0.0 <= w && IsHundredths(w)
    ensures 0.0 <= WeightedValue(n, w) <= 100.0 * w
  {
    assert n * w <= w by {
      assert w - n * w == (1.0 - n) * w;
    }
    Round2Monotone(n * w * 100.0, w * 100.0);
    FullWeightedValue(w);
  }

  /** The full measure 1 gives exactly 100 * weight. */
  lemma FullWeightedValue(w: real)
    requires IsHundredths(w)
    ensures WeightedValue(1.0, w) == 100.0 * w
    ensures Round2(w * 100.0) == 100.0 * w
  {
    IntegerIsHundredths((w * 100.0).Floor);
    Round2Exact(w * 100.0);
  }

  /** A measure of at least 2 gives at least 200 * weight. */
  lemma DoubleWeightedValue(n: real, w: real)
    requires n >= 2.0
    requires 0.0 <= w && IsHundredths(w)
    ensures WeightedValue(n, w) >= 200.0 * w
  {
    assert n * w >= 2.0 * w by {
      assert n * w - 2.0 * w == (n - 2.0) * w;
    }
    assert IsHundredths(w * 200.0) by {
      IntegerIsHundredths((w * 100.0).Floor * 2);
    }
    Round2Monotone(w * 200.0, n * w * 100.0);
    Round2Exact(w * 200.0);
  }

  /** A measure of at least 1 gives at least 100 * weight. */
  lemma AboveFullWeightedValue(n: real, w: real)
    requires n >= 1.0
    requires 0.0 <= w && IsHundredths(w)
    ensures WeightedValue(n, w) >= 100.0 * w
  {
    assert n * w >= w by {
      assert n * w - w == (n - 1.0) * w;
    }
    Round2Monotone(w * 100.0, n * w * 100.0);
    FullWeightedValue(w);
  }

  /** For non-negative counts, the stars and forks values lie in [0, 100 * weight]. */
  lemma CountValuesBounded(repo: RepoScoringData, excluded: seq<Metric>, now: int)
    requires repo.stars >= 0 && repo.forks >= 0
    ensures var b := GetIndividualScore(repo, excluded, now);
      && 0.0 <= b.stars.value <= 100.0 * b.stars.weight
      && 0.0 <= b.forks.value <= 100.0 * b.forks.weight
  {
    AdjustedWeightRange(excluded, Stars);
    AdjustedWeightRange(excluded, Forks);
    WeightedValueBounds(Normalize(repo.stars as real, MaxStars), AdjustedWeight(excluded, Stars));
    WeightedValueBounds(Normalize(repo.forks as real, MaxForks), AdjustedWeight(excluded, Forks));
  }

  /** A count at or above its maximum is clamped: the metric gets its full value 100·weight and no more. */
  lemma CountsAtMaximumGiveFullValue(repo: RepoScoringData, excluded: seq<Metric>, now: int)
    ensures var b := GetIndividualScore(repo, excluded, now);
      repo.stars as real >= MaxStars ==> b.stars.value == 100.0 * b.stars.weight
    ensures var b := GetIndividualScore(repo, excluded, now);
      repo.forks as real >= MaxForks ==> b.forks.value == 100.0 * b.forks.weight
  {
    AdjustedWeightRange(excluded, Stars);
    AdjustedWeightRange(excluded, Forks);
    FullWeightedValue(AdjustedWeight(excluded, Stars));
    FullWeightedValue(AdjustedWeight(excluded, Forks));
  }

  /** A repository last updated two years ago or earlier gets recency value 0. */
  lemma StaleRepositoryHasNoRecency(repo: RepoScoringData, excluded: seq<Metric>, now: int)
    requires AgeInDays(now, repo.lastUpdated) >= MaxAge
    ensures GetIndividualScore(repo, excluded, now).recency.value == 0.0
  {
    IntegerIsHundredths(0);
    Round2Exact(0.0);
  }

  /** A repository updated right now gets the full recency value 100 * weight. */
  lemma FreshRepositoryHasFullRecency(repo: RepoScoringData, excluded: seq<Metric>, now: int)
    requires repo.lastUpdated == now
    ensures var b := GetIndividualScore(repo, excluded, now);
      b.recency.value == 100.0 * b.recency.weight
  {
    AdjustedWeightRange(excluded, Recency);
    assert Normalize(AgeInDays(now, repo.lastUpdated), MaxAge) == 0.0;
    FullWeightedValue(AdjustedWeight(excluded, Recency));
  }

  /** For an update time at or before now the recency value lies in [0, 100 * weight]. */
  lemma RecencyValueBounded(repo: RepoScoringData, excluded: seq<Metric>, now: int)
    requires repo.lastUpdated <= now
    ensures var b := GetIndividualScore(repo, excluded, now);
      0.0 <= b.recency.value <= 100.0 * b.recency.weight
  {
    var n := Normalize(AgeInDays(now, repo.lastUpdated), MaxAge);
    AdjustedWeightRange(excluded, Recency);
    WeightedValueBounds(1.0 - n, AdjustedWeight(excluded, Recency));
  }

  /**
   * An update time in the future is not clamped: its normalised age is negative,
   * the recency value is at least 100 * weight, and two years ahead or more it is
   * at least twice that.
   */
  lemma FutureUpdateIsNotClamped(repo: RepoScoringData, excluded: seq<Metric>, now: int)
    requires repo.lastUpdated > now
    ensures Normalize(AgeInDays(now, repo.lastUpdated), MaxAge) < 0.0
    ensures var b := GetIndividualScore(repo, excluded, now);
      b.recency.value >= 100.0 * b.recency.weight
    ensures AgeInDays(now, repo.lastUpdated) <= -MaxAge ==>
      var b := GetIndividualScore(repo, excluded, now);
      b.recency.value >= 200.0 * b.recency.weight
  {
    var w := AdjustedWeight(excluded, Recency);
    var n := Normalize(AgeInDays(now, repo.lastUpdated), MaxAge);
    AdjustedWeightRange(excluded, Recency);
    AboveFullWeightedValue(1.0 - n, w);
    if AgeInDays(now, repo.lastUpdated) <= -MaxAge {
      DoubleWeightedValue(1.0 - n, w);
    }
  }
}
