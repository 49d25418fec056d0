/**
 * The repository scorer and the drift calculator, which both service
 * variants define identically: projection of a raw search record onto the
 * published fields with its score breakdown and clamped total, and the
 * rounded percentage change between two scores.
 */
module Repository {
  import opened Numeric
  import opened ScoringEngine

  /**
   * A raw record from the upstream API. `updatedAt` is the update time in
   * milliseconds since the epoch; `otherFields` stands for every field the
   * projection does not keep.
   */
  datatype RepositoryItem = RepositoryItem(
    id: int,
    gitUrl: string,
    fullName: string,
    description: string,
    createdAt: string,
    language: string,
    stargazersCount: int,
    forksCount: int,
    updatedAt: int,
    otherFields: map<string, string>)

  /** The published record: exactly the kept fields, the score and its breakdown. */
  datatype ScoredRepository = ScoredRepository(
    id: int,
    gitUrl: string,
    fullName: string,
    description: string,
    createdAt: string,
    language: string,
    stargazersCount: int,
    forksCount: int,
    updatedAt: int,
    score: real,
    breakdown: Breakdown)

  function ScoringData(item: RepositoryItem): RepoScoringData
  {
    RepoScoringData(item.stargazersCount, item.forksCount, item.updatedAt)
  }

  function ValueTotal(b: Breakdown): real
  {
    b.stars.value + b.forks.value + b.recency.value
  }

  /** The kept fields of r are those of item. */
  predicate ProjectedFrom(r: ScoredRepository, item: RepositoryItem)
  {
    && r.id == item.id && r.gitUrl == item.gitUrl && r.fullName == item.fullName
    && r.description == item.description && r.createdAt == item.createdAt
    && r.language == item.language && r.stargazersCount == item.stargazersCount
    && r.forksCount == item.forksCount && r.updatedAt == item.updatedAt
  }

  /**
   * Scores one record against the current time: the breakdown of its counters,
   * and a total that is the rounded sum of the three values, capped at 100.
   */
  function CalculateScoreAndTransformRepository(item: RepositoryItem, excluded: seq<Metric>, now: int): (r: ScoredRepository)
    ensures ProjectedFrom(r, item)
    ensures r.breakdown == GetIndividualScore(ScoringData(item), excluded, now)
    ensures r.score <= 100.0
    ensures Round2(ValueTotal(r.breakdown)) <= 100.0 ==> r.score == Round2(ValueTotal(r.breakdown))
    ensures Round2(ValueTotal(r.breakdown)) >= 100.0 ==> r.score == 100.0
  {
    var b := GetIndividualScore(ScoringData(item), excluded, now);
    var totalScore := Round2(ValueTotal(b));
    var score := Min(100.0, totalScore);
    ScoredRepository(item.id, item.gitUrl, item.fullName, item.description, item.createdAt,
                     item.language, item.stargazersCount, item.forksCount, item.updatedAt, score, b)
  }

  /** A scored record read back as a raw record, as the scored-cache variant re-scores it. */
  function AsItem(r: ScoredRepository): (item: RepositoryItem)
    ensures ProjectedFrom(r, item)
  {
    RepositoryItem(r.id, r.gitUrl, r.fullName, r.description, r.createdAt, r.language,
                   r.stargazersCount, r.forksCount, r.updatedAt, map[])
  }

  /**
   * Non-negative counters give a score in [0, 100], whatever the update time:
   * a future update overshoots the recency value, and the clamp to 100 caps it.
   */
  lemma ScoreInRange(item: RepositoryItem, excluded: seq<Metric>, now: int)
    requires item.stargazersCount >= 0 && item.forksCount >= 0
    ensures 0.0 <= CalculateScoreAndTransformRepository(item, excluded, now).score <= 100.0
  {
    CountValuesBounded(ScoringData(item), excluded, now);
    AdjustedWeightRange(excluded, Recency);
    if item.updatedAt <= now {
      RecencyValueBounded(ScoringData(item), excluded, now);
    } else {
      FutureUpdateIsNotClamped(ScoringData(item), excluded, now);
    }
  }

  /** The score depends only on the counters and the update time, not on any other field. */
  lemma ScoreDependsOnlyOnCounters(a: RepositoryItem, b: RepositoryItem, excluded: seq<Metric>, now: int)
    requires ScoringData(a) == ScoringData(b)
    ensures CalculateScoreAndTransformRepository(a, excluded, now).score
         == CalculateScoreAndTransformRepository(b, excluded, now).score
    ensures CalculateScoreAndTransformRepository(a, excluded, now).breakdown
         == CalculateScoreAndTransformRepository(b, excluded, now).breakdown
  {
  }

  /**
   * Re-scoring a scored record gives what scoring the raw record gives, so
   * caching scored or raw records yields the same old score.
   */
  lemma RescoringScoredRecordMatchesRaw(item: RepositoryItem, e1: seq<Metric>, t1: int, e2: seq<Metric>, t2: int)
    ensures var again := CalculateScoreAndTransformRepository(AsItem(CalculateScoreAndTransformRepository(item, e1, t1)), e2, t2);
      again == CalculateScoreAndTransformRepository(item, e2, t2)
  {
    var s := CalculateScoreAndTransformRepository(item, e1, t1);
    ScoreDependsOnlyOnCounters(AsItem(s), item, e2, t2);
  }

  /** Counters at their maxima and an update time two years ahead push the sum
      to 120, which the cap brings down to 100. */
  lemma CapEngagesForFutureUpdate(item: RepositoryItem, now: int)
    requires item.stargazersCount == 400000 && item.forksCount == 250000
    requires item.updatedAt == now + 730 * MillisPerDay
    ensures Round2(ValueTotal(CalculateScoreAndTransformRepository(item, [], now).breakdown)) == 120.0
    ensures CalculateScoreAndTransformRepository(item, [], now).score == 100.0
  {
    NoExclusionKeepsBaseWeights([]);
    var b := GetIndividualScore(ScoringData(item), [], now);
    assert AgeInDays(now, item.updatedAt) == -730.0;
    assert Normalize(AgeInDays(now, item.updatedAt), MaxAge) == -1.0;
    IntegerIsHundredths(50);
    IntegerIsHundredths(30);
    IntegerIsHundredths(40);
    IntegerIsHundredths(120);
    Round2Exact(50.0);
    Round2Exact(30.0);
    Round2Exact(40.0);
    Round2Exact(120.0);
    assert b.stars.value == 50.0;
    assert b.forks.value == 30.0;
    assert b.recency.value == 40.0;
  }

  /** A record with no stars, no forks and no update for two years scores 0. */
  lemma DormantRepositoryScoresZero(item: RepositoryItem, excluded: seq<Metric>, now: int)
    requires item.stargazersCount == 0 && item.forksCount == 0
    requires item.updatedAt <= now - 730 * MillisPerDay
    ensures CalculateScoreAndTransformRepository(item, excluded, now).score == 0.0
  {
    IntegerIsHundredths(0);
    Round2Exact(0.0);
    StaleRepositoryHasNoRecency(ScoringData(item), excluded, now);
  }

  /** A JavaScript number produced by `Math.round` of a quotient. */
  datatype RoundedPercentage = Finite(n: int) | PositiveInfinity | NegativeInfinity | NotANumber

  /**
   * `Math.round((current - previous) / previous * 100)`. A zero previous score
   * is not guarded: the quotient is an infinity, or NaN when both are 0.
   */
  function CalculatePercentageDifference(currentScore: real, previousScore: real): (d: RoundedPercentage)
    ensures previousScore != 0.0 ==>
      && d.Finite?
      && (currentScore - previousScore) / previousScore * 100.0 - 0.5 < d.n as real
      && d.n as real <= (currentScore - previousScore) / previousScore * 100.0 + 0.5
    ensures previousScore == 0.0 ==>
      && (d == PositiveInfinity <==> currentScore > 0.0)
      && (d == NegativeInfinity <==> currentScore < 0.0)
      && (d == NotANumber <==> currentScore == 0.0)
  {
    var difference := currentScore - previousScore;
    if previousScore != 0.0 then Finite(MathRound(difference / previousScore * 100.0))
    else if difference > 0.0 then PositiveInfinity
    else if difference < 0.0 then NegativeInfinity
    else NotANumber
  }

  /** An unchanged non-zero score shows no drift; a doubled positive score shows +100. */
  lemma DriftOfUnchangedAndDoubledScores(previous: real)
    requires previous != 0.0
    ensures CalculatePercentageDifference(previous, previous) == Finite(0)
    ensures CalculatePercentageDifference(2.0 * previous, previous) == Finite(100)
  {
    MathRoundExact(0);
    MathRoundExact(100);
    assert (2.0 * previous - previous) / previous * 100.0 == 100.0;
  }

  /** Against a positive previous score, the drift has the sign of the change. */
  lemma DriftFollowsChange(current: real, previous: real)
    requires previous > 0.0
    ensures current >= previous ==> CalculatePercentageDifference(current, previous).n >= 0
    ensures current <= previous ==> CalculatePercentageDifference(current, previous).n <= 0
  {
    var q := (current - previous) / previous * 100.0;
    assert current >= previous ==> q >= 0.0;
    assert current <= previous ==> q <= 0.0;
  }
}
