/**
 * The unreferenced variant of the repository service. It caches SCORED
 * records, keyed by git URL: a list fetch reads the item list without a
 * fallback, scores it and stores the scored page even when it is empty; a
 * single fetch scores first, then takes the cached scored record, stores the
 * new scored record and re-scores the taken one with the current exclusions.
 */
module ScoredCacheService {
  import opened Wrappers
  import opened ScoringEngine
  import opened Repository
  import opened SearchQuery
  import opened CacheProvider
  import opened RepositoryService

  function ScoredGitUrl(r: ScoredRepository): string {
    r.gitUrl
  }

  /** Stores the scored records in one batch, keyed by git URL. */
  method CacheScoredRepositories(cache: Cache<ScoredRepository>, data: seq<ScoredRepository>)
    modifies cache
    ensures cache.entries == SetAll(old(cache.entries), CacheEntries(GitUrls(data, ScoredGitUrl), data))
  {
    cache.SetMany(CacheEntries(GitUrls(data, ScoredGitUrl), data));
  }

  /**
   * Builds the same search request as the live service; a reply without an
   * item list throws a TypeError before the cache is touched; otherwise the
   * scored page is cached (a no-op when empty) and returned.
   */
  method FetchAllRepositories(
    cache: Cache<ScoredRepository>, language: string, created: string,
    displayParams: seq<(string, ParamValue)>, excluded: seq<Metric>, now: int,
    reply: Result<SearchResponse, string>)
    returns (request: seq<(string, string)>, result: Result<seq<ScoredRepository>, FetchError>)
    requires WellTypedDisplay(displayParams)
    modifies cache
    ensures request == [("q", SearchTerm(language, created))] + TruthyParams(displayParams)
    ensures reply.Failure? ==>
      result == Failure(UpstreamError(reply.error)) && cache.entries == old(cache.entries)
    ensures reply.Success? && reply.value.items.None? ==>
      result.Failure? && result.error.TypeError? && cache.entries == old(cache.entries)
    ensures reply.Success? && reply.value.items.Some? ==>
      var scored := TransformAll(reply.value.items.value, excluded, now);
      && result == Success(scored)
      && cache.entries == SetAll(old(cache.entries), CacheEntries(GitUrls(scored, ScoredGitUrl), scored))
  {
    request := BuildSearchParams(language, created, displayParams);
    if reply.Failure? {
      return request, Failure(UpstreamError(reply.error));
    }
    if reply.value.items.None? {
      return request, Failure(TypeError("Cannot read properties of undefined (reading 'map')"));
    }
    var transformedResponse := TransformAll(reply.value.items.value, excluded, now);
    CacheScoredRepositories(cache, transformedResponse);
    result := Success(transformedResponse);
  }

  /**
   * Scores the fetched record, swaps it into the cache in place of the cached
   * scored record for its git URL, and reports the drift against that record
   * re-scored with the current exclusions and time.
   */
  method FetchRepositoryInfo(
    cache: Cache<ScoredRepository>, excluded: seq<Metric>, now: int,
    reply: Result<Option<RepositoryItem>, string>)
    returns (result: Result<ScoredRepositoryWithDrift, FetchError>)
    modifies cache
    ensures reply.Failure? ==>
      result == Failure(UpstreamError(reply.error)) && cache.entries == old(cache.entries)
    ensures reply == Success(None) ==>
      result.Failure? && result.error.TypeError? && cache.entries == old(cache.entries)
    ensures reply.Success? && reply.value.Some? ==>
      var item := reply.value.value;
      var transformed := CalculateScoreAndTransformRepository(item, excluded, now);
      var cached := if item.gitUrl in old(cache.entries) then Some(AsItem(old(cache.entries)[item.gitUrl])) else None;
      && cache.entries == old(cache.entries)[item.gitUrl := transformed]
      && result == Success(WithDrift(item, cached, excluded, now))
  {
    if reply.Failure? {
      return Failure(UpstreamError(reply.error));
    }
    if reply.value.None? {
      return Failure(TypeError("Cannot destructure property 'id' of null"));
    }
    var item := reply.value.value;
    var transformedResponse := CalculateScoreAndTransformRepository(item, excluded, now);
    var cachedRepository := cache.Take(transformedResponse.gitUrl);
    cache.Set(transformedResponse.gitUrl, transformedResponse);
    var cachedItem := if cachedRepository.Some? then Some(AsItem(cachedRepository.value)) else None;
    result := Success(WithDrift(item, cachedItem, excluded, now));
  }

  /**
   * Caching a scored record instead of the raw one changes nothing observable:
   * whatever exclusions and times were used to score the cached record, the
   * drift equals the one the live service reports from the raw record.
   */
  lemma ScoredCacheDriftMatchesRawCache(
    previous: RepositoryItem, e0: seq<Metric>, t0: int,
    item: RepositoryItem, excluded: seq<Metric>, now: int)
    ensures WithDrift(item, Some(AsItem(CalculateScoreAndTransformRepository(previous, e0, t0))), excluded, now)
         == WithDrift(item, Some(previous), excluded, now)
  {
    RescoringScoredRecordMatchesRaw(previous, e0, t0, excluded, now);
  }

  /**
   * Two single fetches of the same repository: the second reports as old score
   * the first record re-scored with the second call's exclusions and time, as
   * the live service does.
   */
  method TwoFetchesReportDrift(
    first: RepositoryItem, second: RepositoryItem,
    excluded1: seq<Metric>, now1: int, excluded2: seq<Metric>, now2: int)
    returns (r1: Result<ScoredRepositoryWithDrift, FetchError>, r2: Result<ScoredRepositoryWithDrift, FetchError>)
    requires first.gitUrl == second.gitUrl
    ensures r1.Success? && r1.value.oldScore.None? && r1.value.diffPercentage.None?
    ensures r2 == Success(WithDrift(second, Some(first), excluded2, now2))
  {
    var cache := new Cache<ScoredRepository>();
    r1 := FetchRepositoryInfo(cache, excluded1, now1, Success(Some(first)));
    r2 := FetchRepositoryInfo(cache, excluded2, now2, Success(Some(second)));
    ScoredCacheDriftMatchesRawCache(first, excluded1, now1, second, excluded2, now2);
  }
}
