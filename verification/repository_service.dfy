/**
 * The repository service the controllers use. It caches RAW upstream records,
 * keyed by git URL: a list fetch stores the whole page, and a single fetch
 * takes the previous record out, stores the new one and reports the drift
 * between the new score and the previous record re-scored with the current
 * exclusions. The upstream reply is an input; a rejected reply is rethrown.
 */
module RepositoryService {
  import opened Wrappers
  import opened ScoringEngine
  import opened Repository
  import opened SearchQuery
  import opened CacheProvider

  /** What the service throws: the upstream rejection, or a TypeError from reading a field of null. */
  datatype FetchError = UpstreamError(message: string) | TypeError(message: string)

  /** The upstream search reply; `items` may be missing. */
  datatype SearchResponse = SearchResponse(items: Option<seq<RepositoryItem>>)

  /** A scored record with the old score and the percentage drift, both null when nothing was cached. */
  datatype ScoredRepositoryWithDrift = ScoredRepositoryWithDrift(
    repository: ScoredRepository,
    oldScore: Option<real>,
    diffPercentage: Option<RoundedPercentage>)

  /** One cache pair per record, keyed by its git URL. */
  function CacheEntries<V>(keys: seq<string>, values: seq<V>): (entries: seq<(string, V)>)
    requires |keys| == |values|
    ensures |entries| == |keys|
    ensures forall i :: 0 <= i < |keys| ==> entries[i] == (keys[i], values[i])
  {
    seq(|keys|, i requires 0 <= i < |keys| => (keys[i], values[i]))
  }

  /** The cache key of each record, in order; both services key their batch by git URL. */
  function GitUrls<R>(records: seq<R>, gitUrl: R -> string): (urls: seq<string>)
    ensures |urls| == |records|
    ensures forall i :: 0 <= i < |records| ==> urls[i] == gitUrl(records[i])
  {
    seq(|records|, i requires 0 <= i < |records| => gitUrl(records[i]))
  }

  function ItemGitUrl(item: RepositoryItem): string {
    item.gitUrl
  }

  /** Every record of the list scored, in the list's order. */
  function TransformAll(items: seq<RepositoryItem>, excluded: seq<Metric>, now: int): (scored: seq<ScoredRepository>)
    ensures |scored| == |items|
    ensures forall i :: 0 <= i < |items| ==>
      scored[i] == CalculateScoreAndTransformRepository(items[i], excluded, now)
  {
    seq(|items|, i requires 0 <= i < |items| => CalculateScoreAndTransformRepository(items[i], excluded, now))
  }

  /** The reply of a single fetch, given what the cache held for the record's git URL. */
  function WithDrift(item: RepositoryItem, cached: Option<RepositoryItem>, excluded: seq<Metric>, now: int)
    : (r: ScoredRepositoryWithDrift)
    ensures r.repository == CalculateScoreAndTransformRepository(item, excluded, now)
    ensures cached.None? ==> r.oldScore.None? && r.diffPercentage.None?
    ensures cached.Some? ==>
      && r.oldScore == Some(CalculateScoreAndTransformRepository(cached.value, excluded, now).score)
      && r.diffPercentage == Some(CalculatePercentageDifference(r.repository.score, r.oldScore.value))
  {
    var transformed := CalculateScoreAndTransformRepository(item, excluded, now);
    match cached
    case Some(c) =>
      var cachedScore := CalculateScoreAndTransformRepository(c, excluded, now).score;
      ScoredRepositoryWithDrift(transformed, Some(cachedScore), Some(CalculatePercentageDifference(transformed.score, cachedScore)))
    case None =>
      ScoredRepositoryWithDrift(transformed, None, None)
  }

  /** Stores the raw records in one batch, keyed by git URL. */
  method CacheRepositories(cache: Cache<RepositoryItem>, data: seq<RepositoryItem>)
    modifies cache
    ensures cache.entries == SetAll(old(cache.entries), CacheEntries(GitUrls(data, ItemGitUrl), data))
  {
    cache.SetMany(CacheEntries(GitUrls(data, ItemGitUrl), data));
  }

  /**
   * Builds the search request, then, on success, caches the raw records (only
   * when there are some) and returns them scored in upstream order; a missing
   * item list counts as empty. A rejected request is rethrown before the cache
   * is touched.
   */
  method FetchAllRepositories(
    cache: Cache<RepositoryItem>, language: string, created: string,
    displayParams: seq<(string, ParamValue)>, excluded: seq<Metric>, now: int,
    reply: Result<SearchResponse, string>)
    returns (request: seq<(string, string)>, result: Result<seq<ScoredRepository>, FetchError>)
    requires WellTypedDisplay(displayParams)
    modifies cache
    ensures request == [("q", SearchTerm(language, created))] + TruthyParams(displayParams)
    ensures reply.Failure? ==>
      result == Failure(UpstreamError(reply.error)) && cache.entries == old(cache.entries)
    ensures reply.Success? ==>
      var items := reply.value.items.GetOr([]);
      && result == Success(TransformAll(items, excluded, now))
      && cache.entries == if |items| > 0 then SetAll(old(cache.entries), CacheEntries(GitUrls(items, ItemGitUrl), items))
                          else old(cache.entries)
  {
    request := BuildSearchParams(language, created, displayParams);
    if reply.Failure? {
      return request, Failure(UpstreamError(reply.error));
    }
    var repositoriesList := reply.value.items.GetOr([]);
    if |repositoriesList| > 0 {
      CacheRepositories(cache, repositoriesList);
    }
    result := Success(TransformAll(repositoriesList, excluded, now));
  }

  /**
   * Fetches one record; takes the cached record for its git URL out of the
   * cache, stores the new raw record, and reports the drift against the taken
   * record. A rejected request, or an empty reply whose git URL cannot be read,
   * throws before the cache is touched.
   */
  method FetchRepositoryInfo(
    cache: Cache<RepositoryItem>, excluded: seq<Metric>, now: int,
    reply: Result<Option<RepositoryItem>, string>)
    returns (result: Result<ScoredRepositoryWithDrift, FetchError>)
    modifies cache
    ensures reply.Failure? ==>
      result == Failure(UpstreamError(reply.error)) && cache.entries == old(cache.entries)
    ensures reply == Success(None) ==>
      result.Failure? && result.error.TypeError? && cache.entries == old(cache.entries)
    ensures reply.Success? && reply.value.Some? ==>
      var item := reply.value.value;
      var cached := if item.gitUrl in old(cache.entries) then Some(old(cache.entries)[item.gitUrl]) else None;
      && cache.entries == old(cache.entries)[item.gitUrl := item]
      && result == Success(WithDrift(item, cached, excluded, now))
  {
    if reply.Failure? {
      return Failure(UpstreamError(reply.error));
    }
    if reply.value.None? {
      return Failure(TypeError("Cannot read properties of null (reading 'git_url')"));
    }
    var repositoryInfo := reply.value.value;
    var cachedRepository := cache.Take(repositoryInfo.gitUrl);
    cache.Set(repositoryInfo.gitUrl, repositoryInfo);
    result := Success(WithDrift(repositoryInfo, cachedRepository, excluded, now));
  }

  /**
   * After a list fetch, each record's git URL holds the raw record that was the
   * last one in the page with that URL, unscored.
   */
  lemma ListFetchCachesRawRecords(old_: map<string, RepositoryItem>, items: seq<RepositoryItem>, i: nat)
    requires i < |items|
    requires forall j :: i < j < |items| ==> items[j].gitUrl != items[i].gitUrl
    ensures var entries := SetAll(old_, CacheEntries(GitUrls(items, ItemGitUrl), items));
      items[i].gitUrl in entries && entries[items[i].gitUrl] == items[i]
  {
    SetAllLastWins(old_, CacheEntries(GitUrls(items, ItemGitUrl), items), i);
  }

  /**
   * Two single fetches of the same repository: the first finds nothing and
   * reports null drift; the second reports as old score the FIRST record
   * re-scored with the SECOND call's exclusions and time.
   */
  method TwoFetchesReportDrift(
    first: RepositoryItem, second: RepositoryItem,
    excluded1: seq<Metric>, now1: int, excluded2: seq<Metric>, now2: int)
    returns (r1: Result<ScoredRepositoryWithDrift, FetchError>, r2: Result<ScoredRepositoryWithDrift, FetchError>)
    requires first.gitUrl == second.gitUrl
    ensures r1.Success? && r1.value.oldScore.None? && r1.value.diffPercentage.None?
    ensures r2.Success?
    ensures r2.value.oldScore == Some(CalculateScoreAndTransformRepository(first, excluded2, now2).score)
    ensures r2.value.diffPercentage == Some(CalculatePercentageDifference(
      CalculateScoreAndTransformRepository(second, excluded2, now2).score,
      CalculateScoreAndTransformRepository(first, excluded2, now2).score))
  {
    var cache := new Cache<RepositoryItem>();
    r1 := FetchRepositoryInfo(cache, excluded1, now1, Success(Some(first)));
    r2 := FetchRepositoryInfo(cache, excluded2, now2, Success(Some(second)));
  }
}
