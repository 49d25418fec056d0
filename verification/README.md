# Repository popularity scoring — a Dafny model

This project models the core of a small Node.js/TypeScript service that
searches GitHub repositories and scores their popularity:

- the **scoring engine**, which renormalises the base weights (stars 0.5,
  forks 0.3, recency 0.2) over the metrics that are not excluded, and turns
  stars, forks and age into weighted values rounded to hundredths;
- the **live repository service**, which projects and scores each upstream
  record (total clamped to 100), builds the search request from the truthy
  parameters, and keeps a cache of RAW records keyed by git URL. A single
  fetch takes the previous record out of the cache, stores the new one, and
  reports the previous record re-scored with the current exclusions,
  together with the rounded percentage drift;
- the **unreferenced service variant**, which caches SCORED records, scores
  before it touches the cache, and stores the scored page even when it is
  empty;
- the **query validators** (Joi schemas validated with `abortEarly: false`).
  This covers:
  - the excluded-criteria rule: split on `,`, at most two parts, each one of
    stars/forks/recency;
  - the required, enumerated, integer and date-pattern rules;
  - the choice of the `InvalidRequestError` message: the joined custom
    messages, else the joined Joi messages;
- the **unreferenced validator variant**, with a strict `YYYY-MM-DD` date and
  a free `sortBy`;
- the **request-parameter extractor**, which turns each query and path
  parameter into a string.

Modules, one per file:

- `Wrappers`: Option and Result.
- `Numeric`: `toFixed(2)` and `Math.round` on reals.
- `Text`: split, join and decimal text.
- `ScoringEngine`.
- `CacheProvider`: the cache as a class over a map.
- `Repository`: projection, score and drift, which both services share.
- `SearchQuery`.
- `RepositoryService`.
- `ScoredCacheService`.
- `QueryValidation`: the excluded-criteria rule, Joi per-key checking and
  message selection, which both validators share.
- `ParamsValidator`.
- `StrictParamsValidator`.
- `ReqParamsExtractor`.

Modelling choices:

- Numbers are exact reals. `Number(x.toFixed(2))` is `Round2`: nearest
  hundredth, halves away from zero. `Math.round` is `MathRound`, which is
  floor(x + 1/2).
- Times are integer milliseconds, and `now` is a parameter.
- The upstream HTTP reply is a parameter: a `Result`, whose failure is the
  rejected request.
- The cache is the class `CacheProvider.Cache`. Its `entries` map is updated
  in place by `Take` (node-cache `take`), `Set` and `SetMany` (`mset`).
- A query is the list of its (key, value) pairs, with string values.

## Model

| member | source | states |
|---|---|---|
| Numeric.Round2 | src/utils/scoringEngine.ts:35-37 | `Number(x.toFixed(2))`: a whole number of hundredths within half a hundredth of x, with the sign of x kept; an exact tie goes to the larger magnitude, which makes the result unique |
| Numeric.Round2TiesAwayFromZero | src/utils/scoringEngine.ts:35-37 | 0.625 rounds to 0.63 and −0.625 to −0.63; 0.005 rounds to 0.01 and −0.005 to −0.01 |
| Numeric.MathRound | src/services/repositoryService.ts:105 | `Math.round(x)`: the integer within half of x, with halves going up |
| Numeric.Round2Monotone | src/utils/scoringEngine.ts:35-37 | rounding to hundredths never reverses the order of two values |
| Numeric.Round2Exact | src/utils/scoringEngine.ts:57 | a value that already is a whole number of hundredths is left unchanged |
| Numeric.MathRoundExact | src/services/repositoryService.ts:105 | `Math.round` of an integer is that integer |
| Numeric.Min | src/utils/scoringEngine.ts:27-29 | `Math.min`: a lower bound of both arguments that equals one of them |
| Text.Split | src/validators/repositoryValidator.ts:7 | `value.split(',')`: at least one piece, and no piece contains the separator |
| Text.JoinSplit | src/validators/repositoryValidator.ts:7 | joining the split pieces with the separator gives back the string |
| Text.SplitJoin | src/validators/repositoryValidator.ts:7 | splitting separator-free pieces joined by the separator gives back the pieces |
| Text.SplitLength | src/validators/repositoryValidator.ts:7-9 | the number of split pieces is the number of separators plus one |
| Text.IntToStringRoundTrip | src/utils/reqParamsExtractor.ts:11 | the decimal text of an integer is non-empty and reads back as that integer |
| ScoringEngine.Filter | src/utils/scoringEngine.ts:48-50 | a metric is kept exactly when it is listed and not excluded; the resulting order is stated for the included list by `IncludedMetricsExplicit` |
| ScoringEngine.IncludedMetrics | src/utils/scoringEngine.ts:48-50 | the included metrics are exactly the metrics that are not excluded |
| ScoringEngine.IncludedMetricsExplicit | src/utils/scoringEngine.ts:14-18 | the included list follows the base-weight key order stars, forks, recency |
| ScoringEngine.TotalWeight | src/utils/scoringEngine.ts:52 | the total base weight is non-negative and at least each included base weight |
| ScoringEngine.AdjustedWeights | src/utils/scoringEngine.ts:46-63 | the weight record holds each metric's adjusted weight |
| ScoringEngine.GetAdjustedWeights | src/utils/scoringEngine.ts:46-63 | the zero-filled record, after the rounded shares are written and then the exclusions are zeroed, equals `AdjustedWeights` |
| ScoringEngine.Normalize | src/utils/scoringEngine.ts:27-29 | the normalised measure is at most 1, is non-negative for a non-negative input, is x/max up to max and exactly 1 from max on; only the upper bound is clamped |
| ScoringEngine.GetIndividualScore | src/utils/scoringEngine.ts:20-44 | each returned weight is that metric's adjusted weight |
| ScoringEngine.AdjustedWeightRange | src/utils/scoringEngine.ts:55-61 | every adjusted weight is a whole number of hundredths in [0, 1] |
| ScoringEngine.WeightsDependOnMembershipOnly | src/utils/scoringEngine.ts:46-63 | two exclusion lists with the same members give the same weights, whatever their order or repetition |
| ScoringEngine.FilterDependsOnMembershipOnly | src/utils/scoringEngine.ts:48-50 | the filter depends only on which metrics are excluded |
| ScoringEngine.NoExclusionKeepsBaseWeights | src/utils/scoringEngine.ts:14-18 | with nothing excluded the weights are exactly 0.5, 0.3 and 0.2 |
| ScoringEngine.BaseWeightUnchanged | src/utils/scoringEngine.ts:57 | a base weight divided by a total of 1 and rounded is unchanged |
| ScoringEngine.AllExcludedGivesZeroWeights | src/utils/scoringEngine.ts:48-61 | with all three metrics excluded, the included list is empty, so the zero total is never divided by, and all weights are 0 |
| ScoringEngine.SingleIncludedMetricHasWeightOne | src/utils/scoringEngine.ts:57-61 | when exactly one metric is left, it has weight 1 and the others 0 |
| ScoringEngine.IncludedWeightIsRoundedShare | src/utils/scoringEngine.ts:52-57 | an included weight is round2(base / included total), within half a hundredth of the exact share |
| ScoringEngine.StarsExcludedWeights | src/utils/scoringEngine.ts:46-63 | excluding stars alone gives weights 0, 0.6 and 0.4 |
| ScoringEngine.ForksExcludedWeights | src/utils/scoringEngine.ts:46-63 | excluding forks alone gives weights 0.71, 0 and 0.29 |
| ScoringEngine.RecencyExcludedWeights | src/utils/scoringEngine.ts:46-63 | excluding recency alone gives stars in [0.62, 0.63], forks in [0.37, 0.38], recency 0, and a sum within a hundredth of 1 |
| ScoringEngine.WeightSumNearOne | src/utils/scoringEngine.ts:52-58 | when some metric is left, the weights add up to 1 within a hundredth |
| ScoringEngine.ExcludedMetricScoresZero | src/utils/scoringEngine.ts:32-43 | an excluded metric has weight 0 and value 0 |
| ScoringEngine.WeightedValueBounds | src/utils/scoringEngine.ts:35-37 | a measure in [0, 1] gives a value in [0, 100·weight] |
| ScoringEngine.FullWeightedValue | src/utils/scoringEngine.ts:35-37 | the full measure 1 gives exactly 100·weight |
| ScoringEngine.AboveFullWeightedValue | src/utils/scoringEngine.ts:37 | a measure of at least 1 gives at least 100·weight |
| ScoringEngine.DoubleWeightedValue | src/utils/scoringEngine.ts:37 | a measure of at least 2 gives at least 200·weight |
| ScoringEngine.CountValuesBounded | src/utils/scoringEngine.ts:27-36 | for non-negative counts, the stars and forks values lie in [0, 100·weight] |
| ScoringEngine.CountsAtMaximumGiveFullValue | src/utils/scoringEngine.ts:27-36 | at least 400000 stars, or at least 250000 forks, gives exactly 100·weight for that metric |
| ScoringEngine.StaleRepositoryHasNoRecency | src/utils/scoringEngine.ts:29-37 | an age of 730 days or more gives recency value 0 |
| ScoringEngine.FreshRepositoryHasFullRecency | src/utils/scoringEngine.ts:24-37 | age 0 gives recency value 100·weight |
| ScoringEngine.RecencyValueBounded | src/utils/scoringEngine.ts:29-37 | an update time not in the future gives a recency value in [0, 100·weight] |
| ScoringEngine.FutureUpdateIsNotClamped | src/utils/scoringEngine.ts:24-37 | a future update time has a negative normalised age and a recency value of at least 100·weight, and of at least 200·weight two years ahead |
| CacheProvider.SetAllKeys | src/providers/cacheProvider.ts:8 | after a batch store, the keys are the old keys plus the batch keys |
| CacheProvider.SetAllLastWins | src/providers/cacheProvider.ts:8 | a key holds the value of its last pair in the batch |
| CacheProvider.SetAllUntouched | src/providers/cacheProvider.ts:8 | a key the batch does not mention keeps its entry, or its absence |
| CacheProvider.Cache.Take | src/providers/cacheProvider.ts:12 | returns the entry for the key, if any, and removes only that key |
| CacheProvider.Cache.Set | src/providers/cacheProvider.ts:6 | stores the value under the key and changes no other entry |
| CacheProvider.Cache.SetMany | src/providers/cacheProvider.ts:8 | stores the batch pairs in order, so a later pair for a key wins |
| Repository.CalculateScoreAndTransformRepository | src/services/repositoryService.ts:68-92 | keeps exactly the projected fields of the record, with the breakdown from the scoring engine; the score is round2 of the value sum when that is at most 100, and 100 otherwise |
| Repository.AsItem | src/services/RepositoryService.ts:50 | a scored record read back as a raw record keeps all projected fields |
| Repository.ScoreInRange | src/services/repositoryService.ts:72-73 | non-negative counters give a score in [0, 100] for every update time, a future one included |
| Repository.ScoreDependsOnlyOnCounters | src/services/repositoryService.ts:69-71 | the score and breakdown depend only on stars, forks and the update time |
| Repository.RescoringScoredRecordMatchesRaw | src/services/RepositoryService.ts:69-92 | re-scoring a scored record gives the same result as scoring the raw record |
| Repository.CapEngagesForFutureUpdate | src/services/repositoryService.ts:72-73 | maximal counters and an update two years ahead sum to 120, which the clamp brings down to 100 |
| Repository.DormantRepositoryScoresZero | src/services/repositoryService.ts:68-73 | no stars, no forks and no update for two years give score 0 |
| Repository.CalculatePercentageDifference | src/services/repositoryService.ts:103-106 | a non-zero previous score gives `Math.round((new − old)/old·100)`; a zero previous score is not guarded and gives ±Infinity, or NaN when both scores are 0 |
| Repository.DriftOfUnchangedAndDoubledScores | src/services/repositoryService.ts:103-106 | an unchanged score drifts 0, and a doubled score drifts +100 |
| Repository.DriftFollowsChange | src/services/repositoryService.ts:103-106 | against a positive old score, the drift has the sign of the change |
| SearchQuery.SearchTerm | src/services/repositoryService.ts:18 | the `q` term starts with `language:L`, and is exactly that when no creation date is given |
| SearchQuery.TruthyParamsAppend | src/services/repositoryService.ts:23-26 | the truthy filter distributes over concatenation, so relative order is kept |
| SearchQuery.TruthyParamsMembers | src/services/repositoryService.ts:23-26 | a (key, text) pair is sent exactly when a parameter with that key is truthy and has that text |
| SearchQuery.BuildSearchParams | src/services/repositoryService.ts:17-26 | the request is `q` followed by the truthy parameters, in key order |
| SearchQuery.ExampleSearchParams | src/services/repositoryService.ts:17-26 | a language, a date and a full page specification give `q=language:JavaScript+created:>=2021-01-01` and all four display parameters |
| SearchQuery.FalsyDisplayIsOmitted | src/services/repositoryService.ts:17-26 | with no date and 0, NaN or '' display values, only `q=language:L` is sent |
| RepositoryService.CacheEntries | src/services/repositoryService.ts:95-98 | one (git URL, record) pair per record, in order |
| RepositoryService.GitUrls | src/services/repositoryService.ts:96 | the git URL of each record, in order; the scored-cache variant uses it on scored records |
| RepositoryService.TransformAll | src/services/repositoryService.ts:32 | one scored record per upstream record, in upstream order |
| RepositoryService.WithDrift | src/services/repositoryService.ts:50-61 | no cached record gives null old score and null drift; otherwise the old score is the cached record re-scored with the current exclusions, and the drift compares it with the new score |
| RepositoryService.CacheRepositories | src/services/repositoryService.ts:94-101 | stores the raw records in one batch, keyed by git URL |
| RepositoryService.FetchAllRepositories | src/services/repositoryService.ts:15-39 | builds the request; a rejected request is rethrown with the cache unchanged; otherwise a missing item list counts as empty, the raw records are cached only when there are some, and the scored list comes back in order |
| RepositoryService.FetchRepositoryInfo | src/services/repositoryService.ts:41-66 | a rejected request is rethrown and a null reply throws a TypeError, each with the cache unchanged; otherwise the cache entry for the git URL becomes the raw record, and the reply carries the drift against the record that was taken out |
| RepositoryService.ListFetchCachesRawRecords | src/services/repositoryService.ts:94-101 | after a list fetch, each git URL holds the unscored record that was last in the page for it |
| RepositoryService.TwoFetchesReportDrift | src/services/repositoryService.ts:41-66 | the first fetch of a repository reports null drift; the second reports the first record re-scored with the second call's exclusions, and the drift against it |
| ScoredCacheService.CacheScoredRepositories | src/services/RepositoryService.ts:94-101 | stores the scored records in one batch, keyed by git URL |
| ScoredCacheService.FetchAllRepositories | src/services/RepositoryService.ts:15-37 | builds the same request; a missing item list throws with the cache unchanged; otherwise the scored list is cached, even when empty, and returned in order |
| ScoredCacheService.FetchRepositoryInfo | src/services/RepositoryService.ts:39-63 | scores first; the cache entry for the scored git URL becomes the scored record; the drift is against the taken scored record re-scored with the current exclusions |
| ScoredCacheService.ScoredCacheDriftMatchesRawCache | src/services/RepositoryService.ts:49-58 | caching scored records instead of raw ones reports the same old score and drift |
| ScoredCacheService.TwoFetchesReportDrift | src/services/RepositoryService.ts:39-63 | two fetches through the variant report exactly what the live service reports from the raw first record |
| QueryValidation.FirstInvalidKey | src/validators/repositoryValidator.ts:13-17 | none exactly when every part is valid; otherwise the first invalid part |
| QueryValidation.CustomValidationForScoringCriteria | src/validators/repositoryValidator.ts:5-20 | accepts exactly at most two parts that are all valid keys, returning the value unchanged; more than two parts fail with 'At most two values are allowed' before membership is checked; otherwise the message names the first invalid part |
| QueryValidation.NewInvalidRequestError | src/errors/InvalidRequestError.ts:1-9 | status code 400, name INVALID_REQUEST, and the given message |
| QueryValidation.Messages | src/validators/repositoryValidator.ts:40 | the Joi message of each detail, in order |
| QueryValidation.CustomMessages | src/validators/repositoryValidator.ts:41 | the custom message of each detail in order, with '' where there is none |
| QueryValidation.Outcome | src/validators/repositoryValidator.ts:39-46 | passes on exactly when there is no detail; otherwise responds 400 with the selected message |
| QueryValidation.JoinEmptyIff | src/validators/repositoryValidator.ts:41-42 | a join is empty only for no parts or a single empty part |
| QueryValidation.SingleDetailMessage | src/validators/repositoryValidator.ts:40-42 | one detail shows its custom message if it has one, else its Joi message |
| QueryValidation.CustomMessageWins | src/validators/repositoryValidator.ts:41-42 | one non-empty custom message makes the response show the joined custom messages |
| QueryValidation.JoinEmpties | src/validators/repositoryValidator.ts:41 | n empty strings join to n − 1 commas |
| QueryValidation.PlainDetailsGiveCommas | src/validators/repositoryValidator.ts:41-42 | two or more details without custom messages give a message of commas only, not the Joi messages |
| QueryValidation.Lookup | src/validators/repositoryValidator.ts:37 | none exactly when no pair has the key; otherwise a value paired with the key |
| QueryValidation.SchemaKeys | src/validators/repositoryValidator.ts:22-30 | the keys the schema names |
| QueryValidation.CheckKey | src/validators/repositoryValidator.ts:22-34 | at most two details; two exactly for an empty value of a `valid()` key, the list detail and then the empty-string detail; only a failed custom rule carries a custom message, alone and equal to the rule's own error |
| QueryValidation.KeyPassesTail | src/validators/repositoryValidator.ts:37 | the schema's later keys are checked as the tail schema's keys |
| QueryValidation.KeyDetails | src/validators/repositoryValidator.ts:37 | at most two details per schema key, and none exactly when every key passes |
| QueryValidation.UnknownDetails | src/validators/repositoryValidator.ts:37 | at most one detail per query key, none exactly when every key is known, and never a custom message |
| QueryValidation.UnknownDetailsNone | src/validators/repositoryValidator.ts:37 | known keys give no unknown-key detail |
| QueryValidation.Validate | src/validators/repositoryValidator.ts:37 | no detail exactly when every schema key passes and every query key is known |
| QueryValidation.RequiredStringRule | src/validators/repositoryValidator.ts:23 | a required string passes exactly when present and non-empty |
| QueryValidation.RequiredPatternRule | src/validators/repositoryValidator.ts:24 | a required patterned string passes exactly when present, non-empty and matching |
| QueryValidation.IntegerRuleAccepts | src/validators/repositoryValidator.ts:25-26 | an optional integer passes exactly when absent or an integer numeral |
| QueryValidation.OneOfRule | src/validators/repositoryValidator.ts:27-28 | an optional enumerated string passes exactly when absent or one of the values |
| QueryValidation.OptionalStringRule | src/validators/RepositoryValidator.ts:28 | an optional string passes exactly when absent or non-empty |
| QueryValidation.CriteriaRule | src/validators/repositoryValidator.ts:29 | the excluded-criteria key passes exactly when absent or accepted; a non-empty rejected value carries the rule's message |
| QueryValidation.InvalidKeyMessageText | src/validators/repositoryValidator.ts:15 | the message reads `The valid values are stars,forks,recency. <key> is invalid` |
| QueryValidation.SplitPieces | src/validators/repositoryValidator.ts:7 | comma-free pieces joined by commas split back into the pieces |
| QueryValidation.TwoValidKeysPass | src/validators/repositoryValidator.ts:5-20 | any two valid keys joined by a comma, the same key twice included, are accepted unchanged: only count and membership are checked |
| QueryValidation.ThreeValidKeysFail | src/validators/repositoryValidator.ts:9-11 | three valid keys fail on the count |
| QueryValidation.UnknownKeyIsNamed | src/validators/repositoryValidator.ts:13-17 | 'stars,invalid' fails with the message naming 'invalid' |
| QueryValidation.SecondPartInvalid | src/validators/repositoryValidator.ts:13-17 | a valid first part and an invalid second part give the message naming the second |
| QueryValidation.SingleFailingKey | src/validators/repositoryValidator.ts:37 | when exactly one schema key fails, its details, one or two, are the only key details |
| QueryValidation.SingleFailingKeyOutcome | src/validators/repositoryValidator.ts:36-46 | a query with known keys failing with one detail on one key alone gets 400 with that key's custom message, or its Joi message |
| QueryValidation.EmptyEnumeratedValueGivesComma | src/validators/repositoryValidator.ts:36-46 | a query with known keys failing only on an empty value of a `valid()` key gets two plain details and 400 with the message ',' |
| ParamsValidator.FetchAllReposParamsValidator | src/validators/repositoryValidator.ts:36-47 | passes on exactly the acceptable list queries; otherwise 400, INVALID_REQUEST, and the selected message over all details, two for an empty `order` or `sortBy` |
| ParamsValidator.FetchRepoInfoParamsValidator | src/validators/repositoryValidator.ts:49-60 | passes on exactly the acceptable single-repository queries; otherwise 400 with the selected message |
| ParamsValidator.FetchAllAcceptance | src/validators/repositoryValidator.ts:22-30 | the list schema gives no detail exactly when the query is acceptable key by key |
| ParamsValidator.FetchAllSchemaKeys | src/validators/repositoryValidator.ts:22-30 | the list schema names exactly the seven keys |
| ParamsValidator.FetchAllValueChecks | src/validators/repositoryValidator.ts:22-30 | all schema keys pass exactly when every value is acceptable |
| ParamsValidator.FetchAllKey0 | src/validators/repositoryValidator.ts:23 | `language` passes exactly when present and non-empty |
| ParamsValidator.FetchAllKey1 | src/validators/repositoryValidator.ts:24 | `created` passes exactly when present, non-empty and matching the date pattern |
| ParamsValidator.FetchAllKey2 | src/validators/repositoryValidator.ts:25 | `limit` passes exactly when absent or an integer numeral |
| ParamsValidator.FetchAllKey3 | src/validators/repositoryValidator.ts:26 | `page` passes exactly when absent or an integer numeral |
| ParamsValidator.FetchAllKey4 | src/validators/repositoryValidator.ts:27 | `order` passes exactly when absent, asc or desc |
| ParamsValidator.FetchAllKey5 | src/validators/repositoryValidator.ts:28 | `sortBy` passes exactly when absent, stars, forks or updated |
| ParamsValidator.FetchAllKey6 | src/validators/repositoryValidator.ts:29 | `excludedScoreCriteria` passes exactly when absent or accepted |
| ParamsValidator.RepoInfoAcceptance | src/validators/repositoryValidator.ts:32-34 | the single-repository schema gives no detail exactly when the query is acceptable |
| ParamsValidator.DayTokensAreDigits | src/validators/repositoryValidator.ts:24 | the day part of a matching date is digits only |
| ParamsValidator.NonZeroDigitsAreDayTokens | src/validators/repositoryValidator.ts:24 | any run of non-zero digits, however long, is accepted as day tokens |
| ParamsValidator.CreatedPatternShape | src/validators/repositoryValidator.ts:24 | a matching date is four digits, a dash, a one- or two-digit month, a dash and digits |
| ParamsValidator.CreatedPatternTestDates | src/validators/repositoryValidator.ts:24 | '2023-05-30' matches and '2023/05/30' does not |
| ParamsValidator.CreatedPatternLooseDays | src/validators/repositoryValidator.ts:24 | '2023-05-' and '2023-5-1234' match, because of the `*` on the day |
| ParamsValidator.CreatedPatternMonths | src/validators/repositoryValidator.ts:24 | months 13 and 00 do not match |
| ParamsValidator.CriteriaFailureShowsCustomMessage | src/validators/repositoryValidator.ts:29-46 | a list query failing only on its excluded criteria is answered with exactly the custom rule's message |
| ParamsValidator.LeadingKeysPass | src/validators/repositoryValidator.ts:23-28 | a present language, a matching date and absent optional keys pass the first six keys |
| ParamsValidator.TrailingKeysPass | src/validators/repositoryValidator.ts:24-29 | a matching date and acceptable optional values pass every key after `language` |
| ParamsValidator.MissingLanguageMessage | src/validators/repositoryValidator.ts:23-46 | an otherwise acceptable list query without `language` is answered with `"language" is required` |
| ParamsValidator.LanguageRequiredText | src/validators/repositoryValidator.ts:23 | the missing-language message text |
| ParamsValidator.EmptyListQueryMessage | src/validators/repositoryValidator.ts:36-46 | the empty list query gets 400 with the message ',' |
| ParamsValidator.EmptyOrderMessage | src/validators/repositoryValidator.ts:27 | a list query acceptable but for an empty `order` gets 400 with the message ',' |
| ParamsValidator.EmptySortByMessage | src/validators/repositoryValidator.ts:28 | a list query acceptable but for an empty `sortBy` gets 400 with the message ',' |
| ParamsValidator.EmptyOrderExample | src/validators/repositoryValidator.ts:36-46 | `?language=js&created=2023-05-30&order=` gets 400 with the message ',' |
| ParamsValidator.RepoInfoAcceptsEmptyQuery | src/validators/repositoryValidator.ts:49-60 | the single-repository route passes an empty query on |
| ParamsValidator.RepoInfoCriteriaOnly | src/validators/repositoryValidator.ts:49-60 | a criteria-only query passes exactly when the criteria are accepted, and otherwise shows the custom message |
| StrictParamsValidator.ValidateQueryParams | src/validators/RepositoryValidator.ts:32-43 | passes on exactly the acceptable queries of the variant; otherwise 400, INVALID_REQUEST, and the selected message over all details, two for an empty `order` |
| StrictParamsValidator.QueryAcceptance | src/validators/RepositoryValidator.ts:22-30 | the variant's schema gives no detail exactly when the query is acceptable key by key |
| StrictParamsValidator.QuerySchemaKeys | src/validators/RepositoryValidator.ts:22-30 | the variant's schema names the same seven keys |
| StrictParamsValidator.ValueChecks | src/validators/RepositoryValidator.ts:22-30 | all keys pass exactly when every value is acceptable, with a strict date and any non-empty `sortBy` |
| StrictParamsValidator.CreatedKey | src/validators/RepositoryValidator.ts:24 | `created` passes exactly when present and of the shape `\d{4}-\d{2}-\d{2}` |
| StrictParamsValidator.LooseMonthOnlyLive | src/validators/RepositoryValidator.ts:24 | '2023-5-1' matches the live pattern but not the strict one |
| StrictParamsValidator.OutOfRangeOnlyStrict | src/validators/RepositoryValidator.ts:24 | '2023-13-45' has the strict shape but fails the live pattern |
| StrictParamsValidator.LiveAcceptanceCarriesOver | src/validators/RepositoryValidator.ts:22-30 | a query the live validator accepts, with a strictly shaped date, is accepted by the variant |
| StrictParamsValidator.StrictAcceptanceCarriesOver | src/validators/RepositoryValidator.ts:22-30 | a query the variant accepts, with a live-matching date and a live `sortBy` value, is accepted by the live validator |
| StrictParamsValidator.FreeSortByOnlyStrict | src/validators/RepositoryValidator.ts:28 | `sortBy=name` in a query the variant accepts is rejected by the live validator |
| StrictParamsValidator.EmptyOrderMessage | src/validators/RepositoryValidator.ts:27 | a query acceptable but for an empty `order` gets 400 with the message ',', as on the live route |
| StrictParamsValidator.EmptySortByMessage | src/validators/RepositoryValidator.ts:28 | a query acceptable but for an empty `sortBy` fails the string check alone and gets 400 with `"sortBy" is not allowed to be empty` |
| ReqParamsExtractor.StringifyItems | src/utils/reqParamsExtractor.ts:11 | each array element is converted on its own, in order |
| ReqParamsExtractor.StringifyParams | src/utils/reqParamsExtractor.ts:10-12 | the record has exactly the parameter keys, and each value converted |
| ReqParamsExtractor.ExtractReqParams | src/utils/reqParamsExtractor.ts:3-19 | query and path parameters are each converted on their own, keeping their keys |
| ReqParamsExtractor.EmptyParamsGiveEmptyRecord | src/utils/reqParamsExtractor.ts:7-18 | no parameters give an empty record |
| ReqParamsExtractor.NullishBecomeEmpty | src/utils/reqParamsExtractor.ts:10-16 | null and undefined become '', and strings are kept |
| ReqParamsExtractor.NumberRoundTrip | src/utils/reqParamsExtractor.ts:11 | a number becomes a non-empty numeral that reads back as the number |
| ReqParamsExtractor.TestValues | src/utils/reqParamsExtractor.ts:11 | 123 becomes '123', and true and false become 'true' and 'false' |
| ReqParamsExtractor.ItemsPrintJoined | src/utils/reqParamsExtractor.ts:11 | an array of comma-free strings prints them comma-joined, and splitting gives them back |
| ReqParamsExtractor.NullishItems | src/utils/reqParamsExtractor.ts:11 | an array of null and undefined prints as ',' |

## Left out

- Floating point: numbers are exact reals. IEEE-754 artefacts of `toFixed(2)` and `Math.round` are not modelled. For example, JavaScript rounds 0.3/0.8 to 0.37, where the exact value gives 0.38. So the weights with recency excluded are only bounded, not tabulated.
- Dates and the clock: `new Date()` and the parsing of `updated_at` are not modelled, nor NaN from an unparsable date. The current time and the update time are integer milliseconds.
- The cache library: TTL, background expiry and node-cache cloning are not modelled. The cache is a map with take, set and batch set. `src/providers/cacheProvider.ts` is modelled only by `CacheProvider.Cache`.
- Network and URLs: axios, `URL`/`URLSearchParams` percent-encoding and `decodeURIComponent` are not modelled. The request is the list of sent (key, text) pairs, and the upstream reply is a parameter.
- Logging in the services' catch blocks is not modelled; only the rethrow is.
- Concurrency: interleaving of concurrent requests on the shared cache is not modelled.
- Joi internals: only the rules the schemas use are modelled. A key gives one detail, except an empty value of a `valid()` key, which gives the list detail and then the empty-string detail. Left out:
  - numbers in exponent form, with whitespace, or outside the safe-integer range;
  - the exact Joi message templates other than the required-key text;
  - the plain text of the custom rule's detail, which is never shown.
- Express: the validators take string values only. Array or object query values are left to the extractor model.
- ReqParamsExtractor.Stringify: numbers are integers only, so the decimal text of fractions is not modelled. Integers are printed digit by digit at any size, whereas JavaScript prints those of magnitude 1e21 and above in exponent form (`1e+21`), so the text is faithful only below 1e21. Object keys are unordered, so the insertion order of the output record is not modelled.
- The service variant's scored records read back for re-scoring carry no extra raw fields. Only the counters and the update time matter for the score, as `Repository.ScoreDependsOnlyOnCounters` states.
- Controllers, routes, middleware, the application and process start-up, the logger, and the other error classes are not part of this model.
- `src/services/fetchRepos.ts` is not part of this model: it has no live caller, and its formula is floating point.
