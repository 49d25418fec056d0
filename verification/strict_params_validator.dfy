/**
 * The unreferenced validator variant: one list schema, checked the same way
 * as the live one, but with a strict `YYYY-MM-DD` shape for `created` and any
 * non-empty `sortBy`. The excluded-criteria rule and the choice of the error
 * message are shared with the live validators.
 */
module StrictParamsValidator {
  import opened Wrappers
  import opened QueryValidation
  import opened ParamsValidator

  /** `^\d{4}-\d{2}-\d{2}$`: digits in the date's shape, whatever their values. */
  predicate StrictDate(s: string) {
    && |s| == 10
    && IsDigits(s[..4]) && s[4] == '-'
    && IsDigits(s[5..7]) && s[7] == '-'
    && IsDigits(s[8..])
  }

  const StrictDatePatternText: string := "/^\\d{4}-\\d{2}-\\d{2}$/"

  const QuerySchema: Schema := [
    ("language", StringRule(true, AnyString)),
    ("created", StringRule(true, Matches(StrictDate, StrictDatePatternText))),
    ("limit", IntegerRule),
    ("page", IntegerRule),
    ("order", StringRule(false, OneOf(["asc", "desc"]))),
    ("sortBy", StringRule(false, AnyString)),
    ("excludedScoreCriteria", StringRule(false, ScoringCriteria))]

  /** The queries the variant lets through, stated key by key. */
  predicate AcceptableQuery(query: Query) {
    && AcceptableValues(query)
    && forall i :: 0 <= i < |query| ==> query[i].0 in FetchAllKeys
  }

  predicate AcceptableValues(query: Query) {
    && Lookup(query, "language").Some? && Lookup(query, "language").value != ""
    && Lookup(query, "created").Some? && StrictDate(Lookup(query, "created").value)
    && (Lookup(query, "limit").None? || IsIntegerNumeral(Lookup(query, "limit").value))
    && (Lookup(query, "page").None? || IsIntegerNumeral(Lookup(query, "page").value))
    && (Lookup(query, "order").None? || Lookup(query, "order").value in ["asc", "desc"])
    && (Lookup(query, "sortBy").None? || Lookup(query, "sortBy").value != "")
    && (Lookup(query, "excludedScoreCriteria").None? || CriteriaOk(Lookup(query, "excludedScoreCriteria").value))
  }

  /** Passes an acceptable query on; otherwise responds 400 with the selected message. */
  function ValidateQueryParams(query: Query): (o: ValidationOutcome)
    ensures o.Next? <==> AcceptableQuery(query)
    ensures o.Respond? ==>
      && o.status == 400 && o.error.statusCode == 400 && o.error.name == "INVALID_REQUEST"
      && o.error.message == ErrorMessage(Validate(QuerySchema, query))
  {
    QueryAcceptance(query);
    Outcome(Validate(QuerySchema, query))
  }

  lemma {:induction false} QueryAcceptance(query: Query)
    ensures Validate(QuerySchema, query) == [] <==> AcceptableQuery(query)
  {
    QuerySchemaKeys();
    ValueChecks(query);
  }

  lemma QuerySchemaKeys()
    ensures SchemaKeys(QuerySchema) == FetchAllKeys
  {
    var schema := QuerySchema;
    assert schema[0].0 == "language" && schema[1].0 == "created" && schema[2].0 == "limit";
    assert schema[3].0 == "page" && schema[4].0 == "order" && schema[5].0 == "sortBy";
    assert schema[6].0 == "excludedScoreCriteria";
  }

  /** The schema's key checks, one conjunct per key. */
  lemma {:induction false} ValueChecks(query: Query)
    ensures (forall i :: 0 <= i < |QuerySchema| ==> KeyPasses(QuerySchema, query, i)) <==> AcceptableValues(query)
  {
    RequiredStringRule("language", Lookup(query, "language"));
    CreatedKey(query);
    IntegerRuleAccepts("limit", Lookup(query, "limit"));
    IntegerRuleAccepts("page", Lookup(query, "page"));
    OneOfRule("order", ["asc", "desc"], Lookup(query, "order"));
    OptionalStringRule("sortBy", Lookup(query, "sortBy"));
    CriteriaRule("excludedScoreCriteria", Lookup(query, "excludedScoreCriteria"));
    assert AcceptableValues(query) <==>
      && KeyPasses(QuerySchema, query, 0) && KeyPasses(QuerySchema, query, 1) && KeyPasses(QuerySchema, query, 2)
      && KeyPasses(QuerySchema, query, 3) && KeyPasses(QuerySchema, query, 4) && KeyPasses(QuerySchema, query, 5)
      && KeyPasses(QuerySchema, query, 6);
  }

  /** A strict date is never empty, so the pattern check alone decides `created`. */
  lemma {:induction false} CreatedKey(query: Query)
    ensures KeyPasses(QuerySchema, query, 1) <==>
      Lookup(query, "created").Some? && StrictDate(Lookup(query, "created").value)
  {
    RequiredPatternRule("created", StrictDate, StrictDatePatternText, Lookup(query, "created"));
  }

  /** A date with a one-digit month passes the live pattern but not the strict one. */
  lemma LooseMonthOnlyLive()
    ensures MatchesCreatedPattern("2023-5-1") && !StrictDate("2023-5-1")
  {
    var s := "2023-5-1";
    assert s[..4] == "2023" && s[5..6] == "5" && s[7..] == "1";
    assert DayToken(s[7..][..1]) && s[7..][1..] == "";
  }

  /** An out-of-range month and day pass the strict shape but not the live pattern. */
  lemma OutOfRangeOnlyStrict()
    ensures StrictDate("2023-13-45") && !MatchesCreatedPattern("2023-13-45")
  {
    var s := "2023-13-45";
    assert s[..4] == "2023" && s[5..7] == "13" && s[8..] == "45";
    assert s[5..6] == "1" && s[6] == '3';
  }

  /**
   * A query the live list validator accepts whose date has the strict shape
   * is accepted by the variant too.
   */
  lemma {:induction false} LiveAcceptanceCarriesOver(query: Query)
    requires FetchAllReposParamsValidator(query) == Next
    requires StrictDate(Lookup(query, "created").value)
    ensures ValidateQueryParams(query) == Next
  {
    assert AcceptableFetchAllQuery(query);
    var sortBy := Lookup(query, "sortBy");
    assert sortBy.Some? ==> sortBy.value in ["stars", "forks", "updated"];
  }

  /**
   * A query the variant accepts is accepted by the live list validator as
   * soon as its date matches the live pattern and its `sortBy` is one of
   * the live values.
   */
  lemma {:induction false} StrictAcceptanceCarriesOver(query: Query)
    requires ValidateQueryParams(query) == Next
    requires MatchesCreatedPattern(Lookup(query, "created").value)
    requires Lookup(query, "sortBy").None? || Lookup(query, "sortBy").value in ["stars", "forks", "updated"]
    ensures FetchAllReposParamsValidator(query) == Next
  {
    assert AcceptableQuery(query);
    assert Lookup(query, "created").value != "";
  }

  /** A `sortBy` outside the live values is the variant's business alone. */
  lemma {:induction false} FreeSortByOnlyStrict(query: Query)
    requires ValidateQueryParams(query) == Next
    requires Lookup(query, "sortBy") == Some("name")
    ensures FetchAllReposParamsValidator(query).Respond?
  {
    assert "name" !in ["stars", "forks", "updated"];
    assert !AcceptableFetchAllValues(query);
  }

  /** Every key of the variant's schema other than the j-th passes when its own value is acceptable. */
  lemma {:induction false} OtherKeysPass(query: Query, j: nat)
    requires j == 4 || j == 5
    requires Lookup(query, "language").Some? && Lookup(query, "language").value != ""
    requires Lookup(query, "created").Some? && StrictDate(Lookup(query, "created").value)
    requires Lookup(query, "limit").None? || IsIntegerNumeral(Lookup(query, "limit").value)
    requires Lookup(query, "page").None? || IsIntegerNumeral(Lookup(query, "page").value)
    requires j != 4 ==> Lookup(query, "order").None? || Lookup(query, "order").value in ["asc", "desc"]
    requires j != 5 ==> Lookup(query, "sortBy").None? || Lookup(query, "sortBy").value != ""
    requires Lookup(query, "excludedScoreCriteria").None? || CriteriaOk(Lookup(query, "excludedScoreCriteria").value)
    ensures forall i :: 0 <= i < |QuerySchema| && i != j ==> KeyPasses(QuerySchema, query, i)
  {
    RequiredStringRule("language", Lookup(query, "language"));
    CreatedKey(query);
    IntegerRuleAccepts("limit", Lookup(query, "limit"));
    IntegerRuleAccepts("page", Lookup(query, "page"));
    OneOfRule("order", ["asc", "desc"], Lookup(query, "order"));
    OptionalStringRule("sortBy", Lookup(query, "sortBy"));
    CriteriaRule("excludedScoreCriteria", Lookup(query, "excludedScoreCriteria"));
  }

  /**
   * As on the live route, a query that would be acceptable but for an empty
   * `order` is answered 400 with a lone comma.
   */
  lemma {:induction false} EmptyOrderMessage(query: Query)
    requires Lookup(query, "language").Some? && Lookup(query, "language").value != ""
    requires Lookup(query, "created").Some? && StrictDate(Lookup(query, "created").value)
    requires Lookup(query, "order") == Some("")
    requires Lookup(query, "limit").None? || IsIntegerNumeral(Lookup(query, "limit").value)
    requires Lookup(query, "page").None? || IsIntegerNumeral(Lookup(query, "page").value)
    requires Lookup(query, "sortBy").None? || Lookup(query, "sortBy").value != ""
    requires Lookup(query, "excludedScoreCriteria").None? || CriteriaOk(Lookup(query, "excludedScoreCriteria").value)
    requires forall i :: 0 <= i < |query| ==> query[i].0 in FetchAllKeys
    ensures ValidateQueryParams(query) == Respond(400, NewInvalidRequestError(","))
  {
    var schema := QuerySchema;
    OtherKeysPass(query, 4);
    QuerySchemaKeys();
    assert schema[4] == ("order", StringRule(false, OneOf(["asc", "desc"])));
    EmptyOrderComma(query);
  }

  lemma {:induction false} EmptyOrderComma(query: Query)
    requires Lookup(query, "order") == Some("")
    requires forall i :: 0 <= i < |QuerySchema| && i != 4 ==> KeyPasses(QuerySchema, query, i)
    requires forall i :: 0 <= i < |query| ==> query[i].0 in SchemaKeys(QuerySchema)
    ensures ValidateQueryParams(query) == Respond(400, NewInvalidRequestError(","))
  {
    var schema := QuerySchema;
    assert schema[4] == ("order", StringRule(false, OneOf(["asc", "desc"])));
    EmptyEnumeratedValueGivesComma(schema, query, 4);
  }

  /**
   * An empty `sortBy`, free-form in the variant, fails the string check alone:
   * the response shows Joi's single message.
   */
  lemma {:induction false} EmptySortByMessage(query: Query)
    requires Lookup(query, "language").Some? && Lookup(query, "language").value != ""
    requires Lookup(query, "created").Some? && StrictDate(Lookup(query, "created").value)
    requires Lookup(query, "sortBy") == Some("")
    requires Lookup(query, "limit").None? || IsIntegerNumeral(Lookup(query, "limit").value)
    requires Lookup(query, "page").None? || IsIntegerNumeral(Lookup(query, "page").value)
    requires Lookup(query, "order").None? || Lookup(query, "order").value in ["asc", "desc"]
    requires Lookup(query, "excludedScoreCriteria").None? || CriteriaOk(Lookup(query, "excludedScoreCriteria").value)
    requires forall i :: 0 <= i < |query| ==> query[i].0 in FetchAllKeys
    ensures ValidateQueryParams(query) == Respond(400, NewInvalidRequestError("\"sortBy\" is not allowed to be empty"))
  {
    OtherKeysPass(query, 5);
    QuerySchemaKeys();
    EmptySortByDetail(query);
    SortByEmptyText();
  }

  lemma {:induction false} EmptySortByDetail(query: Query)
    requires Lookup(query, "sortBy") == Some("")
    requires forall i :: 0 <= i < |QuerySchema| && i != 5 ==> KeyPasses(QuerySchema, query, i)
    requires forall i :: 0 <= i < |query| ==> query[i].0 in SchemaKeys(QuerySchema)
    ensures ValidateQueryParams(query) == Respond(400, NewInvalidRequestError(EmptyText("sortBy")))
  {
    var schema := QuerySchema;
    assert schema[5] == ("sortBy", StringRule(false, AnyString));
    var d := Plain(EmptyText("sortBy"));
    assert CheckKey(schema[5].0, schema[5].1, Lookup(query, schema[5].0)) == [d];
    SingleFailingKeyOutcome(schema, query, 5, d);
  }

  lemma SortByEmptyText()
    ensures EmptyText("sortBy") == "\"sortBy\" is not allowed to be empty"
  {
  }
}
