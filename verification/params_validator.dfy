/**
 * The query validators wired into the routes: the list route's schema
 * (language, created, limit, page, order, sortBy, excludedScoreCriteria) and
 * the single-repository route's schema (excludedScoreCriteria only).
 */
module ParamsValidator {
  import opened Wrappers
  import opened Text
  import opened QueryValidation

  predicate IsDigit(c: char) {
    '0' <= c <= '9'
  }

  /** `0?[1-9]|1[012]` */
  predicate MonthToken(s: string) {
    || (|s| == 1 && '1' <= s[0] <= '9')
    || (|s| == 2 && s[0] == '0' && '1' <= s[1] <= '9')
    || (|s| == 2 && s[0] == '1' && '0' <= s[1] <= '2')
  }

  /** `0?[1-9]|[12][0-9]|3[01]` */
  predicate DayToken(s: string) {
    || (|s| == 1 && '1' <= s[0] <= '9')
    || (|s| == 2 && s[0] == '0' && '1' <= s[1] <= '9')
    || (|s| == 2 && '1' <= s[0] <= '2' && IsDigit(s[1]))
    || (|s| == 2 && s[0] == '3' && '0' <= s[1] <= '1')
  }

  /** `(0?[1-9]|[12][0-9]|3[01])*`: the string splits into zero or more day tokens. */
  predicate DayTokens(s: string)
    decreases |s|
  {
    || s == ""
    || (|s| >= 1 && DayToken(s[..1]) && DayTokens(s[1..]))
    || (|s| >= 2 && DayToken(s[..2]) && DayTokens(s[2..]))
  }

  /**
   * `^\d{4}\-(0?[1-9]|1[012])\-(0?[1-9]|[12][0-9]|3[01])*$`: four digits, a
   * dash, a month with an optional leading zero, a dash, and any number of
   * day tokens, none at all included.
   */
  predicate MatchesCreatedPattern(s: string) {
    && |s| >= 7 && IsDigits(s[..4]) && s[4] == '-'
    && (|| (MonthToken(s[5..6]) && s[6] == '-' && DayTokens(s[7..]))
        || (|s| >= 8 && MonthToken(s[5..7]) && s[7] == '-' && DayTokens(s[8..])))
  }

  const CreatedPatternText: string := "/^\\d{4}\\-(0?[1-9]|1[012])\\-(0?[1-9]|[12][0-9]|3[01])*$/"

  const FetchAllReposParamsSchema: Schema := [
    ("language", StringRule(true, AnyString)),
    ("created", StringRule(true, Matches(MatchesCreatedPattern, CreatedPatternText))),
    ("limit", IntegerRule),
    ("page", IntegerRule),
    ("order", StringRule(false, OneOf(["asc", "desc"]))),
    ("sortBy", StringRule(false, OneOf(["stars", "forks", "updated"]))),
    ("excludedScoreCriteria", StringRule(false, ScoringCriteria))]

  const FetchRepoInfoParamsSchema: Schema := [
    ("excludedScoreCriteria", StringRule(false, ScoringCriteria))]

  const FetchAllKeys: set<string> := {"language", "created", "limit", "page", "order", "sortBy", "excludedScoreCriteria"}

  /** The list queries the route lets through, stated key by key. */
  predicate AcceptableFetchAllQuery(query: Query) {
    && AcceptableFetchAllValues(query)
    && forall i :: 0 <= i < |query| ==> query[i].0 in FetchAllKeys
  }

  predicate AcceptableFetchAllValues(query: Query) {
    && Lookup(query, "language").Some? && Lookup(query, "language").value != ""
    && Lookup(query, "created").Some? && Lookup(query, "created").value != ""
    && MatchesCreatedPattern(Lookup(query, "created").value)
    && AcceptableOptionalValues(query)
  }

  /** The optional keys of the list schema, each absent or acceptable. */
  predicate AcceptableOptionalValues(query: Query) {
    && (Lookup(query, "limit").None? || IsIntegerNumeral(Lookup(query, "limit").value))
    && (Lookup(query, "page").None? || IsIntegerNumeral(Lookup(query, "page").value))
    && (Lookup(query, "order").None? || Lookup(query, "order").value in ["asc", "desc"])
    && (Lookup(query, "sortBy").None? || Lookup(query, "sortBy").value in ["stars", "forks", "updated"])
    && (Lookup(query, "excludedScoreCriteria").None? || CriteriaOk(Lookup(query, "excludedScoreCriteria").value))
  }

  /** The single-repository queries the route lets through. */
  predicate AcceptableRepoInfoQuery(query: Query) {
    && (Lookup(query, "excludedScoreCriteria").None? || CriteriaOk(Lookup(query, "excludedScoreCriteria").value))
    && forall i :: 0 <= i < |query| ==> query[i].0 == "excludedScoreCriteria"
  }

  /** Passes an acceptable list query on; otherwise responds 400 with the selected message. */
  function FetchAllReposParamsValidator(query: Query): (o: ValidationOutcome)
    ensures o.Next? <==> AcceptableFetchAllQuery(query)
    ensures o.Respond? ==>
      && o.status == 400 && o.error.statusCode == 400 && o.error.name == "INVALID_REQUEST"
      && o.error.message == ErrorMessage(Validate(FetchAllReposParamsSchema, query))
  {
    FetchAllAcceptance(query);
    Outcome(Validate(FetchAllReposParamsSchema, query))
  }

  /** Passes an acceptable single-repository query on; otherwise responds 400 with the selected message. */
  function FetchRepoInfoParamsValidator(query: Query): (o: ValidationOutcome)
    ensures o.Next? <==> AcceptableRepoInfoQuery(query)
    ensures o.Respond? ==>
      && o.status == 400 && o.error.statusCode == 400 && o.error.name == "INVALID_REQUEST"
      && o.error.message == ErrorMessage(Validate(FetchRepoInfoParamsSchema, query))
  {
    RepoInfoAcceptance(query);
    Outcome(Validate(FetchRepoInfoParamsSchema, query))
  }

  lemma {:induction false} FetchAllAcceptance(query: Query)
    ensures Validate(FetchAllReposParamsSchema, query) == [] <==> AcceptableFetchAllQuery(query)
  {
    FetchAllSchemaKeys();
    FetchAllValueChecks(query);
  }

  lemma FetchAllSchemaKeys()
    ensures SchemaKeys(FetchAllReposParamsSchema) == FetchAllKeys
  {
    var schema := FetchAllReposParamsSchema;
    assert schema[0].0 == "language" && schema[1].0 == "created" && schema[2].0 == "limit";
    assert schema[3].0 == "page" && schema[4].0 == "order" && schema[5].0 == "sortBy";
    assert schema[6].0 == "excludedScoreCriteria";
  }

  /** The schema's key checks, one conjunct per key. */
  lemma {:induction false} FetchAllValueChecks(query: Query)
    ensures (forall i :: 0 <= i < |FetchAllReposParamsSchema| ==> KeyPasses(FetchAllReposParamsSchema, query, i))
      <==> AcceptableFetchAllValues(query)
  {
    FetchAllKey0(query);
    FetchAllKey1(query);
    FetchAllKey2(query);
    FetchAllKey3(query);
    FetchAllKey4(query);
    FetchAllKey5(query);
    FetchAllKey6(query);
    assert AcceptableFetchAllValues(query) <==>
      && KeyPasses(FetchAllReposParamsSchema, query, 0) && KeyPasses(FetchAllReposParamsSchema, query, 1) && KeyPasses(FetchAllReposParamsSchema, query, 2)
      && KeyPasses(FetchAllReposParamsSchema, query, 3) && KeyPasses(FetchAllReposParamsSchema, query, 4) && KeyPasses(FetchAllReposParamsSchema, query, 5)
      && KeyPasses(FetchAllReposParamsSchema, query, 6);
  }

  lemma {:induction false} FetchAllKey0(query: Query)
    ensures KeyPasses(FetchAllReposParamsSchema, query, 0) <==> Lookup(query, "language").Some? && Lookup(query, "language").value != ""
  {
    RequiredStringRule("language", Lookup(query, "language"));
  }

  lemma {:induction false} FetchAllKey1(query: Query)
    ensures KeyPasses(FetchAllReposParamsSchema, query, 1) <==>
      (Lookup(query, "created").Some? && Lookup(query, "created").value != ""
       && MatchesCreatedPattern(Lookup(query, "created").value))
  {
    RequiredPatternRule("created", MatchesCreatedPattern, CreatedPatternText, Lookup(query, "created"));
  }

  lemma {:induction false} FetchAllKey2(query: Query)
    ensures KeyPasses(FetchAllReposParamsSchema, query, 2) <==> Lookup(query, "limit").None? || IsIntegerNumeral(Lookup(query, "limit").value)
  {
    IntegerRuleAccepts("limit", Lookup(query, "limit"));
  }

  lemma {:induction false} FetchAllKey3(query: Query)
    ensures KeyPasses(FetchAllReposParamsSchema, query, 3) <==> Lookup(query, "page").None? || IsIntegerNumeral(Lookup(query, "page").value)
  {
    IntegerRuleAccepts("page", Lookup(query, "page"));
  }

  lemma {:induction false} FetchAllKey4(query: Query)
    ensures KeyPasses(FetchAllReposParamsSchema, query, 4) <==> Lookup(query, "order").None? || Lookup(query, "order").value in ["asc", "desc"]
  {
    OneOfRule("order", ["asc", "desc"], Lookup(query, "order"));
  }

  lemma {:induction false} FetchAllKey5(query: Query)
    ensures KeyPasses(FetchAllReposParamsSchema, query, 5) <==> Lookup(query, "sortBy").None? || Lookup(query, "sortBy").value in ["stars", "forks", "updated"]
  {
    OneOfRule("sortBy", ["stars", "forks", "updated"], Lookup(query, "sortBy"));
  }

  lemma {:induction false} FetchAllKey6(query: Query)
    ensures KeyPasses(FetchAllReposParamsSchema, query, 6) <==> Lookup(query, "excludedScoreCriteria").None? || CriteriaOk(Lookup(query, "excludedScoreCriteria").value)
  {
    CriteriaRule("excludedScoreCriteria", Lookup(query, "excludedScoreCriteria"));
  }

  lemma {:induction false} RepoInfoAcceptance(query: Query)
    ensures Validate(FetchRepoInfoParamsSchema, query) == [] <==> AcceptableRepoInfoQuery(query)
  {
    var schema := FetchRepoInfoParamsSchema;
    assert SchemaKeys(schema) == {"excludedScoreCriteria"} by {
      assert schema[0].0 == "excludedScoreCriteria";
    }
    CriteriaRule("excludedScoreCriteria", Lookup(query, "excludedScoreCriteria"));
  }

  /** Day tokens are made of digits only. */
  lemma {:induction false} DayTokensAreDigits(s: string)
    requires DayTokens(s)
    ensures IsDigits(s)
  {
    if s != "" {
      if |s| >= 1 && DayToken(s[..1]) && DayTokens(s[1..]) {
        DayTokensAreDigits(s[1..]);
        assert forall i :: 1 <= i < |s| ==> s[i] == s[1..][i - 1];
      } else {
        DayTokensAreDigits(s[2..]);
        assert forall i :: 2 <= i < |s| ==> s[i] == s[2..][i - 2];
      }
    }
  }

  /** Any run of non-zero digits, however long, is a sequence of day tokens. */
  lemma {:induction false} NonZeroDigitsAreDayTokens(s: string)
    requires forall i :: 0 <= i < |s| ==> '1' <= s[i] <= '9'
    ensures DayTokens(s)
  {
    if s != "" {
      assert DayToken(s[..1]);
      NonZeroDigitsAreDayTokens(s[1..]);
    }
  }

  /** A month is one or two digits, and the day part is digits only. */
  lemma CreatedPatternShape(s: string)
    requires MatchesCreatedPattern(s)
    ensures IsDigits(s[..4]) && s[4] == '-'
    ensures (s[6] == '-' && IsDigits(s[7..])) || (|s| >= 8 && s[7] == '-' && IsDigits(s[8..]))
  {
    if MonthToken(s[5..6]) && s[6] == '-' && DayTokens(s[7..]) {
      DayTokensAreDigits(s[7..]);
    } else {
      DayTokensAreDigits(s[8..]);
    }
  }

  /** The dates of the tests: dashes pass, slashes do not. */
  lemma CreatedPatternTestDates()
    ensures MatchesCreatedPattern("2023-05-30")
    ensures !MatchesCreatedPattern("2023/05/30")
  {
    var s := "2023-05-30";
    assert s[..4] == "2023" && s[5..7] == "05" && s[8..] == "30";
    assert DayToken(s[8..][..2]) && s[8..][2..] == "";
  }

  /** The trailing `*` lets through a date without a day and a day of any length. */
  lemma CreatedPatternLooseDays()
    ensures MatchesCreatedPattern("2023-05-")
    ensures MatchesCreatedPattern("2023-5-1234")
  {
    var s := "2023-05-";
    assert s[..4] == "2023" && s[5..7] == "05" && s[8..] == "";
    var t := "2023-5-1234";
    assert t[..4] == "2023" && t[5..6] == "5" && t[7..] == "1234";
    NonZeroDigitsAreDayTokens("1234");
  }

  /** The month must lie between 1 and 12. */
  lemma CreatedPatternMonths()
    ensures !MatchesCreatedPattern("2023-13-01")
    ensures !MatchesCreatedPattern("2023-00-01")
  {
    var s := "2023-13-01";
    assert s[5..6] == "1" && s[6] == '3' && s[5..7] == "13";
    var t := "2023-00-01";
    assert t[5..6] == "0" && t[5..7] == "00";
  }

  /**
   * A list query that fails only on its excluded criteria is answered with
   * exactly the custom rule's message.
   */
  lemma {:induction false} CriteriaFailureShowsCustomMessage(query: Query)
    requires Lookup(query, "language").Some? && Lookup(query, "language").value != ""
    requires Lookup(query, "created").Some? && MatchesCreatedPattern(Lookup(query, "created").value)
    requires Lookup(query, "limit").None? && Lookup(query, "page").None?
    requires Lookup(query, "order").None? && Lookup(query, "sortBy").None?
    requires Lookup(query, "excludedScoreCriteria").Some?
    requires Lookup(query, "excludedScoreCriteria").value != ""
    requires !CriteriaOk(Lookup(query, "excludedScoreCriteria").value)
    requires forall i :: 0 <= i < |query| ==> query[i].0 in FetchAllKeys
    ensures FetchAllReposParamsValidator(query) == Respond(400, NewInvalidRequestError(
      CustomValidationForScoringCriteria(Lookup(query, "excludedScoreCriteria").value).error))
  {
    var schema := FetchAllReposParamsSchema;
    var v := Lookup(query, "excludedScoreCriteria");
    LeadingKeysPass(query);
    CriteriaRule("excludedScoreCriteria", v);
    FetchAllSchemaKeys();
    SingleFailingKeyOutcome(schema, query, 6, CheckKey(schema[6].0, schema[6].1, v)[0]);
  }

  lemma {:induction false} LeadingKeysPass(query: Query)
    requires Lookup(query, "language").Some? && Lookup(query, "language").value != ""
    requires Lookup(query, "created").Some? && MatchesCreatedPattern(Lookup(query, "created").value)
    requires Lookup(query, "limit").None? && Lookup(query, "page").None?
    requires Lookup(query, "order").None? && Lookup(query, "sortBy").None?
    ensures forall i :: 0 <= i < 6 ==> KeyPasses(FetchAllReposParamsSchema, query, i)
  {
    FetchAllKey0(query); FetchAllKey1(query); FetchAllKey2(query);
    FetchAllKey3(query); FetchAllKey4(query); FetchAllKey5(query);
  }

  lemma {:induction false} TrailingKeysPass(query: Query)
    requires Lookup(query, "created").Some? && MatchesCreatedPattern(Lookup(query, "created").value)
    requires AcceptableOptionalValues(query)
    ensures forall i :: 1 <= i < 7 ==> KeyPasses(FetchAllReposParamsSchema, query, i)
  {
    FetchAllKey1(query); FetchAllKey2(query); FetchAllKey3(query);
    FetchAllKey4(query); FetchAllKey5(query); FetchAllKey6(query);
  }

  /**
   * A list query that is acceptable except that `language` is missing is
   * answered with exactly Joi's `"language" is required`.
   */
  lemma {:induction false} MissingLanguageMessage(query: Query)
    requires Lookup(query, "language").None?
    requires Lookup(query, "created").Some? && MatchesCreatedPattern(Lookup(query, "created").value)
    requires AcceptableOptionalValues(query)
    requires forall i :: 0 <= i < |query| ==> query[i].0 in FetchAllKeys
    ensures FetchAllReposParamsValidator(query) == Respond(400, NewInvalidRequestError("\"language\" is required"))
  {
    var schema := FetchAllReposParamsSchema;
    var d := Plain(Label("language") + " is required");
    assert schema[0] == ("language", StringRule(true, AnyString));
    assert CheckKey(schema[0].0, schema[0].1, Lookup(query, schema[0].0)) == [d];
    TrailingKeysPass(query);
    FetchAllSchemaKeys();
    SingleFailingKeyOutcome(schema, query, 0, d);
    LanguageRequiredText();
    assert FetchAllReposParamsValidator(query) == Outcome(Validate(schema, query));
  }

  lemma LanguageRequiredText()
    ensures Label("language") + " is required" == "\"language\" is required"
  {
  }

  /**
   * The empty list query misses both required keys; neither detail has a
   * custom message, so the response message is a lone comma.
   */
  lemma EmptyListQueryMessage()
    ensures FetchAllReposParamsValidator([]) == Respond(400, NewInvalidRequestError(","))
  {
    var schema := FetchAllReposParamsSchema;
    var details := [Plain(Label("language") + " is required"), Plain(Label("created") + " is required")];
    assert KeyDetails(schema[2..], []) == [] by {
      assert forall i :: 0 <= i < |schema[2..]| ==> Lookup([], schema[2..][i].0).None?;
    }
    assert KeyDetails(schema, []) == details by {
      assert schema[1..][1..] == schema[2..];
    }
    assert Validate(schema, []) == details;
    PlainDetailsGiveCommas(details);
  }

  /** The single-repository route accepts an empty query. */
  lemma RepoInfoAcceptsEmptyQuery()
    ensures FetchRepoInfoParamsValidator([]) == Next
  {
  }

  /** A single-repository query of only the excluded criteria passes exactly when they are accepted, and otherwise shows the custom message. */
  lemma RepoInfoCriteriaOnly(v: string)
    ensures FetchRepoInfoParamsValidator([("excludedScoreCriteria", v)]).Next? <==> CriteriaOk(v)
    ensures v != "" && !CriteriaOk(v) ==>
      FetchRepoInfoParamsValidator([("excludedScoreCriteria", v)])
        == Respond(400, NewInvalidRequestError(CustomValidationForScoringCriteria(v).error))
  {
    var query := [("excludedScoreCriteria", v)];
    assert Lookup(query, "excludedScoreCriteria") == Some(v);
    CriteriaRule("excludedScoreCriteria", Some(v));
    if v != "" && !CriteriaOk(v) {
      var d := CheckKey("excludedScoreCriteria", StringRule(false, ScoringCriteria), Some(v))[0];
      assert Validate(FetchRepoInfoParamsSchema, query) == [d];
      SingleDetailMessage(d);
    }
  }

  /**
   * A list query that would be acceptable but for an empty `order` gets two
   * plain details for that key, and so is answered 400 with a lone comma.
   */
  lemma {:induction false} EmptyOrderMessage(query: Query)
    requires Lookup(query, "language").Some? && Lookup(query, "language").value != ""
    requires Lookup(query, "created").Some? && MatchesCreatedPattern(Lookup(query, "created").value)
    requires Lookup(query, "order") == Some("")
    requires Lookup(query, "limit").None? || IsIntegerNumeral(Lookup(query, "limit").value)
    requires Lookup(query, "page").None? || IsIntegerNumeral(Lookup(query, "page").value)
    requires Lookup(query, "sortBy").None? || Lookup(query, "sortBy").value in ["stars", "forks", "updated"]
    requires Lookup(query, "excludedScoreCriteria").None? || CriteriaOk(Lookup(query, "excludedScoreCriteria").value)
    requires forall i :: 0 <= i < |query| ==> query[i].0 in FetchAllKeys
    ensures FetchAllReposParamsValidator(query) == Respond(400, NewInvalidRequestError(","))
  {
    OtherKeysPass(query, 4);
    EmptyEnumeratedKey(query, 4);
  }

  /** The same for an empty `sortBy`. */
  lemma {:induction false} EmptySortByMessage(query: Query)
    requires Lookup(query, "language").Some? && Lookup(query, "language").value != ""
    requires Lookup(query, "created").Some? && MatchesCreatedPattern(Lookup(query, "created").value)
    requires Lookup(query, "sortBy") == Some("")
    requires Lookup(query, "limit").None? || IsIntegerNumeral(Lookup(query, "limit").value)
    requires Lookup(query, "page").None? || IsIntegerNumeral(Lookup(query, "page").value)
    requires Lookup(query, "order").None? || Lookup(query, "order").value in ["asc", "desc"]
    requires Lookup(query, "excludedScoreCriteria").None? || CriteriaOk(Lookup(query, "excludedScoreCriteria").value)
    requires forall i :: 0 <= i < |query| ==> query[i].0 in FetchAllKeys
    ensures FetchAllReposParamsValidator(query) == Respond(400, NewInvalidRequestError(","))
  {
    OtherKeysPass(query, 5);
    EmptyEnumeratedKey(query, 5);
  }

  /** Every list key other than the j-th passes when its own value is acceptable. */
  lemma {:induction false} OtherKeysPass(query: Query, j: nat)
    requires j == 4 || j == 5
    requires Lookup(query, "language").Some? && Lookup(query, "language").value != ""
    requires Lookup(query, "created").Some? && MatchesCreatedPattern(Lookup(query, "created").value)
    requires Lookup(query, "limit").None? || IsIntegerNumeral(Lookup(query, "limit").value)
    requires Lookup(query, "page").None? || IsIntegerNumeral(Lookup(query, "page").value)
    requires j != 4 ==> Lookup(query, "order").None? || Lookup(query, "order").value in ["asc", "desc"]
    requires j != 5 ==> Lookup(query, "sortBy").None? || Lookup(query, "sortBy").value in ["stars", "forks", "updated"]
    requires Lookup(query, "excludedScoreCriteria").None? || CriteriaOk(Lookup(query, "excludedScoreCriteria").value)
    ensures forall i :: 0 <= i < |FetchAllReposParamsSchema| && i != j ==> KeyPasses(FetchAllReposParamsSchema, query, i)
  {
    FetchAllKey0(query); FetchAllKey1(query); FetchAllKey2(query);
    FetchAllKey3(query); FetchAllKey4(query); FetchAllKey5(query); FetchAllKey6(query);
  }

  /** An empty value of the j-th list key, `order` or `sortBy`, failing alone gives a lone comma. */
  lemma {:induction false} EmptyEnumeratedKey(query: Query, j: nat)
    requires j == 4 || j == 5
    requires Lookup(query, FetchAllReposParamsSchema[j].0) == Some("")
    requires forall i :: 0 <= i < |FetchAllReposParamsSchema| && i != j ==> KeyPasses(FetchAllReposParamsSchema, query, i)
    requires forall i :: 0 <= i < |query| ==> query[i].0 in FetchAllKeys
    ensures FetchAllReposParamsValidator(query) == Respond(400, NewInvalidRequestError(","))
  {
    var schema := FetchAllReposParamsSchema;
    FetchAllSchemaKeys();
    assert schema[j].1.StringRule? && schema[j].1.check.OneOf? && "" !in schema[j].1.check.values;
    EmptyEnumeratedValueGivesComma(schema, query, j);
  }

  /** `?language=js&created=2023-05-30&order=` is answered with a lone comma. */
  lemma EmptyOrderExample()
    ensures FetchAllReposParamsValidator([("language", "js"), ("created", "2023-05-30"), ("order", "")])
         == Respond(400, NewInvalidRequestError(","))
  {
    var query := [("language", "js"), ("created", "2023-05-30"), ("order", "")];
    CreatedPatternTestDates();
    assert Lookup(query, "language") == Some("js");
    assert Lookup(query, "created") == Some("2023-05-30");
    assert Lookup(query, "order") == Some("");
    assert Lookup(query, "limit").None? && Lookup(query, "page").None?;
    assert Lookup(query, "sortBy").None? && Lookup(query, "excludedScoreCriteria").None?;
    EmptyOrderMessage(query);
  }
}
