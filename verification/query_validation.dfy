/**
 * What the two query validators share: the excluded-criteria check, the
 * per-key rules of a Joi object schema validated with `abortEarly: false`,
 * and the choice of the message of the `InvalidRequestError` they send.
 *
 * A query is the list of its (key, value) pairs in order, with distinct keys
 * and string values. The schema is checked key by key in schema order, each
 * key giving its error details (at most two: an empty value outside an
 * allowed list fails both the list and the string check); every query key
 * the schema does not name gives one more detail afterwards, in query order.
 */
module QueryValidation {
  import opened Wrappers
  import opened Text

  const ValidKeys: seq<string> := ["stars", "forks", "recency"]

  const TooManyValuesMessage: string := "At most two values are allowed"

  /** `${validKeys}` prints the array joined with commas. */
  function InvalidKeyMessage(key: string): string {
    "The valid values are " + Join(ValidKeys, ',') + ". " + key + " is invalid"
  }

  /** The first part, in order, that is not a valid key. */
  function FirstInvalidKey(parts: seq<string>): (r: Option<string>)
    ensures r.None? <==> forall i :: 0 <= i < |parts| ==> parts[i] in ValidKeys
    ensures r.Some? ==> exists i :: 0 <= i < |parts| && parts[i] == r.value && r.value !in ValidKeys
                                 && forall j :: 0 <= j < i ==> parts[j] in ValidKeys
  {
    if |parts| == 0 then None
    else if parts[0] !in ValidKeys then Some(parts[0])
    else
      var r := FirstInvalidKey(parts[1..]);
      assert forall i :: 1 <= i < |parts| ==> parts[i] == parts[1..][i - 1];
      r
  }

  /**
   * The custom Joi rule on `excludedScoreCriteria`: the value split on commas
   * must have at most two parts (checked first), each one of the valid keys.
   * An accepted value is returned unchanged; a rejection carries the custom
   * message.
   */
  function CustomValidationForScoringCriteria(value: string): (r: Result<string, string>)
    ensures r.Success? <==>
      |Split(value, ',')| <= 2 && forall i :: 0 <= i < |Split(value, ',')| ==> Split(value, ',')[i] in ValidKeys
    ensures r.Success? ==> r.value == value
    ensures r.Failure? ==> r.error != ""
    ensures |Split(value, ',')| > 2 ==> r == Failure(TooManyValuesMessage)
    ensures |Split(value, ',')| <= 2 && r.Failure? ==>
      exists i :: 0 <= i < |Split(value, ',')| && Split(value, ',')[i] !in ValidKeys
        && r.error == InvalidKeyMessage(Split(value, ',')[i])
        && forall j :: 0 <= j < i ==> Split(value, ',')[j] in ValidKeys
  {
    var keys := Split(value, ',');
    if |keys| > 2 then Failure(TooManyValuesMessage)
    else match FirstInvalidKey(keys)
      case Some(key) => Failure(InvalidKeyMessage(key))
      case None => Success(value)
  }

  /** One error detail: Joi's own message, and the custom message when the custom rule raised it. */
  datatype ErrorDetail = ErrorDetail(message: string, customMessage: Option<string>)

  /** The error the validators send: status 400 and name INVALID_REQUEST. */
  datatype InvalidRequestError = InvalidRequestError(statusCode: int, name: string, message: string)

  function NewInvalidRequestError(message: string): (e: InvalidRequestError)
    ensures e.statusCode == 400 && e.name == "INVALID_REQUEST" && e.message == message
  {
    InvalidRequestError(400, "INVALID_REQUEST", message)
  }

  /** What a validator middleware does: pass on to the next handler, or respond with the error. */
  datatype ValidationOutcome = Next | Respond(status: int, error: InvalidRequestError)

  function Messages(details: seq<ErrorDetail>): (ms: seq<string>)
    ensures |ms| == |details|
    ensures forall i :: 0 <= i < |details| ==> ms[i] == details[i].message
  {
    seq(|details|, i requires 0 <= i < |details| => details[i].message)
  }

  /** A detail without a custom message contributes an empty string to the join. */
  function CustomMessages(details: seq<ErrorDetail>): (ms: seq<string>)
    ensures |ms| == |details|
    ensures forall i :: 0 <= i < |details| ==> ms[i] == details[i].customMessage.GetOr("")
  {
    seq(|details|, i requires 0 <= i < |details| => details[i].customMessage.GetOr(""))
  }

  /** The joined custom messages when that string is non-empty, else the joined Joi messages. */
  function ErrorMessage(details: seq<ErrorDetail>): string {
    var customMessage := Join(CustomMessages(details), ',');
    if customMessage != "" then customMessage else Join(Messages(details), ',')
  }

  /** Responds with 400 exactly when there is a detail. */
  function Outcome(details: seq<ErrorDetail>): (o: ValidationOutcome)
    ensures o.Next? <==> details == []
    ensures o.Respond? ==> o.status == 400 && o.error == NewInvalidRequestError(ErrorMessage(details))
  {
    if details == [] then Next
    else
      var error := NewInvalidRequestError(ErrorMessage(details));
      Respond(error.statusCode, error)
  }

  lemma JoinSingle(s: string, sep: char)
    ensures Join([s], sep) == s
  {
  }

  /** A join is empty only for no parts or a single empty part. */
  lemma JoinEmptyIff(parts: seq<string>, sep: char)
    ensures Join(parts, sep) == "" <==> |parts| == 0 || (|parts| == 1 && parts[0] == "")
  {
    if |parts| >= 2 {
      assert Join(parts, sep)[|parts[0]|] == sep;
    }
  }

  /** A single detail shows its custom message when it has one, else Joi's message. */
  lemma SingleDetailMessage(d: ErrorDetail)
    requires d.customMessage != Some("")
    ensures ErrorMessage([d]) == if d.customMessage.Some? then d.customMessage.value else d.message
  {
    assert CustomMessages([d]) == [d.customMessage.GetOr("")];
    assert Messages([d]) == [d.message];
  }

  /**
   * As soon as one detail carries a non-empty custom message, the response
   * shows the custom messages joined, with an empty slot for every other detail.
   */
  lemma CustomMessageWins(details: seq<ErrorDetail>, i: nat)
    requires i < |details| && details[i].customMessage.Some? && details[i].customMessage.value != ""
    ensures ErrorMessage(details) == Join(CustomMessages(details), ',')
  {
    JoinEmptyIff(CustomMessages(details), ',');
  }

  /** n empty strings joined with commas: n - 1 commas. */
  lemma {:induction false} JoinEmpties(n: nat)
    requires n >= 1
    ensures Join(seq(n, _ => ""), ',') == seq(n - 1, _ => ',')
  {
    if n > 1 {
      var parts := seq(n, _ => "");
      assert parts[1..] == seq(n - 1, _ => "");
      JoinEmpties(n - 1);
      assert Join(parts, ',') == "" + [','] + seq(n - 2, _ => ',');
    }
  }

  /**
   * Two or more details none of which carries a custom message leave only
   * the commas of the custom join, which is truthy: the response message is
   * a run of commas and Joi's own messages are not shown.
   */
  lemma PlainDetailsGiveCommas(details: seq<ErrorDetail>)
    requires |details| >= 2
    requires forall i :: 0 <= i < |details| ==> details[i].customMessage.None?
    ensures ErrorMessage(details) == seq(|details| - 1, _ => ',')
  {
    assert CustomMessages(details) == seq(|details|, _ => "");
    JoinEmpties(|details|);
  }

  /** How a string-typed key is checked once it is present. */
  datatype StringCheck =
    | AnyString
    | Matches(pattern: string -> bool, patternText: string)
    | OneOf(values: seq<string>)
    | ScoringCriteria

  /** `Joi.string()` (required or optional) with its check, or an optional `Joi.number().integer()`. */
  datatype KeyRule = StringRule(required: bool, check: StringCheck) | IntegerRule

  type Query = seq<(string, string)>
  type Schema = seq<(string, KeyRule)>

  function Lookup(query: Query, key: string): (v: Option<string>)
    ensures v.None? <==> forall i :: 0 <= i < |query| ==> query[i].0 != key
    ensures v.Some? ==> (key, v.value) in query
  {
    if |query| == 0 then None
    else if query[0].0 == key then Some(query[0].1)
    else
      var v := Lookup(query[1..], key);
      assert forall i :: 1 <= i < |query| ==> query[i] == query[1..][i - 1];
      v
  }

  function SchemaKeys(schema: Schema): (keys: set<string>)
    ensures forall k :: k in keys <==> exists i :: 0 <= i < |schema| && schema[i].0 == k
  {
    set i | 0 <= i < |schema| :: schema[i].0
  }

  /** Joi's label: the key in double quotes. */
  function Label(key: string): string {
    "\"" + key + "\""
  }

  function Plain(message: string): ErrorDetail {
    ErrorDetail(message, None)
  }

  /** `values.join(', ')`, as Joi lists the allowed values. */
  function ListText(values: seq<string>): string {
    if |values| == 0 then ""
    else if |values| == 1 then values[0]
    else values[0] + ", " + ListText(values[1..])
  }

  predicate IsDigits(s: string) {
    forall i :: 0 <= i < |s| ==> '0' <= s[i] <= '9'
  }

  /** The text without one leading sign. */
  function Unsigned(s: string): string {
    if |s| > 0 && (s[0] == '+' || s[0] == '-') then s[1..] else s
  }

  /** A decimal numeral Joi converts to a number: a sign, digits, a point and fraction digits, not all of them empty. */
  predicate IsNumeral(s: string) {
    var parts := Split(Unsigned(s), '.');
    && |parts| <= 2
    && IsDigits(parts[0])
    && (|parts| == 2 ==> IsDigits(parts[1]))
    && (|parts[0]| > 0 || (|parts| == 2 && |parts[1]| > 0))
  }

  /** A numeral whose fraction digits, if any, are all zero. */
  predicate IsIntegerNumeral(s: string) {
    && IsNumeral(s)
    && var parts := Split(Unsigned(s), '.');
       |parts| == 2 ==> forall i :: 0 <= i < |parts[1]| ==> parts[1][i] == '0'
  }

  function EmptyText(key: string): string {
    Label(key) + " is not allowed to be empty"
  }

  function OnlyText(key: string, values: seq<string>): string {
    Label(key) + " must be one of [" + ListText(values) + "]"
  }

  /**
   * The details one schema key produces: a missing required key, an empty
   * string where a string is expected, a value outside the allowed list, a
   * non-numeral or non-integer number, a failed pattern, or a failed custom
   * rule, which alone carries a custom message. A value outside the allowed
   * list is still given to the string check, so an empty one fails twice;
   * every other failure stops the key's checks.
   */
  function CheckKey(key: string, rule: KeyRule, value: Option<string>): (ds: seq<ErrorDetail>)
    ensures |ds| <= 2
    ensures |ds| == 2 <==>
      rule.StringRule? && rule.check.OneOf? && value == Some("") && "" !in rule.check.values
    ensures |ds| == 2 ==>
      ds == [Plain(OnlyText(key, rule.check.values)), Plain(EmptyText(key))]
    ensures |ds| == 1 && ds[0].customMessage.Some? ==>
      && rule.StringRule? && rule.check == ScoringCriteria && value.Some?
      && CustomValidationForScoringCriteria(value.value) == Failure(ds[0].customMessage.value)
  {
    match value
    case None =>
      if rule.StringRule? && rule.required then [Plain(Label(key) + " is required")] else []
    case Some(v) =>
      match rule
      case IntegerRule =>
        if !IsNumeral(v) then [Plain(Label(key) + " must be a number")]
        else if !IsIntegerNumeral(v) then [Plain(Label(key) + " must be an integer")]
        else []
      case StringRule(_, OneOf(values)) =>
        if v in values then []
        else if v == "" then [Plain(OnlyText(key, values)), Plain(EmptyText(key))]
        else [Plain(OnlyText(key, values))]
      case StringRule(_, check) =>
        if v == "" then [Plain(EmptyText(key))]
        else match check
          case Matches(pattern, patternText) =>
            if pattern(v) then []
            else [Plain(Label(key) + " with value \"" + v + "\" fails to match the required pattern: " + patternText)]
          case ScoringCriteria =>
            (match CustomValidationForScoringCriteria(v)
             case Success(_) => []
             case Failure(m) => [ErrorDetail(Label(key) + " failed custom validation because ", Some(m))])
          case _ => []
  }

  /** The i-th key of the schema raises no detail. */
  predicate KeyPasses(schema: Schema, query: Query, i: int)
    requires 0 <= i < |schema|
  {
    CheckKey(schema[i].0, schema[i].1, Lookup(query, schema[i].0)) == []
  }

  lemma {:induction false} KeyPassesTail(schema: Schema, query: Query)
    requires |schema| >= 1
    ensures forall k {:trigger KeyPasses(schema[1..], query, k)} :: 0 <= k < |schema| - 1 ==>
      KeyPasses(schema[1..], query, k) == KeyPasses(schema, query, k + 1)
    ensures forall i {:trigger KeyPasses(schema, query, i)} :: 1 <= i < |schema| ==>
      KeyPasses(schema, query, i) == KeyPasses(schema[1..], query, i - 1)
  {
    assert forall i :: 1 <= i < |schema| ==> schema[i] == schema[1..][i - 1];
  }

  /** The details of the schema keys, in schema order. */
  function KeyDetails(schema: Schema, query: Query): (details: seq<ErrorDetail>)
    ensures |details| <= 2 * |schema|
    ensures details == [] <==>
      forall i :: 0 <= i < |schema| ==> KeyPasses(schema, query, i)
  {
    if |schema| == 0 then []
    else
      var rest := KeyDetails(schema[1..], query);
      KeyPassesTail(schema, query);
      var first := CheckKey(schema[0].0, schema[0].1, Lookup(query, schema[0].0));
      assert first == [] <==> KeyPasses(schema, query, 0);
      first + rest
  }

  /** One `"key" is not allowed` detail per query key outside the schema, in query order. */
  function UnknownDetails(keys: set<string>, query: Query): (details: seq<ErrorDetail>)
    ensures |details| <= |query|
    ensures details == [] <==> forall i :: 0 <= i < |query| ==> query[i].0 in keys
    ensures forall i :: 0 <= i < |details| ==> details[i].customMessage.None?
  {
    if |query| == 0 then []
    else
      var rest := UnknownDetails(keys, query[1..]);
      assert forall i :: 1 <= i < |query| ==> query[i] == query[1..][i - 1];
      if query[0].0 in keys then rest else [Plain(Label(query[0].0) + " is not allowed")] + rest
  }

  lemma {:induction false} UnknownDetailsNone(keys: set<string>, query: Query)
    requires forall i :: 0 <= i < |query| ==> query[i].0 in keys
    ensures UnknownDetails(keys, query) == []
  {
  }

  /** `schema.validate(query, { abortEarly: false })`: the error details, empty when the query is valid. */
  function Validate(schema: Schema, query: Query): (details: seq<ErrorDetail>)
    ensures details == [] <==>
      && (forall i :: 0 <= i < |schema| ==> KeyPasses(schema, query, i))
      && (forall i :: 0 <= i < |query| ==> query[i].0 in SchemaKeys(schema))
  {
    KeyDetails(schema, query) + UnknownDetails(SchemaKeys(schema), query)
  }

  /** An accepted excluded-criteria value: non-empty, and passing the custom rule. */
  predicate CriteriaOk(v: string) {
    v != "" && CustomValidationForScoringCriteria(v).Success?
  }

  /** A required string passes exactly when it is present and non-empty. */
  lemma RequiredStringRule(key: string, value: Option<string>)
    ensures CheckKey(key, StringRule(true, AnyString), value) == [] <==> value.Some? && value.value != ""
  {
  }

  /** A required patterned string passes exactly when it is present, non-empty and matches. */
  lemma RequiredPatternRule(key: string, pattern: string -> bool, patternText: string, value: Option<string>)
    ensures CheckKey(key, StringRule(true, Matches(pattern, patternText)), value) == [] <==>
      value.Some? && value.value != "" && pattern(value.value)
  {
  }

  /** An optional integer passes exactly when it is absent or an integer numeral. */
  lemma IntegerRuleAccepts(key: string, value: Option<string>)
    ensures CheckKey(key, IntegerRule, value) == [] <==> value.None? || IsIntegerNumeral(value.value)
  {
  }

  /** An optional enumerated string passes exactly when it is absent or one of the values. */
  lemma OneOfRule(key: string, values: seq<string>, value: Option<string>)
    ensures CheckKey(key, StringRule(false, OneOf(values)), value) == [] <==> value.None? || value.value in values
  {
  }

  /** An optional string passes exactly when it is absent or non-empty. */
  lemma OptionalStringRule(key: string, value: Option<string>)
    ensures CheckKey(key, StringRule(false, AnyString), value) == [] <==> value.None? || value.value != ""
  {
  }

  /** The optional excluded-criteria key passes exactly when it is absent or the custom rule accepts it. */
  lemma CriteriaRule(key: string, value: Option<string>)
    ensures CheckKey(key, StringRule(false, ScoringCriteria), value) == [] <==> value.None? || CriteriaOk(value.value)
    ensures value.Some? && value.value != "" && !CriteriaOk(value.value) ==>
      CheckKey(key, StringRule(false, ScoringCriteria), value)
        == [ErrorDetail(Label(key) + " failed custom validation because ",
                        Some(CustomValidationForScoringCriteria(value.value).error))]
  {
  }

  /** The valid keys print as `stars,forks,recency`. */
  lemma InvalidKeyMessageText(key: string)
    ensures InvalidKeyMessage(key) == "The valid values are stars,forks,recency. " + key + " is invalid"
  {
    assert Join(ValidKeys, ',') == "stars" + [','] + ("forks" + [','] + "recency");
  }

  /** Splitting comma-free pieces joined by commas gives them back. */
  lemma SplitPieces(value: string, pieces: seq<string>)
    requires |pieces| >= 1 && forall i :: 0 <= i < |pieces| ==> ',' !in pieces[i]
    requires value == Join(pieces, ',')
    ensures Split(value, ',') == pieces
  {
    SplitJoin(pieces, ',');
  }

  /**
   * Any two valid keys pass unchanged, the same key twice included: only the
   * count and membership are checked, not repetition.
   */
  lemma TwoValidKeysPass(a: string, b: string)
    requires a in ValidKeys && b in ValidKeys
    ensures CustomValidationForScoringCriteria(a + "," + b) == Success(a + "," + b)
  {
    assert ',' !in a && ',' !in b;
    assert Join([a, b], ',') == a + "," + b;
    SplitPieces(a + "," + b, [a, b]);
  }

  /** Three keys fail on the count even when all of them are valid. */
  lemma ThreeValidKeysFail()
    ensures CustomValidationForScoringCriteria("stars,forks,recency") == Failure(TooManyValuesMessage)
  {
    assert Join(["stars", "forks", "recency"], ',') == "stars,forks,recency";
    SplitPieces("stars,forks,recency", ["stars", "forks", "recency"]);
  }

  /** An unknown key is named in the message. */
  lemma UnknownKeyIsNamed()
    ensures CustomValidationForScoringCriteria("stars,invalid")
         == Failure(InvalidKeyMessage("invalid"))
  {
    StarsInvalidSplit();
    SecondPartInvalid("stars,invalid", "stars", "invalid");
  }

  lemma StarsInvalidSplit()
    ensures Split("stars,invalid", ',') == ["stars", "invalid"]
  {
    assert Join(["stars", "invalid"], ',') == "stars,invalid";
    SplitPieces("stars,invalid", ["stars", "invalid"]);
  }

  lemma SecondPartInvalid(value: string, first: string, second: string)
    requires Split(value, ',') == [first, second]
    requires first in ValidKeys && second !in ValidKeys
    ensures CustomValidationForScoringCriteria(value) == Failure(InvalidKeyMessage(second))
  {
    var keys := Split(value, ',');
    assert keys[1..] == [second];
    assert FirstInvalidKey([second]) == Some(second);
    assert FirstInvalidKey(keys) == Some(second);
  }

  /** When exactly one schema key fails, its details are the only key details. */
  lemma {:induction false} SingleFailingKey(schema: Schema, query: Query, j: nat, ds: seq<ErrorDetail>)
    requires j < |schema|
    requires CheckKey(schema[j].0, schema[j].1, Lookup(query, schema[j].0)) == ds
    requires forall i :: 0 <= i < |schema| && i != j ==> KeyPasses(schema, query, i)
    ensures KeyDetails(schema, query) == ds
  {
    KeyPassesTail(schema, query);
    var first := CheckKey(schema[0].0, schema[0].1, Lookup(query, schema[0].0));
    assert KeyDetails(schema, query) == first + KeyDetails(schema[1..], query);
    if j > 0 {
      assert KeyPasses(schema, query, 0) && first == [];
      assert schema[1..][j - 1] == schema[j];
      assert forall i :: 0 <= i < |schema[1..]| && i != j - 1 ==> KeyPasses(schema[1..], query, i);
      SingleFailingKey(schema[1..], query, j - 1, ds);
    } else {
      assert forall i :: 0 <= i < |schema[1..]| ==> KeyPasses(schema[1..], query, i);
      assert KeyDetails(schema[1..], query) == [];
    }
  }

  /**
   * A query whose keys are all known and that fails with one detail on one
   * schema key alone is answered 400 with that key's custom message, or
   * Joi's when it has none.
   */
  lemma {:induction false} SingleFailingKeyOutcome(schema: Schema, query: Query, j: nat, d: ErrorDetail)
    requires j < |schema|
    requires CheckKey(schema[j].0, schema[j].1, Lookup(query, schema[j].0)) == [d]
    requires d.customMessage != Some("")
    requires forall i :: 0 <= i < |schema| && i != j ==> KeyPasses(schema, query, i)
    requires forall i :: 0 <= i < |query| ==> query[i].0 in SchemaKeys(schema)
    ensures d.customMessage.Some? ==>
      Outcome(Validate(schema, query)) == Respond(400, NewInvalidRequestError(d.customMessage.value))
    ensures d.customMessage.None? ==>
      Outcome(Validate(schema, query)) == Respond(400, NewInvalidRequestError(d.message))
  {
    SingleFailingKey(schema, query, j, [d]);
    UnknownDetailsNone(SchemaKeys(schema), query);
    SingleDetailMessage(d);
  }

  /**
   * A query whose keys are all known and that fails only on an empty value of
   * an enumerated key gets two details, neither with a custom message: the
   * custom join is a lone comma, which is truthy, so that comma is the
   * response message and Joi's two messages are not shown.
   */
  lemma {:induction false} EmptyEnumeratedValueGivesComma(schema: Schema, query: Query, j: nat)
    requires j < |schema|
    requires schema[j].1.StringRule? && schema[j].1.check.OneOf? && "" !in schema[j].1.check.values
    requires Lookup(query, schema[j].0) == Some("")
    requires forall i :: 0 <= i < |schema| && i != j ==> KeyPasses(schema, query, i)
    requires forall i :: 0 <= i < |query| ==> query[i].0 in SchemaKeys(schema)
    ensures |Validate(schema, query)| == 2
    ensures Outcome(Validate(schema, query)) == Respond(400, NewInvalidRequestError(","))
  {
    var ds := CheckKey(schema[j].0, schema[j].1, Lookup(query, schema[j].0));
    assert |ds| == 2 && ds[0].customMessage.None? && ds[1].customMessage.None?;
    SingleFailingKey(schema, query, j, ds);
    UnknownDetailsNone(SchemaKeys(schema), query);
    assert Validate(schema, query) == ds;
    TwoPlainDetailsGiveComma(ds);
  }

  lemma TwoPlainDetailsGiveComma(ds: seq<ErrorDetail>)
    requires |ds| == 2 && ds[0].customMessage.None? && ds[1].customMessage.None?
    ensures Outcome(ds) == Respond(400, NewInvalidRequestError(","))
  {
    PlainDetailsGiveCommas(ds);
    assert seq(1, _ => ',') == ",";
  }
}
