/**
 * The request-parameter extractor: every query and path parameter of a
 * request is turned into a string, keeping its key. A value is converted by
 * its `toString`, and `null` or `undefined` become the empty string.
 */
module ReqParamsExtractor {
  import opened Text

  /** A parameter value as the request hands it over. Numbers are integers here. */
  datatype ParamValue =
    | Str(s: string)
    | Num(n: int)
    | Bool(b: bool)
    | Null
    | Undefined
    | Items(items: seq<ParamValue>)
    | Obj

  /**
   * `value?.toString() || ''`. An array prints its elements joined with
   * commas, each `null` or `undefined` element as the empty string; a plain
   * object prints as `[object Object]`.
   */
  function Stringify(v: ParamValue): string
    decreases v
  {
    match v
    case Str(s) => s
    case Num(n) => IntToString(n)
    case Bool(b) => if b then "true" else "false"
    case Null => ""
    case Undefined => ""
    case Items(items) => Join(StringifyItems(items), ',')
    case Obj => "[object Object]"
  }

  function StringifyItems(items: seq<ParamValue>): (r: seq<string>)
    decreases items
    ensures |r| == |items|
    ensures forall i :: 0 <= i < |items| ==> r[i] == Stringify(items[i])
  {
    if |items| == 0 then []
    else
      var rest := StringifyItems(items[1..]);
      assert forall i :: 1 <= i < |items| ==> items[i] == items[1..][i - 1];
      [Stringify(items[0])] + rest
  }

  /** The record of converted parameters: same keys, each value converted. */
  predicate ConvertedFrom(params: map<string, ParamValue>, r: map<string, string>) {
    && r.Keys == params.Keys
    && forall k :: k in r ==> r[k] == Stringify(params[k])
  }

  /** One `for…in` loop: writes the converted value of every parameter into a fresh record. */
  method StringifyParams(params: map<string, ParamValue>) returns (r: map<string, string>)
    ensures ConvertedFrom(params, r)
  {
    r := map[];
    var remaining := params.Keys;
    while remaining != {}
      invariant remaining <= params.Keys
      invariant r.Keys == params.Keys - remaining
      invariant forall k :: k in r ==> r[k] == Stringify(params[k])
      decreases |remaining|
    {
      var k :| k in remaining;
      r := r[k := Stringify(params[k])];
      remaining := remaining - {k};
    }
  }

  /** Converts the query parameters and the path parameters, each on its own. */
  method ExtractReqParams(query: map<string, ParamValue>, path: map<string, ParamValue>)
    returns (queryParams: map<string, string>, pathParams: map<string, string>)
    ensures ConvertedFrom(query, queryParams)
    ensures ConvertedFrom(path, pathParams)
  {
    queryParams := StringifyParams(query);
    pathParams := StringifyParams(path);
  }

  /** No parameters, no converted parameters. */
  lemma EmptyParamsGiveEmptyRecord(r: map<string, string>)
    requires ConvertedFrom(map[], r)
    ensures r == map[]
  {
  }

  /** `null` and `undefined` become the empty string; strings are kept as they are. */
  lemma NullishBecomeEmpty(s: string)
    ensures Stringify(Null) == "" && Stringify(Undefined) == ""
    ensures Stringify(Str(s)) == s
  {
  }

  /** A number prints as its decimal numeral, which reads back as the same number. */
  lemma NumberRoundTrip(n: int)
    ensures |Stringify(Num(n))| >= 1
    ensures ParseInt(Stringify(Num(n))) == n
  {
    IntToStringRoundTrip(n);
  }

  /** The values of the tests: 123 prints as "123", true as "true". */
  lemma TestValues()
    ensures Stringify(Num(123)) == "123"
    ensures Stringify(Bool(true)) == "true" && Stringify(Bool(false)) == "false"
  {
    assert NatToString(123) == NatToString(12) + [DigitChar(3)];
    assert NatToString(12) == NatToString(1) + [DigitChar(2)];
  }

  /** An array of comma-free strings prints them joined by commas, and splitting gives them back. */
  lemma {:induction false} ItemsPrintJoined(items: seq<ParamValue>)
    requires |items| >= 1
    requires forall i :: 0 <= i < |items| ==> items[i].Str? && ',' !in items[i].s
    ensures Split(Stringify(Items(items)), ',') == seq(|items|, i requires 0 <= i < |items| => items[i].s)
  {
    var parts := StringifyItems(items);
    assert parts == seq(|items|, i requires 0 <= i < |items| => items[i].s);
    SplitJoin(parts, ',');
  }

  /** An array of two nullish elements prints as a lone comma. */
  lemma NullishItems()
    ensures Stringify(Items([Null, Undefined])) == ","
  {
    assert StringifyItems([Null, Undefined]) == ["", ""];
  }
}
