/**
 * The upstream search request: the `q` term built from the language and the
 * creation cut-off, followed by the display parameters that are truthy.
 */
module SearchQuery {
  import opened Text

  /** The values a display parameter can take: a parsed number (possibly NaN), a string, or nothing. */
  datatype ParamValue = NumberValue(n: int) | NaNValue | StringValue(s: string) | Undefined

  /** JavaScript truthiness: 0, NaN, '' and undefined are falsy. */
  predicate IsTruthy(v: ParamValue)
  {
    match v
    case NumberValue(n) => n != 0
    case NaNValue => false
    case StringValue(s) => s != ""
    case Undefined => false
  }

  /** `String(v)`, the text a search parameter is given. */
  function ParamText(v: ParamValue): string
  {
    match v
    case NumberValue(n) => IntToString(n)
    case NaNValue => "NaN"
    case StringValue(s) => s
    case Undefined => "undefined"
  }

  const DisplayKeys: set<string> := {"page", "per_page", "sort", "order"}

  /** The display parameters carry keys of the display-parameter type, each at most once. */
  predicate WellTypedDisplay(display: seq<(string, ParamValue)>)
  {
    && (forall i :: 0 <= i < |display| ==> display[i].0 in DisplayKeys)
    && (forall i, j :: 0 <= i < j < |display| ==> display[i].0 != display[j].0)
  }

  /** `language:L`, followed by `+created:>=C` when C is not empty. */
  function SearchTerm(language: string, created: string): (q: string)
    ensures "language:" + language <= q
    ensures q == "language:" + language <==> created == ""
  {
    "language:" + language + (if created != "" then "+created:>=" + created else "")
  }

  /** The truthy parameters, as text, in their order. */
  function TruthyParams(ps: seq<(string, ParamValue)>): seq<(string, string)>
  {
    if |ps| == 0 then []
    else (if IsTruthy(ps[0].1) then [(ps[0].0, ParamText(ps[0].1))] else []) + TruthyParams(ps[1..])
  }

  /** Filtering distributes over concatenation: relative order is preserved. */
  lemma {:induction false} TruthyParamsAppend(a: seq<(string, ParamValue)>, b: seq<(string, ParamValue)>)
    ensures TruthyParams(a + b) == TruthyParams(a) + TruthyParams(b)
    decreases |a|
  {
    if |a| == 0 {
      assert a + b == b;
    } else {
      assert (a + b)[0] == a[0];
      assert (a + b)[1..] == a[1..] + b;
      TruthyParamsAppend(a[1..], b);
    }
  }

  /** A pair is sent exactly when some parameter with that key is truthy and has that text. */
  lemma {:induction false} TruthyParamsMembers(ps: seq<(string, ParamValue)>, key: string, text: string)
    ensures (key, text) in TruthyParams(ps) <==>
      exists i :: 0 <= i < |ps| && ps[i].0 == key && IsTruthy(ps[i].1) && ParamText(ps[i].1) == text
    decreases |ps|
  {
    if |ps| > 0 {
      TruthyParamsMembers(ps[1..], key, text);
      if (key, text) in TruthyParams(ps[1..]) {
        var i :| 0 <= i < |ps[1..]| && ps[1..][i].0 == key && IsTruthy(ps[1..][i].1) && ParamText(ps[1..][i].1) == text;
        assert ps[i + 1] == ps[1..][i];
      }
      if exists i :: 0 <= i < |ps| && ps[i].0 == key && IsTruthy(ps[i].1) && ParamText(ps[i].1) == text {
        var i :| 0 <= i < |ps| && ps[i].0 == key && IsTruthy(ps[i].1) && ParamText(ps[i].1) == text;
        if i > 0 {
          assert ps[1..][i - 1] == ps[i];
        }
      }
    }
  }

  /**
   * The parameters of the search request: the `q` term, then each display
   * parameter whose value is truthy, in the display parameters' key order.
   */
  method BuildSearchParams(language: string, created: string, display: seq<(string, ParamValue)>)
    returns (params: seq<(string, string)>)
    requires WellTypedDisplay(display)
    ensures params == [("q", SearchTerm(language, created))] + TruthyParams(display)
  {
    var queryParams := [("q", StringValue(SearchTerm(language, created)))] + display;
    params := [];
    var i := 0;
    while i < |queryParams|
      invariant 0 <= i <= |queryParams|
      invariant params == TruthyParams(queryParams[..i])
    {
      var (param, value) := queryParams[i];
      assert queryParams[..i + 1] == queryParams[..i] + [queryParams[i]];
      TruthyParamsAppend(queryParams[..i], [queryParams[i]]);
      if IsTruthy(value) {
        params := params + [(param, ParamText(value))];
      }
      i := i + 1;
    }
    assert queryParams[..i] == queryParams;
    TruthyParamsAppend([("q", StringValue(SearchTerm(language, created)))], display);
  }

  /** The search parameters of a language, a date and a full page specification. */
  lemma ExampleSearchParams()
    ensures [("q", SearchTerm("JavaScript", "2021-01-01"))] + TruthyParams([
        ("page", NumberValue(1)), ("per_page", NumberValue(10)),
        ("sort", StringValue("stars")), ("order", StringValue("desc"))])
      == [("q", "language:JavaScript+created:>=2021-01-01"),
          ("page", "1"), ("per_page", "10"), ("sort", "stars"), ("order", "desc")]
  {
    assert IntToString(1) == "1";
    assert IntToString(10) == "10" by {
      assert NatToString(10) == NatToString(1) + [DigitChar(0)];
    }
    var d3 := [("sort", StringValue("stars")), ("order", StringValue("desc"))];
    assert d3[1..] == [("order", StringValue("desc"))];
    assert TruthyParams(d3) == [("sort", "stars"), ("order", "desc")];
    var d2 := [("per_page", NumberValue(10))] + d3;
    assert d2[1..] == d3;
    var d1 := [("page", NumberValue(1))] + d2;
    assert d1[1..] == d2;
    assert TruthyParams(d1) == [("page", "1"), ("per_page", "10"), ("sort", "stars"), ("order", "desc")];
    assert d1 == [
        ("page", NumberValue(1)), ("per_page", NumberValue(10)),
        ("sort", StringValue("stars")), ("order", StringValue("desc"))];
    ExampleSearchTerm();
  }

  lemma ExampleSearchTerm()
    ensures SearchTerm("JavaScript", "2021-01-01") == "language:JavaScript+created:>=2021-01-01"
  {
  }

  /** Without a cut-off date and with every display value falsy, only `q=language:L` is sent. */
  lemma FalsyDisplayIsOmitted(language: string)
    ensures [("q", SearchTerm(language, ""))] + TruthyParams([
        ("page", NaNValue), ("per_page", NumberValue(0)),
        ("sort", Undefined), ("order", StringValue(""))])
      == [("q", "language:" + language)]
  {
    assert "language:" + language + "" == "language:" + language;
    var display := [("page", NaNValue), ("per_page", NumberValue(0)),
                    ("sort", Undefined), ("order", StringValue(""))];
    assert display[1..][1..][1..] == [("order", StringValue(""))];
    assert TruthyParams(display[1..][1..][1..]) == [];
    assert TruthyParams(display[1..][1..]) == [];
    assert TruthyParams(display) == [];
  }
}
