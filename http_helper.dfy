/**
 * Content types of a request and the preferred content types of its
 * response: the Accept header elements ordered by specificity and q-value
 * (RFC 2616 section 14.1), overridden by a "format" query value for
 * browser requests and falling back to the request's own Content-Type.
 */
module HttpHelper {
  import opened Common

  /**
   * A parsed Content-Type or Accept element: its media type "type/subtype"
   * split at the '/' into top-level type and subtype, and its parameters.
   * System.Net.Mime only produces values with a non-empty type and subtype,
   * so the first character of each always exists.
   */
  datatype ContentType = ContentType(topLevelType: string, subtype: string, parameters: seq<(string, string)>)

  /** new ContentType(): application/octet-stream (RFC 2616 section 7.2.1). */
  const DefaultContentType := ContentType("application", "octet-stream", [])

  /** HTTP 415 Unsupported Media Type. */
  const UnsupportedMediaType := 415

  /**
   * What the model needs of an incoming request. `isBrowserRequest` is None
   * when the browser test itself throws an HttpException (an unrecognised
   * content type). `parse` stands for the ContentType constructor: None
   * where it throws FormatException.
   */
  datatype Request = Request(
    isBrowserRequest: Option<bool>,
    formatQueryValue: Option<string>,
    acceptTypes: Option<seq<string>>,
    contentType: Option<string>)

  // ---------------------------------------------------------------------
  // The q-value of an element
  // ---------------------------------------------------------------------

  predicate IsDigit(c: char) { '0' <= c <= '9' }

  /**
   * Text decimal.TryParse accepts with NumberStyles.AllowDecimalPoint: digits
   * with at most one '.', and at least one digit; no sign and no blanks.
   */
  predicate IsDecimalText(s: string)
  {
    && (forall i :: 0 <= i < |s| ==> IsDigit(s[i]) || s[i] == '.')
    && (exists i :: 0 <= i < |s| && IsDigit(s[i]))
    && (forall i, j :: 0 <= i < j < |s| && s[i] == '.' ==> s[j] != '.')
  }

  function Pow10(k: nat): (r: nat)
    ensures r >= 1
  {
    if k == 0 then 1 else 10 * Pow10(k - 1)
  }

  /** The digits of s (ignoring '.') read as a natural number. */
  function DigitsValue(s: string): nat
  {
    if s == [] then 0
    else if IsDigit(s[|s| - 1]) then 10 * DigitsValue(s[..|s| - 1]) + (s[|s| - 1] as int - '0' as int)
    else DigitsValue(s[..|s| - 1])
  }

  /** The number of characters after the decimal point. */
  function FractionDigits(s: string): nat
  {
    var dot := IndexOfChar(s, '.');
    if dot < 0 then 0 else |s| - dot - 1
  }

  /** The value decimal.TryParse produces, or None when it fails. */
  function ParseDecimal(s: string): (r: Option<real>)
    ensures r.Some? <==> IsDecimalText(s)
    ensures r.Some? ==> r.value >= 0.0
  {
    if IsDecimalText(s) then Some(DigitsValue(s) as real / Pow10(FractionDigits(s)) as real) else None
  }

  /**
   * The quality factor of an element: the value of its "q" parameter (name
   * compared ignoring case) when that parses and is at most 1, else 1.
   */
  function QualityFactor(parameters: seq<(string, string)>): (r: real)
    ensures 0.0 <= r <= 1.0
    ensures (forall i :: 0 <= i < |parameters| ==> !EqualsIgnoreCase("q", parameters[i].0)) ==> r == 1.0
    ensures (|parameters| > 0 && EqualsIgnoreCase("q", parameters[0].0)
             && ParseDecimal(parameters[0].1).Some? && ParseDecimal(parameters[0].1).value <= 1.0)
            ==> r == ParseDecimal(parameters[0].1).value
  {
    if parameters == [] then 1.0
    else
      var (key, value) := parameters[0];
      var q := ParseDecimal(value);
      if EqualsIgnoreCase("q", key) && q.Some? && q.value <= 1.0 then q.value
      else QualityFactor(parameters[1..])
  }

  /** The element has a parameter other than "q". */
  predicate HasNonQParameter(parameters: seq<(string, string)>)
  {
    exists i :: 0 <= i < |parameters| && !EqualsIgnoreCase("q", parameters[i].0)
  }

  /** The number of parameters other than "q". */
  function NonQCount(parameters: seq<(string, string)>): (n: nat)
    ensures n <= |parameters|
  {
    if parameters == [] then 0
    else NonQCount(parameters[..|parameters| - 1]) + (if EqualsIgnoreCase("q", parameters[|parameters| - 1].0) then 0 else 1)
  }

  lemma {:induction false} NonQCountPositive(parameters: seq<(string, string)>)
    ensures NonQCount(parameters) > 0 <==> HasNonQParameter(parameters)
  {
    if parameters != [] {
      var init := parameters[..|parameters| - 1];
      NonQCountPositive(init);
      assert forall i :: 0 <= i < |init| ==> init[i] == parameters[i];
    }
  }

  /** Counts the parameters other than "q" and reports whether there are any. */
  method HasParameters(ct: ContentType) returns (r: bool)
    ensures r <==> HasNonQParameter(ct.parameters)
  {
    var number := 0;
    for i := 0 to |ct.parameters|
      invariant number == NonQCount(ct.parameters[..i])
    {
      assert ct.parameters[..i + 1][..i] == ct.parameters[..i];
      if !EqualsIgnoreCase("q", ct.parameters[i].0) {
        number := number + 1;
      }
    }
    assert ct.parameters[..|ct.parameters|] == ct.parameters;
    NonQCountPositive(ct.parameters);
    r := number > 0;
  }

  // ---------------------------------------------------------------------
  // AcceptHeaderElementComparer
  // ---------------------------------------------------------------------

  /**
   * The Accept element order: a more specific element compares greater
   * (sorts later) only as a tie-breaker among elements of the same type; a
   * wildcard range compares greater than a concrete type; otherwise the
   * higher quality sorts first.
   */
  function Compare(x: ContentType, y: ContentType): (r: int)
    ensures -1 <= r <= 1
    ensures (EqualsIgnoreCase(x.topLevelType, y.topLevelType) && EqualsIgnoreCase(x.subtype, y.subtype)
             && HasNonQParameter(x.parameters) && !HasNonQParameter(y.parameters)) ==> r == 1
    ensures (EqualsIgnoreCase(x.topLevelType, y.topLevelType) && !EqualsIgnoreCase(x.subtype, y.subtype)
             && x.subtype == "*") ==> r == 1
    ensures (!EqualsIgnoreCase(x.topLevelType, y.topLevelType) && x.topLevelType == "*") ==> r == 1
    ensures (!EqualsIgnoreCase(x.topLevelType, y.topLevelType) && x.topLevelType != "*" && y.topLevelType != "*")
            ==> (r == 1 <==> QualityFactor(x.parameters) < QualityFactor(y.parameters))
  {
    var sameType := EqualsIgnoreCase(x.topLevelType, y.topLevelType);
    var sameSubtype := EqualsIgnoreCase(x.subtype, y.subtype);
    if sameType && sameSubtype && HasNonQParameter(x.parameters) && !HasNonQParameter(y.parameters) then 1
    else if sameType && sameSubtype && !HasNonQParameter(x.parameters) && HasNonQParameter(y.parameters) then -1
    else if sameType && !sameSubtype && x.subtype == "*" then 1
    else if sameType && !sameSubtype && y.subtype == "*" then -1
    else if !sameType && x.topLevelType == "*" then 1
    else if !sameType && y.topLevelType == "*" then -1
    else
      var qx := QualityFactor(x.parameters);
      var qy := QualityFactor(y.parameters);
      if qx < qy then 1 else if qx > qy then -1 else 0
  }

  /** Compare(x, x) is 0, and swapping the arguments negates the result. */
  lemma CompareAntisymmetric(x: ContentType, y: ContentType)
    ensures Compare(x, x) == 0
    ensures Compare(x, y) == -Compare(y, x)
  {
    EqualsIgnoreCaseIsEquivalence(x.topLevelType, y.topLevelType, x.topLevelType);
    EqualsIgnoreCaseIsEquivalence(x.subtype, y.subtype, x.subtype);
  }

  /** "0.d" parses to d tenths. */
  lemma TenthsParse(d: char)
    requires IsDigit(d)
    ensures ParseDecimal(['0', '.', d]) == Some((d as int - '0' as int) as real / 10.0)
  {
    var t := ['0', '.', d];
    assert IsDigit(t[0]);
    assert t[..2] == ['0', '.'] && t[..2][..1] == ['0'] && t[..2][..1][..0] == [];
    assert DigitsValue(['0']) == 0;
    assert DigitsValue(['0', '.']) == 0;
    assert DigitsValue(t) == d as int - '0' as int;
    assert IsDecimalText(t);
    assert IndexOfChar(t, '.') == 1;
    assert FractionDigits(t) == 1;
    assert Pow10(1) == 10;
  }

  /**
   * The order is not transitive: text/html;level=1 sorts after text/html;q=0.1
   * (more parameters), which sorts after application/json;q=0.5 (lower
   * quality), which sorts after text/html;level=1 (lower quality).
   */
  lemma CompareIsNotTransitive(a: ContentType, b: ContentType, c: ContentType)
    requires a == ContentType("text", "html", [("level", "1")])
    requires b == ContentType("text", "html", [("q", "0.1")])
    requires c == ContentType("application", "json", [("q", "0.5")])
    ensures Compare(a, b) > 0 && Compare(b, c) > 0 && Compare(c, a) > 0
  {
    TenthsParse('1');
    TenthsParse('5');
    assert QualityFactor(b.parameters) == 0.1;
    assert QualityFactor(c.parameters) == 0.5;
    assert HasNonQParameter(a.parameters) by { assert !EqualsIgnoreCase("q", a.parameters[0].0); }
    assert !HasNonQParameter(b.parameters);
    assert QualityFactor(a.parameters) == 1.0;
  }

  // ---------------------------------------------------------------------
  // Sorting (List<T>.Sort with the comparer)
  // ---------------------------------------------------------------------

  /** Inserts x before the first element it does not compare greater than. */
  function Insert(x: ContentType, s: seq<ContentType>): (r: seq<ContentType>)
    ensures multiset(r) == multiset(s) + multiset{x}
    ensures |r| > 0 && (r[0] == x || (s != [] && r[0] == s[0]))
  {
    if s == [] || Compare(x, s[0]) <= 0 then [x] + s
    else
      assert s == [s[0]] + s[1..];
      [s[0]] + Insert(x, s[1..])
  }

  /** The Accept elements in comparer order. */
  function SortAccept(s: seq<ContentType>): (r: seq<ContentType>)
    ensures multiset(r) == multiset(s)
  {
    if s == [] then []
    else
      assert s == [s[0]] + s[1..];
      Insert(s[0], SortAccept(s[1..]))
  }

  /** No element compares greater than its successor. */
  predicate LocallySorted(s: seq<ContentType>)
  {
    forall i :: 0 <= i < |s| - 1 ==> Compare(s[i], s[i + 1]) <= 0
  }

  lemma {:induction false} InsertKeepsLocallySorted(x: ContentType, s: seq<ContentType>)
    requires LocallySorted(s)
    ensures LocallySorted(Insert(x, s))
    decreases s
  {
    if s == [] || Compare(x, s[0]) <= 0 {
    } else {
      CompareAntisymmetric(x, s[0]);
      InsertKeepsLocallySorted(x, s[1..]);
    }
  }

  /**
   * The sorted list is a permutation of its input in which every element
   * is not greater than the next. Because the comparer is not transitive
   * this need not make the whole list ordered.
   */
  lemma {:induction false} SortAcceptIsLocallySorted(s: seq<ContentType>)
    ensures multiset(SortAccept(s)) == multiset(s)
    ensures LocallySorted(SortAccept(s))
    decreases s
  {
    if s != [] {
      SortAcceptIsLocallySorted(s[1..]);
      InsertKeepsLocallySorted(s[0], SortAccept(s[1..]));
    }
  }

  // ---------------------------------------------------------------------
  // Request and response formats
  // ---------------------------------------------------------------------

  /** The elements that parse, in header order; the others are dropped. */
  function ParsedElements(parse: string -> Option<ContentType>, elements: seq<string>): (r: seq<ContentType>)
    ensures |r| <= |elements|
    ensures forall c :: c in r ==> exists e :: e in elements && parse(e) == Some(c)
    ensures forall e :: e in elements && parse(e).Some? ==> parse(e).value in r
  {
    if elements == [] then []
    else
      var init := elements[..|elements| - 1];
      var last := elements[|elements| - 1];
      assert elements == init + [last];
      ParsedElements(parse, init) + (if parse(last).Some? then [parse(last).value] else [])
  }

  /** Parses every Accept element, skipping malformed ones, and sorts the result with the comparer. */
  method GetAcceptHeaderElements(parse: string -> Option<ContentType>, acceptHeaderElements: seq<string>)
    returns (r: seq<ContentType>)
    ensures r == SortAccept(ParsedElements(parse, acceptHeaderElements))
  {
    var contentTypeList: seq<ContentType> := [];
    for i := 0 to |acceptHeaderElements|
      invariant contentTypeList == ParsedElements(parse, acceptHeaderElements[..i])
    {
      assert acceptHeaderElements[..i + 1][..i] == acceptHeaderElements[..i];
      var contentType := parse(acceptHeaderElements[i]);
      if contentType.Some? {
        contentTypeList := contentTypeList + [contentType.value];
      }
    }
    assert acceptHeaderElements[..|acceptHeaderElements|] == acceptHeaderElements;
    r := SortAccept(contentTypeList);
  }

  /**
   * The Content-Type of the request: the parsed header, HTTP 415 when it
   * does not parse, and application/octet-stream when it is absent or empty.
   */
  function GetRequestFormat(parse: string -> Option<ContentType>, request: Request): (r: Result<ContentType>)
    ensures r.Err? <==> !IsNullOrEmpty(request.contentType) && parse(request.contentType.value).None?
    ensures r.Err? ==> r.error == HttpError(UnsupportedMediaType)
    ensures IsNullOrEmpty(request.contentType) ==> r == Ok(DefaultContentType)
  {
    if !IsNullOrEmpty(request.contentType) then
      match parse(request.contentType.value)
        case Some(ct) => Ok(ct)
        case None => Err(HttpError(UnsupportedMediaType))
    else Ok(DefaultContentType)
  }

  /**
   * The browser "format" override: a browser request (a failing browser
   * test counts as not one) whose non-empty "format" query value parses.
   */
  function TryGetFromUri(parse: string -> Option<ContentType>, request: Request): (r: Option<ContentType>)
    ensures r.Some? <==> (request.isBrowserRequest == Some(true) && !IsNullOrEmpty(request.formatQueryValue)
                          && parse(request.formatQueryValue.value).Some?)
    ensures r.Some? ==> r == parse(request.formatQueryValue.value)
  {
    if request.isBrowserRequest == Some(true) && !IsNullOrEmpty(request.formatQueryValue) then
      parse(request.formatQueryValue.value)
    else None
  }

  /**
   * The preferred response content types, tried in order: the browser
   * override alone; otherwise the Accept elements that parse, sorted;
   * otherwise the request's own content type, whose failure to parse is the
   * only error.
   */
  function GetResponseFormats(parse: string -> Option<ContentType>, request: Request): (r: Result<seq<ContentType>>)
    ensures r.Ok? && TryGetFromUri(parse, request).Some? ==> r.value == [TryGetFromUri(parse, request).value]
    ensures (r.Ok? && TryGetFromUri(parse, request).None? && request.acceptTypes.Some? && |request.acceptTypes.value| > 0)
            ==> multiset(r.value) == multiset(ParsedElements(parse, request.acceptTypes.value))
    ensures r.Err? <==> (&& TryGetFromUri(parse, request).None?
                         && (request.acceptTypes.None? || |request.acceptTypes.value| == 0)
                         && GetRequestFormat(parse, request).Err?)
    ensures r.Err? ==> r.error == HttpError(UnsupportedMediaType)
  {
    var fromUri := TryGetFromUri(parse, request);
    if fromUri.Some? then Ok([fromUri.value])
    else if request.acceptTypes.Some? && |request.acceptTypes.value| > 0 then
      Ok(SortAccept(ParsedElements(parse, request.acceptTypes.value)))
    else
      var contentType :- GetRequestFormat(parse, request);
      Ok([contentType])
  }

  /** Accept elements come out locally sorted by the comparer. */
  lemma AcceptFormatsAreLocallySorted(parse: string -> Option<ContentType>, request: Request)
    requires TryGetFromUri(parse, request).None? && request.acceptTypes.Some? && |request.acceptTypes.value| > 0
    ensures GetResponseFormats(parse, request).Ok?
    ensures LocallySorted(GetResponseFormats(parse, request).value)
  {
    SortAcceptIsLocallySorted(ParsedElements(parse, request.acceptTypes.value));
  }

  /**
   * Once an Accept header is present there is no fallback: when none of its
   * elements parses the list of response formats is empty.
   */
  lemma UnparseableAcceptGivesNoFormats(parse: string -> Option<ContentType>, request: Request)
    requires TryGetFromUri(parse, request).None? && request.acceptTypes.Some? && |request.acceptTypes.value| > 0
    requires forall e :: e in request.acceptTypes.value ==> parse(e).None?
    ensures GetResponseFormats(parse, request) == Ok([])
  {
    NothingParses(parse, request.acceptTypes.value);
  }

  lemma {:induction false} NothingParses(parse: string -> Option<ContentType>, elements: seq<string>)
    requires forall e :: e in elements ==> parse(e).None?
    ensures ParsedElements(parse, elements) == []
  {
    if elements != [] {
      NothingParses(parse, elements[..|elements| - 1]);
    }
  }
}
