/**
 * The built-in mapping that answers an XMLHttpRequest (a request with the
 * header "x-requested-with: xmlhttprequest" and, as its sole Accept value,
 * the range of all media types) with JSON.
 */
module XhrRequestHeaderMapping {
  import opened Common
  import opened MediaTypes
  import StringComparisonHelper
  import RequestHeaderMapping

  /** The settings the parameterless constructor passes to its base. */
  const Mapping := RequestHeaderMapping.RequestHeaderMapping(
    "x-requested-with", "xmlhttprequest", StringComparisonHelper.OrdinalIgnoreCase, true, ApplicationJson)

  lemma MappingIsValid()
    ensures RequestHeaderMapping.Valid(Mapping)
    ensures RequestHeaderMapping.Initialize(Some("x-requested-with"), Some("xmlhttprequest"),
              StringComparisonHelper.OrdinalIgnoreCase, true, ApplicationJson) == Ok(Mapping)
  {
    assert !IsWhiteSpace("x-requested-with"[0]);
    assert !IsWhiteSpace("xmlhttprequest"[0]);
  }

  /** The Accept gate: exactly one Accept value, whose media type is the all-types range, compared ordinally. */
  predicate AcceptsAnything(request: Request)
  {
    |request.acceptHeaders| == 1 && request.acceptHeaders[0].mediaType == "*/*"
  }

  /**
   * OnTryMatchMediaType for a request: 0.0 unless the Accept gate passes,
   * then the corrected header test of the base mapping.
   */
  function OnTryMatchRequest(request: Request): (r: real)
    ensures r == 0.0 || r == 1.0
    ensures r == 1.0 <==> (
      && AcceptsAnything(request)
      && "x-requested-with" in request.headers
      && request.headers["x-requested-with"].Some?
      && exists i :: (0 <= i < |request.headers["x-requested-with"].value|
                      && ContainsSubstring(request.headers["x-requested-with"].value[i], "xmlhttprequest", true)))
  {
    if |request.acceptHeaders| != 1 || request.acceptHeaders[0].mediaType != "*/*" then 0.0
    else RequestHeaderMapping.OnTryMatchRequest(Mapping, request)
  }

  /** A request with a second Accept value is never treated as an XMLHttpRequest. */
  lemma {:induction false} SecondAcceptValueDisablesMatch(request: Request, extra: MediaTypeHeaderValue)
    requires |request.acceptHeaders| >= 1
    ensures OnTryMatchRequest(request.(acceptHeaders := request.acceptHeaders + [extra])) == 0.0
  {
    var r := request.(acceptHeaders := request.acceptHeaders + [extra]);
    assert |r.acceptHeaders| >= 2;
  }

  /**
   * A request whose only Accept value is the all-types range (what a client
   * sends when it names no preference) reaches the header lookup: without
   * the x-requested-with header the code as written throws there, while the
   * corrected test scores 0.0.
   */
  lemma AnyAcceptWithoutHeaderThrows(request: Request)
    requires AcceptsAnything(request) && "x-requested-with" !in request.headers
    ensures RequestHeaderMapping.MatchHeaderValueAsWritten(request, Mapping.headerName, Mapping.headerValue,
              Mapping.headerValueComparison, Mapping.isValueSubstring) == Err(KeyNotFound)
    ensures OnTryMatchRequest(request) == 0.0
  {
  }

  /** OnTryMatchMediaType for a response: the answered request, or 0.0 when it is unknown. */
  function OnTryMatchResponse(response: Response): (r: real)
    ensures response.requestMessage.None? ==> r == 0.0
    ensures response.requestMessage.Some? ==> r == OnTryMatchRequest(response.requestMessage.value)
  {
    match response.requestMessage
      case None => 0.0
      case Some(request) => OnTryMatchRequest(request)
  }
}
