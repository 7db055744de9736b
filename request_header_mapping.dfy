/**
 * A mapping that selects a media type when a named request header carries
 * a given value (equal to it, or containing it, under a string comparison
 * mode).
 */
module RequestHeaderMapping {
  import opened Common
  import opened MediaTypes
  import StringComparisonHelper
  import MediaTypeMapping

  datatype RequestHeaderMapping = RequestHeaderMapping(
    headerName: string,
    headerValue: string,
    headerValueComparison: int,
    isValueSubstring: bool,
    mediaType: MediaTypeHeaderValue)

  /** The settings a well-formed mapping holds. */
  predicate Valid(m: RequestHeaderMapping)
  {
    && !IsNullOrWhiteSpace(Some(m.headerName))
    && !IsNullOrWhiteSpace(Some(m.headerValue))
    && StringComparisonHelper.IsDefined(m.headerValueComparison)
  }

  /** Initialize: both strings must be non-blank, and the comparison a defined mode. */
  function Initialize(headerName: Option<string>, headerValue: Option<string>, valueComparison: int, isValueSubstring: bool,
                      mediaType: MediaTypeHeaderValue): (r: Result<RequestHeaderMapping>)
    ensures IsNullOrWhiteSpace(headerName) ==> r == Err(ArgumentNull("headerName"))
    ensures !IsNullOrWhiteSpace(headerName) && IsNullOrWhiteSpace(headerValue) ==> r == Err(ArgumentNull("headerValue"))
    ensures (!IsNullOrWhiteSpace(headerName) && !IsNullOrWhiteSpace(headerValue) && !StringComparisonHelper.IsDefined(valueComparison))
            ==> r == Err(InvalidEnumArgument("valueComparison", valueComparison))
    ensures r.Ok? <==> !IsNullOrWhiteSpace(headerName) && !IsNullOrWhiteSpace(headerValue) && StringComparisonHelper.IsDefined(valueComparison)
    ensures r.Ok? ==> Valid(r.value) && r.value == RequestHeaderMapping(headerName.value, headerValue.value, valueComparison, isValueSubstring, mediaType)
  {
    if IsNullOrWhiteSpace(headerName) then Err(ArgumentNull("headerName"))
    else if IsNullOrWhiteSpace(headerValue) then Err(ArgumentNull("headerValue"))
    else match StringComparisonHelper.Validate(valueComparison, "valueComparison")
      case Some(e) => Err(e)
      case None => Ok(RequestHeaderMapping(headerName.value, headerValue.value, valueComparison, isValueSubstring, mediaType))
  }

  /** The constructor taking a media type value; the base guard runs first. */
  function New(headerName: Option<string>, headerValue: Option<string>, valueComparison: int, isValueSubstring: bool,
               mediaType: Option<MediaTypeHeaderValue>): (r: Result<RequestHeaderMapping>)
    ensures mediaType.None? ==> r == Err(ArgumentNull("mediaType"))
    ensures mediaType.Some? ==> r == Initialize(headerName, headerValue, valueComparison, isValueSubstring, mediaType.value)
  {
    var mt :- MediaTypeMapping.MediaTypeArgument(mediaType);
    Initialize(headerName, headerValue, valueComparison, isValueSubstring, mt)
  }

  /** The constructor taking a media type string. */
  function NewFromString(headerName: Option<string>, headerValue: Option<string>, valueComparison: int, isValueSubstring: bool,
                         mediaType: Option<string>): (r: Result<RequestHeaderMapping>)
    ensures IsNullOrWhiteSpace(mediaType) ==> r == Err(ArgumentNull("mediaType"))
    ensures r.Ok? ==> Valid(r.value) && r.value.mediaType.mediaType == mediaType.value
  {
    var mt :- MediaTypeMapping.MediaTypeStringArgument(mediaType);
    Initialize(headerName, headerValue, valueComparison, isValueSubstring, mt)
  }

  /** Whether one header value matches: containing the value, or equal to it. */
  predicate HeaderMatches(header: string, headerValue: string, valueComparison: int, isValueSubstring: bool)
  {
    if isValueSubstring then StringComparisonHelper.StringContains(header, headerValue, valueComparison)
    else StringComparisonHelper.StringEquals(header, headerValue, valueComparison)
  }

  /** The loop over the header's values: 1.0 at the first match, else 0.0. */
  function MatchValues(values: seq<string>, headerValue: string, valueComparison: int, isValueSubstring: bool): (r: real)
    ensures r == 1.0 <==> exists i :: 0 <= i < |values| && HeaderMatches(values[i], headerValue, valueComparison, isValueSubstring)
    ensures r == 0.0 || r == 1.0
  {
    if |values| == 0 then 0.0
    else if HeaderMatches(values[0], headerValue, valueComparison, isValueSubstring) then 1.0
    else
      var rest := MatchValues(values[1..], headerValue, valueComparison, isValueSubstring);
      assert forall i :: 1 <= i < |values| ==> values[i] == values[1..][i - 1];
      rest
  }

  /**
   * MatchHeaderValue as written: the headers are a Dictionary, whose
   * indexer throws KeyNotFoundException for a header the request lacks,
   * although the null test after the lookup shows that "absent" was meant
   * to give 0.0.
   */
  function MatchHeaderValueAsWritten(request: Request, headerName: string, headerValue: string, valueComparison: int,
                                     isValueSubstring: bool): (r: Result<real>)
    ensures headerName !in request.headers <==> r == Err(KeyNotFound)
    ensures r.Ok? ==> r == Ok(MatchHeaderValue(request, headerName, headerValue, valueComparison, isValueSubstring))
  {
    if headerName !in request.headers then Err(KeyNotFound)
    else match request.headers[headerName]
      case None => Ok(0.0)
      case Some(values) => Ok(MatchValues(values, headerValue, valueComparison, isValueSubstring))
  }

  /** MatchHeaderValue as intended: a missing header, like a null value list, matches nothing. */
  function MatchHeaderValue(request: Request, headerName: string, headerValue: string, valueComparison: int,
                            isValueSubstring: bool): (r: real)
    ensures r == 0.0 || r == 1.0
    ensures r == 1.0 <==> (
      && headerName in request.headers
      && request.headers[headerName].Some?
      && exists i :: (0 <= i < |request.headers[headerName].value|
                      && HeaderMatches(request.headers[headerName].value[i], headerValue, valueComparison, isValueSubstring)))
  {
    if headerName !in request.headers then 0.0
    else match request.headers[headerName]
      case None => 0.0
      case Some(values) => MatchValues(values, headerValue, valueComparison, isValueSubstring)
  }

  /** A request without the header: the code as written throws, the intended reading gives 0.0. */
  lemma MissingHeaderThrows()
    ensures var request := Request("GET", None, None, map[], [], None);
      && MatchHeaderValueAsWritten(request, "x-requested-with", "xmlhttprequest", StringComparisonHelper.OrdinalIgnoreCase, true) == Err(KeyNotFound)
      && MatchHeaderValue(request, "x-requested-with", "xmlhttprequest", StringComparisonHelper.OrdinalIgnoreCase, true) == 0.0
  {
  }

  /** A request carrying the header with a matching value matches with quality 1.0. */
  lemma {:induction false} AddedHeaderMatches(request: Request, m: RequestHeaderMapping, values: seq<string>, i: nat)
    requires i < |values| && HeaderMatches(values[i], m.headerValue, m.headerValueComparison, m.isValueSubstring)
    ensures OnTryMatchRequest(m, request.(headers := request.headers[m.headerName := Some(values)])) == 1.0
  {
    var r := request.(headers := request.headers[m.headerName := Some(values)]);
    assert r.headers[m.headerName].value[i] == values[i];
  }

  /**
   * OnTryMatchMediaType for a request, built on the corrected header test
   * MatchHeaderValue: a request without the header scores 0.0 here, where
   * the code as written throws (see MatchHeaderValueAsWritten).
   */
  function OnTryMatchRequest(m: RequestHeaderMapping, request: Request): (r: real)
    ensures r == 0.0 || r == 1.0
    ensures r == 1.0 <==> MatchHeaderValue(request, m.headerName, m.headerValue, m.headerValueComparison, m.isValueSubstring) == 1.0
  {
    MatchHeaderValue(request, m.headerName, m.headerValue, m.headerValueComparison, m.isValueSubstring)
  }

  /**
   * OnTryMatchMediaType for a response: the answered request's headers under
   * the corrected header test, or 0.0 when the request is unknown.
   */
  function OnTryMatchResponse(m: RequestHeaderMapping, response: Response): (r: real)
    ensures response.requestMessage.None? ==> r == 0.0
    ensures response.requestMessage.Some? ==> r == OnTryMatchRequest(m, response.requestMessage.value)
  {
    match response.requestMessage
      case None => 0.0
      case Some(request) => MatchHeaderValue(request, m.headerName, m.headerValue, m.headerValueComparison, m.isValueSubstring)
  }
}
