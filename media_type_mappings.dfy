/**
 * The media type mappings a formatter can hold, and the two entry points
 * every mapping shares: the argument guards, then the mapping's own test.
 */
module MediaTypeMappings {
  import opened Common
  import opened MediaTypes
  import QueryStringMapping
  import UriPathExtensionMapping
  import RequestHeaderMapping
  import XhrRequestHeaderMapping
  import MediaRangeMapping

  datatype MediaTypeMapping =
    | QueryString(queryString: QueryStringMapping.QueryStringMapping)
    | UriPathExtension(uriPathExtension: UriPathExtensionMapping.UriPathExtensionMapping)
    | RequestHeader(requestHeader: RequestHeaderMapping.RequestHeaderMapping)
    | XhrRequestHeader
    | MediaRange(mediaRange: MediaRangeMapping.MediaRangeMapping)

  /** The media type the mapping yields on a match. */
  function MediaTypeOf(m: MediaTypeMapping): MediaTypeHeaderValue
  {
    match m
      case QueryString(q) => q.mediaType
      case UriPathExtension(u) => u.mediaType
      case RequestHeader(h) => h.mediaType
      case XhrRequestHeader => XhrRequestHeaderMapping.Mapping.mediaType
      case MediaRange(g) => g.mediaType
  }

  /** The mapping's own test of a request (its OnTryMatchMediaType override). */
  function OnTryMatchRequest(m: MediaTypeMapping, request: Request): (r: Result<real>)
    ensures r.Err? ==> m.UriPathExtension? && r.error == InvalidOperation
    ensures m.MediaRange? ==> r == Ok(0.0)
  {
    match m
      case QueryString(q) => Ok(QueryStringMapping.OnTryMatchRequest(q, request))
      case UriPathExtension(u) => UriPathExtensionMapping.OnTryMatchRequest(u, request)
      case RequestHeader(h) => Ok(RequestHeaderMapping.OnTryMatchRequest(h, request))
      case XhrRequestHeader => Ok(XhrRequestHeaderMapping.OnTryMatchRequest(request))
      case MediaRange(g) => Ok(MediaRangeMapping.OnTryMatchRequest(g, request))
  }

  /** The mapping's own test of a response that refers to its request. */
  function OnTryMatchResponse(m: MediaTypeMapping, response: Response): (r: Result<real>)
    requires response.requestMessage.Some?
    ensures r.Err? ==> m.UriPathExtension? && r.error == InvalidOperation
    ensures !m.MediaRange? ==> r == OnTryMatchRequest(m, response.requestMessage.value)
  {
    match m
      case QueryString(q) => Ok(QueryStringMapping.OnTryMatchResponse(q, response))
      case UriPathExtension(u) => UriPathExtensionMapping.OnTryMatchResponse(u, response)
      case RequestHeader(h) => Ok(RequestHeaderMapping.OnTryMatchResponse(h, response))
      case XhrRequestHeader => Ok(XhrRequestHeaderMapping.OnTryMatchResponse(response))
      case MediaRange(g) => Ok(MediaRangeMapping.OnTryMatchResponse(g, response))
  }

  /** TryMatchMediaType(request): a null request is rejected. */
  function TryMatchMediaTypeRequest(m: MediaTypeMapping, request: Option<Request>): (r: Result<real>)
    ensures request.None? <==> r == Err(ArgumentNull("request"))
    ensures request.Some? ==> r == OnTryMatchRequest(m, request.value)
  {
    if request.None? then Err(ArgumentNull("request")) else OnTryMatchRequest(m, request.value)
  }

  /**
   * TryMatchMediaType(response): a null response is rejected, and so is one
   * that does not refer to its request.
   */
  function TryMatchMediaTypeResponse(m: MediaTypeMapping, response: Option<Response>): (r: Result<real>)
    ensures response.None? <==> r == Err(ArgumentNull("response"))
    ensures response.Some? && response.value.requestMessage.None? ==> r == Err(InvalidOperation)
    ensures response.Some? && response.value.requestMessage.Some? ==> r == OnTryMatchResponse(m, response.value)
  {
    if response.None? then Err(ArgumentNull("response"))
    else if response.value.requestMessage.None? then Err(InvalidOperation)
    else OnTryMatchResponse(m, response.value)
  }
}
