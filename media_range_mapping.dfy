/**
 * A mapping that selects a media type when the request's Accept header
 * names a given media range.
 */
module MediaRangeMapping {
  import opened Common
  import opened MediaTypes
  import MediaTypeMapping
  import Comparer = MediaTypeHeaderValueEqualityComparer

  datatype MediaRangeMapping = MediaRangeMapping(mediaRange: MediaTypeHeaderValue, mediaType: MediaTypeHeaderValue)

  /** The constructor taking values: the base guard on the media type, then a null range is rejected. */
  function New(mediaRange: Option<MediaTypeHeaderValue>, mediaType: Option<MediaTypeHeaderValue>): (r: Result<MediaRangeMapping>)
    ensures mediaType.None? ==> r == Err(ArgumentNull("mediaType"))
    ensures mediaType.Some? && mediaRange.None? ==> r == Err(ArgumentNull("mediaRange"))
    ensures mediaType.Some? && mediaRange.Some? ==> r == Ok(MediaRangeMapping(mediaRange.value, mediaType.value))
  {
    var mt :- MediaTypeMapping.MediaTypeArgument(mediaType);
    if mediaRange.None? then Err(ArgumentNull("mediaRange")) else Ok(MediaRangeMapping(mediaRange.value, mt))
  }

  /** The constructor taking strings: the base guard, then a blank range is rejected, then the range is parsed. */
  function NewFromString(mediaRange: Option<string>, mediaType: Option<string>): (r: Result<MediaRangeMapping>)
    ensures IsNullOrWhiteSpace(mediaType) ==> r == Err(ArgumentNull("mediaType"))
    ensures !IsNullOrWhiteSpace(mediaType) && ParseMediaType(mediaType.value).Ok? && IsNullOrWhiteSpace(mediaRange)
            ==> r == Err(ArgumentNull("mediaRange"))
    ensures r.Ok? ==> (
      && mediaRange.Some? && mediaType.Some?
      && r.value.mediaRange.mediaType == mediaRange.value && r.value.mediaType.mediaType == mediaType.value)
  {
    var mt :- MediaTypeMapping.MediaTypeStringArgument(mediaType);
    if IsNullOrWhiteSpace(mediaRange) then Err(ArgumentNull("mediaRange"))
    else
      var range :- ParseMediaType(mediaRange.value);
      Ok(MediaRangeMapping(range, mt))
  }

  /** A request alone never matches a media range. */
  function OnTryMatchRequest(m: MediaRangeMapping, request: Request): (r: real)
    ensures r == 0.0
  {
    0.0
  }

  /** The index of the first Accept value equal to the range, if any. */
  function FirstEqual(range: MediaTypeHeaderValue, accept: seq<MediaTypeHeaderValue>): (r: Option<nat>)
    ensures r.Some? ==> (
      && r.value < |accept| && Comparer.Equals(range, accept[r.value])
      && forall j :: 0 <= j < r.value ==> !Comparer.Equals(range, accept[j]))
    ensures r.None? ==> forall j :: 0 <= j < |accept| ==> !Comparer.Equals(range, accept[j])
  {
    if |accept| == 0 then None
    else if Comparer.Equals(range, accept[0]) then Some(0)
    else match FirstEqual(range, accept[1..])
      case None => None
      case Some(k) => Some(k + 1)
  }

  /**
   * OnTryMatchMediaType for a response: the quality of the first Accept
   * value equal to the range (1.0 when it has none), else 0.0.
   */
  function OnTryMatchResponse(m: MediaRangeMapping, response: Response): (r: real)
    requires response.requestMessage.Some?
    ensures var accept := response.requestMessage.value.acceptHeaders;
      match FirstEqual(m.mediaRange, accept)
        case None => r == 0.0
        case Some(k) => r == accept[k].quality.GetOr(1.0)
  {
    var accept := response.requestMessage.value.acceptHeaders;
    match FirstEqual(m.mediaRange, accept)
      case None => 0.0
      case Some(k) => accept[k].quality.GetOr(1.0)
  }

  /** An Accept value that is the range itself, placed first, decides the quality. */
  lemma RangeListedFirstDecides(m: MediaRangeMapping, request: Request)
    ensures OnTryMatchResponse(m, Response(Some(request.(acceptHeaders := [m.mediaRange] + request.acceptHeaders))))
            == m.mediaRange.quality.GetOr(1.0)
  {
    Comparer.EqualsIsReflexive(m.mediaRange);
  }
}
