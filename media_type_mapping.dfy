/**
 * The guards every media type mapping applies on construction: the media
 * type it maps to must be given, or given as a non-blank parseable string.
 */
module MediaTypeMapping {
  import opened Common
  import opened MediaTypes

  /** The constructor taking a media type value: null is rejected. */
  function MediaTypeArgument(mediaType: Option<MediaTypeHeaderValue>): (r: Result<MediaTypeHeaderValue>)
    ensures mediaType.None? <==> r == Err(ArgumentNull("mediaType"))
    ensures mediaType.Some? ==> r == Ok(mediaType.value)
  {
    if mediaType.None? then Err(ArgumentNull("mediaType")) else Ok(mediaType.value)
  }

  /** The constructor taking a string: null or blank is rejected, anything else is parsed. */
  function MediaTypeStringArgument(mediaType: Option<string>): (r: Result<MediaTypeHeaderValue>)
    ensures IsNullOrWhiteSpace(mediaType) ==> r == Err(ArgumentNull("mediaType"))
    ensures !IsNullOrWhiteSpace(mediaType) ==> r == ParseMediaType(mediaType.value)
    ensures r.Ok? ==> mediaType.Some? && r.value.mediaType == mediaType.value
  {
    if IsNullOrWhiteSpace(mediaType) then Err(ArgumentNull("mediaType")) else ParseMediaType(mediaType.value)
  }
}
