/**
 * A mapping that selects a media type by the extension of the last path
 * segment of the request URI, compared ordinally.
 */
module UriPathExtensionMapping {
  import opened Common
  import opened MediaTypes
  import MediaTypeMapping

  datatype UriPathExtensionMapping = UriPathExtensionMapping(uriPathExtension: string, mediaType: MediaTypeHeaderValue)

  /**
   * The text after the first '.' of the last path segment; null when there
   * are no segments, no '.', or the '.' ends the segment. A null URI is an
   * InvalidOperationException.
   */
  function GetUriPathExtensionOrNull(uriSegments: Option<seq<string>>): (r: Result<Option<string>>)
    ensures uriSegments.None? <==> r == Err(InvalidOperation)
    ensures r.Ok? && r.value.Some? ==> (
      && uriSegments.value != []
      && var last := uriSegments.value[|uriSegments.value| - 1];
         (exists k :: (0 <= k < |last| - 1 && last[k] == '.' && !ContainsChar(last[..k], '.') && r.value.value == last[k + 1..])))
    ensures r.Ok? && r.value.None? ==> (
      || uriSegments.value == []
      || var last := uriSegments.value[|uriSegments.value| - 1];
         (forall k :: 0 <= k < |last| - 1 ==> last[k] != '.'))
  {
    if uriSegments.None? then Err(InvalidOperation)
    else
      var segments := uriSegments.value;
      if |segments| > 0 then
        var last := segments[|segments| - 1];
        var startIndex := IndexOfChar(last, '.') + 1;
        if 0 < startIndex < |last| then
          assert !ContainsChar(last[..startIndex - 1], '.');
          Ok(Some(last[startIndex..]))
        else Ok(None)
      else Ok(None)
  }

  /** "a.tar.gz" has the extension "tar.gz": the first '.' is used. */
  lemma FirstDotIsUsed()
    ensures GetUriPathExtensionOrNull(Some(["/", "a.tar.gz"])) == Ok(Some("tar.gz"))
  {
    assert IndexOfChar("a.tar.gz", '.') == 1;
  }

  /** Initialize: null or blank is rejected; the stored extension is trimmed and has its leading dots removed. */
  function Initialize(uriPathExtension: Option<string>): (r: Result<string>)
    ensures IsNullOrWhiteSpace(uriPathExtension) <==> r == Err(ArgumentNull("uriPathExtension"))
    ensures r.Ok? ==> r.value == TrimStartWhere(Trim(uriPathExtension.value), c => c == '.')
    ensures r.Ok? && r.value != [] ==> r.value[0] != '.'
  {
    if IsNullOrWhiteSpace(uriPathExtension) then Err(ArgumentNull("uriPathExtension"))
    else Ok(TrimStartWhere(Trim(uriPathExtension.value), c => c == '.'))
  }

  function New(uriPathExtension: Option<string>, mediaType: Option<MediaTypeHeaderValue>): (r: Result<UriPathExtensionMapping>)
    ensures mediaType.None? ==> r == Err(ArgumentNull("mediaType"))
    ensures mediaType.Some? ==> match Initialize(uriPathExtension)
      case Ok(e) => r == Ok(UriPathExtensionMapping(e, mediaType.value))
      case Err(x) => r == Err(x)
  {
    var m :- MediaTypeMapping.MediaTypeArgument(mediaType);
    var e :- Initialize(uriPathExtension);
    Ok(UriPathExtensionMapping(e, m))
  }

  function NewFromString(uriPathExtension: Option<string>, mediaType: Option<string>): (r: Result<UriPathExtensionMapping>)
    ensures MediaTypeMapping.MediaTypeStringArgument(mediaType).Err? ==> r.Err? && r.error == MediaTypeMapping.MediaTypeStringArgument(mediaType).error
    ensures r.Ok? ==> Initialize(uriPathExtension) == Ok(r.value.uriPathExtension)
  {
    var m :- MediaTypeMapping.MediaTypeStringArgument(mediaType);
    var e :- Initialize(uriPathExtension);
    Ok(UriPathExtensionMapping(e, m))
  }

  /** 1.0 when the request URI's extension equals the stored one ordinally, else 0.0. */
  function OnTryMatchRequest(m: UriPathExtensionMapping, request: Request): (r: Result<real>)
    ensures request.uriSegments.None? ==> r == Err(InvalidOperation)
    ensures r.Ok? ==> (r.value == 1.0 <==> GetUriPathExtensionOrNull(request.uriSegments) == Ok(Some(m.uriPathExtension)))
    ensures r.Ok? ==> r.value == 0.0 || r.value == 1.0
  {
    var extension :- GetUriPathExtensionOrNull(request.uriSegments);
    if extension != Some(m.uriPathExtension) then Ok(0.0) else Ok(1.0)
  }

  /** The response variant reads the URI of the request the response answers. */
  function OnTryMatchResponse(m: UriPathExtensionMapping, response: Response): (r: Result<real>)
    requires response.requestMessage.Some?
    ensures r == OnTryMatchRequest(m, response.requestMessage.value)
  {
    var extension :- GetUriPathExtensionOrNull(response.requestMessage.value.uriSegments);
    if extension != Some(m.uriPathExtension) then Ok(0.0) else Ok(1.0)
  }
}
