/**
 * A media type formatter as content negotiation sees it: the media types
 * and character encodings it supports and the mappings registered with it,
 * with the searches the negotiator runs over them.
 */
module MediaTypeFormatter {
  import opened Common
  import opened MediaTypes
  import opened MediaTypeMappings
  import opened MediaTypeFormatterMatch

  /** The concrete formatter classes the default collection holds, and any other. */
  datatype FormatterKind = ViewFormatterKind | JsonFormatterKind | XmlFormatterKind | OtherFormatterKind(name: string)

  /**
   * A formatter: its supported media types (a validated collection, so no
   * nulls), the web names of its supported encodings, and its mappings
   * (a plain collection, which may hold nulls).
   */
  datatype MediaTypeFormatter = MediaTypeFormatter(
    kind: FormatterKind,
    supportedMediaTypes: seq<MediaTypeHeaderValue>,
    supportedEncodings: seq<string>,
    mediaTypeMappings: seq<Option<MediaTypeMapping>>)

  /** The base constructor: three empty collections. */
  function New(kind: FormatterKind): (r: MediaTypeFormatter)
    ensures r.kind == kind
    ensures r.supportedMediaTypes == [] && r.supportedEncodings == [] && r.mediaTypeMappings == []
  {
    MediaTypeFormatter(kind, [], [], [])
  }

  /** The default per-request instance is the formatter itself, once type and request are given. */
  function GetPerRequestFormatterInstance<T>(f: MediaTypeFormatter, objectType: Option<T>, request: Option<Request>,
                                            mediaType: Option<MediaTypeHeaderValue>): (r: Result<MediaTypeFormatter>)
    ensures objectType.None? ==> r == Err(ArgumentNull("type"))
    ensures objectType.Some? && request.None? ==> r == Err(ArgumentNull("request"))
    ensures objectType.Some? && request.Some? ==> r == Ok(f)
  {
    if objectType.None? then Err(ArgumentNull("type"))
    else if request.None? then Err(ArgumentNull("request"))
    else Ok(f)
  }

  /** The first encoding whose web name equals the charset ignoring case (FirstOrDefault). */
  function FirstEncodingNamed(encodings: seq<string>, charset: string): (r: Option<string>)
    ensures r.Some? ==> (exists i :: (0 <= i < |encodings| && encodings[i] == r.value
                                      && (forall j :: 0 <= j < i ==> !EqualsIgnoreCase(charset, encodings[j]))))
    ensures r.Some? ==> EqualsIgnoreCase(charset, r.value)
    ensures r.None? <==> forall j :: 0 <= j < |encodings| ==> !EqualsIgnoreCase(charset, encodings[j])
  {
    if encodings == [] then None
    else if EqualsIgnoreCase(charset, encodings[0]) then Some(encodings[0])
    else
      var r := FirstEncodingNamed(encodings[1..], charset);
      assert forall j :: 1 <= j < |encodings| ==> encodings[j] == encodings[1..][j - 1];
      assert r.Some? ==> (exists i :: (0 <= i < |encodings| && encodings[i] == r.value
                                       && (forall j :: 0 <= j < i ==> !EqualsIgnoreCase(charset, encodings[j])))) by {
        if r.Some? {
          var i :| 0 <= i < |encodings[1..]| && encodings[1..][i] == r.value
                   && (forall j :: 0 <= j < i ==> !EqualsIgnoreCase(charset, encodings[1..][j]));
          assert encodings[i + 1] == r.value;
        }
      }
      r
  }

  /** The non-blank charset of the request's content type, if any. */
  function RequestedCharSet(request: Option<Request>): (r: Option<string>)
    ensures r.Some? ==> !IsNullOrWhiteSpace(r)
  {
    if request.Some? && request.value.contentType.Some? && !IsNullOrWhiteSpace(CharSet(request.value.contentType.value))
    then CharSet(request.value.contentType.value)
    else None
  }

  /**
   * SelectCharacterEncoding: the first supported encoding named by the
   * request's charset, else the first supported encoding; a formatter with
   * no encodings cannot read or write at all.
   */
  function SelectCharacterEncoding(f: MediaTypeFormatter, request: Option<Request>): (r: Result<string>)
    ensures f.supportedEncodings == [] <==> r == Err(InvalidOperation)
    ensures r.Ok? ==> r.value in f.supportedEncodings
    ensures r.Ok? && RequestedCharSet(request).Some? && FirstEncodingNamed(f.supportedEncodings, RequestedCharSet(request).value).Some?
            ==> EqualsIgnoreCase(RequestedCharSet(request).value, r.value)
    ensures r.Ok? && (RequestedCharSet(request).None? || FirstEncodingNamed(f.supportedEncodings, RequestedCharSet(request).value).None?)
            ==> r.value == f.supportedEncodings[0]
  {
    var named := if RequestedCharSet(request).Some? then FirstEncodingNamed(f.supportedEncodings, RequestedCharSet(request).value) else None;
    if named.Some? then Ok(named.value)
    else if f.supportedEncodings != [] then Ok(f.supportedEncodings[0])
    else Err(InvalidOperation)
  }

  /**
   * The first non-null mapping whose test gives a quality above NoMatch; a
   * test that throws ends the search with its exception.
   */
  function FirstMappingMatch(mappings: seq<Option<MediaTypeMapping>>, test: MediaTypeMapping -> Result<real>)
    : (r: Result<Option<(MediaTypeMapping, real)>>)
    ensures r.Ok? && r.value.Some? ==> (exists i :: (
      && 0 <= i < |mappings|
      && mappings[i] == Some(r.value.value.0)
      && test(r.value.value.0) == Ok(r.value.value.1)
      && r.value.value.1 > NoMatch
      && (forall j :: 0 <= j < i && mappings[j].Some? ==> test(mappings[j].value).Ok? && test(mappings[j].value).value <= NoMatch)))
    ensures r == Ok(None) <==> (forall j :: 0 <= j < |mappings| && mappings[j].Some? ==>
                                  test(mappings[j].value).Ok? && test(mappings[j].value).value <= NoMatch)
    ensures r.Err? ==> exists j :: 0 <= j < |mappings| && mappings[j].Some? && test(mappings[j].value) == Err(r.error)
  {
    if mappings == [] then Ok(None)
    else
      assert forall j :: 1 <= j < |mappings| ==> mappings[j] == mappings[1..][j - 1];
      if mappings[0].Some? then
        match test(mappings[0].value)
          case Err(e) => Err(e)
          case Ok(q) =>
            if q > NoMatch then Ok(Some((mappings[0].value, q)))
            else
              var r := FirstMappingMatch(mappings[1..], test);
              ShiftFirstMappingMatch(mappings, test, r);
              r
      else
        var r := FirstMappingMatch(mappings[1..], test);
        ShiftFirstMappingMatch(mappings, test, r);
        r
  }

  /** A match found in the tail, after a head that does not match, is the first match of the whole list. */
  lemma ShiftFirstMappingMatch(mappings: seq<Option<MediaTypeMapping>>, test: MediaTypeMapping -> Result<real>,
                               r: Result<Option<(MediaTypeMapping, real)>>)
    requires mappings != []
    requires mappings[0].Some? ==> test(mappings[0].value).Ok? && test(mappings[0].value).value <= NoMatch
    requires r.Ok? && r.value.Some? ==> (exists i :: (
      && 0 <= i < |mappings[1..]|
      && mappings[1..][i] == Some(r.value.value.0)
      && test(r.value.value.0) == Ok(r.value.value.1)
      && r.value.value.1 > NoMatch
      && (forall j :: 0 <= j < i && mappings[1..][j].Some? ==> test(mappings[1..][j].value).Ok? && test(mappings[1..][j].value).value <= NoMatch)))
    ensures r.Ok? && r.value.Some? ==> (exists i :: (
      && 0 <= i < |mappings|
      && mappings[i] == Some(r.value.value.0)
      && test(r.value.value.0) == Ok(r.value.value.1)
      && r.value.value.1 > NoMatch
      && (forall j :: 0 <= j < i && mappings[j].Some? ==> test(mappings[j].value).Ok? && test(mappings[j].value).value <= NoMatch)))
  {
    if r.Ok? && r.value.Some? {
      var i :| 0 <= i < |mappings[1..]| && mappings[1..][i] == Some(r.value.value.0)
        && test(r.value.value.0) == Ok(r.value.value.1) && r.value.value.1 > NoMatch
        && (forall j :: 0 <= j < i && mappings[1..][j].Some? ==> test(mappings[1..][j].value).Ok? && test(mappings[1..][j].value).value <= NoMatch);
      assert mappings[i + 1] == Some(r.value.value.0);
      assert forall j :: 1 <= j < i + 1 ==> mappings[j] == mappings[1..][j - 1];
    }
  }

  /** TryMatchMediaTypeMapping for a request: a two-argument match for the first mapping that matches. */
  function TryMatchMediaTypeMappingRequest(f: MediaTypeFormatter, request: Option<Request>)
    : (r: Result<Option<MediaTypeFormatterMatch<MediaTypeFormatter>>>)
    ensures match FirstMappingMatch(f.mediaTypeMappings, m => TryMatchMediaTypeRequest(m, request))
      case Err(e) => r == Err(e)
      case Ok(None) => r == Ok(None)
      case Ok(Some((m, q))) => r == Ok(Some(WithQuality(Some(MediaTypeOf(m)), q))) && q > NoMatch
  {
    var found :- FirstMappingMatch(f.mediaTypeMappings, m => TryMatchMediaTypeRequest(m, request));
    match found
      case None => Ok(None)
      case Some((m, q)) => Ok(Some(WithQuality(Some(MediaTypeOf(m)), q)))
  }

  /** TryMatchMediaTypeMapping for a response. */
  function TryMatchMediaTypeMappingResponse(f: MediaTypeFormatter, response: Option<Response>)
    : (r: Result<Option<MediaTypeFormatterMatch<MediaTypeFormatter>>>)
    ensures match FirstMappingMatch(f.mediaTypeMappings, m => TryMatchMediaTypeResponse(m, response))
      case Err(e) => r == Err(e)
      case Ok(None) => r == Ok(None)
      case Ok(Some((m, q))) => r == Ok(Some(WithQuality(Some(MediaTypeOf(m)), q))) && q > NoMatch
  {
    var found :- FirstMappingMatch(f.mediaTypeMappings, m => TryMatchMediaTypeResponse(m, response));
    match found
      case None => Ok(None)
      case Some((m, q)) => Ok(Some(WithQuality(Some(MediaTypeOf(m)), q)))
  }

  /** Only null mappings, or none at all: nothing matches, whatever the request. */
  lemma {:induction false} NullMappingsNeverMatch(f: MediaTypeFormatter, request: Option<Request>)
    requires forall j :: 0 <= j < |f.mediaTypeMappings| ==> f.mediaTypeMappings[j].None?
    ensures TryMatchMediaTypeMappingRequest(f, request) == Ok(None)
  {
    var test := (m: MediaTypeMapping) => TryMatchMediaTypeRequest(m, request);
    assert FirstMappingMatch(f.mediaTypeMappings, test) == Ok(None);
  }

  /** A null request is rejected by the first non-null mapping. */
  lemma {:induction false} NullRequestRejected(f: MediaTypeFormatter, m: MediaTypeMapping)
    requires f.mediaTypeMappings != [] && f.mediaTypeMappings[0] == Some(m)
    ensures TryMatchMediaTypeMappingRequest(f, None) == Err(ArgumentNull("request"))
  {
  }
}
