/**
 * The outcome of matching one formatter against a request: the formatter,
 * the media type it would write, the quality of the match and how it was
 * found. The formatter type is a parameter, so that the formatter module
 * can build matches of its own formatters.
 */
module MediaTypeFormatterMatch {
  import opened Common
  import opened MediaTypes

  /** Quality of a full match, and of no match. */
  const Match: real := 1.0
  const NoMatch: real := 0.0

  /** How a match was found (the members of the ranking enumeration, in declaration order). */
  datatype MediaTypeFormatterMatchRanking =
    | NoRanking
    | MatchOnCanWriteType
    | MatchOnRequestAcceptHeaderLiteral
    | MatchOnRequestAcceptHeaderSubtypeMediaRange
    | MatchOnRequestAcceptHeaderAllMediaRange
    | MatchOnRequestWithMediaTypeMapping
    | MatchOnRequestMediaType

  datatype MediaTypeFormatterMatch<F> = MediaTypeFormatterMatch(
    formatter: Option<F>,
    mediaType: Option<MediaTypeHeaderValue>,
    quality: real,
    ranking: MediaTypeFormatterMatchRanking)

  /**
   * The two-argument constructor: no formatter and no ranking; the media
   * type is copied as given, null included.
   */
  function WithQuality<F>(mediaType: Option<MediaTypeHeaderValue>, quality: real): (r: MediaTypeFormatterMatch<F>)
    ensures r.formatter.None? && r.ranking == NoRanking
    ensures r.mediaType == mediaType && r.quality == quality
  {
    MediaTypeFormatterMatch(None, mediaType, quality, NoRanking)
  }

  /** The one-argument constructor: a full match. */
  function Full<F>(mediaType: Option<MediaTypeHeaderValue>): (r: MediaTypeFormatterMatch<F>)
    ensures r.quality == Match && r.mediaType == mediaType && r.formatter.None?
  {
    WithQuality(mediaType, 1.0)
  }

  /**
   * The four-argument constructor: the formatter is required; a missing
   * media type becomes application/octet-stream and a missing quality a
   * full match.
   */
  function WithFormatter<F>(formatter: Option<F>, mediaType: Option<MediaTypeHeaderValue>, quality: Option<real>,
                  ranking: MediaTypeFormatterMatchRanking): (r: Result<MediaTypeFormatterMatch<F>>)
    ensures formatter.None? <==> r == Err(ArgumentNull("formatter"))
    ensures r.Ok? ==> (
      && r.value.formatter == formatter
      && r.value.mediaType == Some(mediaType.GetOr(ApplicationOctetStream))
      && r.value.quality == quality.GetOr(Match)
      && r.value.ranking == ranking)
  {
    if formatter.None? then Err(ArgumentNull("formatter"))
    else Ok(MediaTypeFormatterMatch(formatter, Some(mediaType.GetOr(ApplicationOctetStream)), quality.GetOr(Match), ranking))
  }
}
