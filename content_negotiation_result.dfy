/**
 * The outcome of content negotiation: the formatter chosen (never null)
 * and the media type it writes.
 */
module ContentNegotiationResult {
  import opened Common
  import opened MediaTypes
  import opened MediaTypeFormatter

  class ContentNegotiationResult {
    var formatter: MediaTypeFormatter
    var mediaType: Option<MediaTypeHeaderValue>

    constructor (formatter: MediaTypeFormatter, mediaType: Option<MediaTypeHeaderValue>)
      ensures this.formatter == formatter && this.mediaType == mediaType
    {
      this.formatter := formatter;
      this.mediaType := mediaType;
    }

    /** The Formatter setter: null is rejected and the formatter is kept. */
    method SetFormatter(value: Option<MediaTypeFormatter>) returns (error: Option<Exception>)
      modifies this
      ensures value.None? ==> error == Some(ArgumentNull("value")) && formatter == old(formatter)
      ensures value.Some? ==> error.None? && formatter == value.value
      ensures mediaType == old(mediaType)
    {
      if value.None? {
        return Some(ArgumentNull("value"));
      }
      formatter := value.value;
      return None;
    }

    /** The MediaType setter, which accepts null. */
    method SetMediaType(value: Option<MediaTypeHeaderValue>)
      modifies this
      ensures mediaType == value && formatter == old(formatter)
    {
      mediaType := value;
    }
  }

  /** The constructor's guard: a null formatter is an ArgumentNullException. */
  method New(formatter: Option<MediaTypeFormatter>, mediaType: Option<MediaTypeHeaderValue>)
    returns (r: Result<ContentNegotiationResult>)
    ensures formatter.None? ==> r == Err(ArgumentNull("formatter"))
    ensures formatter.Some? ==> r.Ok? && fresh(r.value) && r.value.formatter == formatter.value && r.value.mediaType == mediaType
  {
    if formatter.None? {
      return Err(ArgumentNull("formatter"));
    }
    var result := new ContentNegotiationResult(formatter.value, mediaType);
    return Ok(result);
  }
}
