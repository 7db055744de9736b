/**
 * The action result that carries a value to be written by a formatter: its
 * value, the chosen formatter and media type, the formatter collection it
 * negotiates with, and the content type it announces on the response.
 */
module ObjectContent {
  import opened Common
  import opened ClrTypes
  import opened TypeHelper
  import opened MediaTypes
  import opened MediaTypeFormatter
  import opened MediaTypeFormatterCollection

  /** The text of a parameter list: "; name" or "; name=value" for each. */
  function ParametersText(parameters: seq<NameValue>): string
  {
    if parameters == [] then ""
    else
      var p := parameters[0];
      "; " + p.name + (if p.value.Some? then "=" + p.value.value else "") + ParametersText(parameters[1..])
  }

  /** The string form of a media type header value: the media type followed by its parameters. */
  function HeaderText(m: MediaTypeHeaderValue): (r: string)
    ensures |r| >= |m.mediaType| && r[..|m.mediaType|] == m.mediaType
  {
    m.mediaType + ParametersText(m.parameters)
  }

  /**
   * The header value for a media type name: none for null, an argument
   * error for the empty name, else the parsed "type/subtype".
   */
  function BuildHeaderValue(mediaType: Option<string>): (r: Result<Option<MediaTypeHeaderValue>>)
    ensures mediaType.None? ==> r == Ok(None)
    ensures mediaType == Some("") ==> r == Err(Argument("mediaType"))
    ensures r.Ok? && r.value.Some? ==> mediaType.Some? && r.value.value.mediaType == mediaType.value
                                       && HeaderText(r.value.value) == mediaType.value
  {
    if mediaType.None? then Ok(None)
    else if mediaType.value == "" then Err(Argument("mediaType"))
    else
      var parsed :- ParseMediaType(mediaType.value);
      Ok(Some(parsed))
  }

  /** A media type built from a name always has a non-empty string form. */
  lemma BuiltHeaderTextIsNonEmpty(mediaType: Option<string>)
    requires BuildHeaderValue(mediaType).Ok? && BuildHeaderValue(mediaType).value.Some?
    ensures HeaderText(BuildHeaderValue(mediaType).value.value) != ""
  {
  }

  /**
   * The content type announced on the response: the media type's string
   * form when there is a non-empty one, else the formatter's own content
   * type (dereferencing a null formatter throws).
   */
  function ResponseContentType(mediaType: Option<MediaTypeHeaderValue>, formatter: Option<MediaTypeFormatter>,
                               contentTypeOf: MediaTypeFormatter -> Option<string>): (r: Result<Option<string>>)
    ensures mediaType.Some? && HeaderText(mediaType.value) != "" ==> r == Ok(Some(HeaderText(mediaType.value)))
    ensures (mediaType.None? || HeaderText(mediaType.value) == "") && formatter.None? ==> r == Err(NullReference)
    ensures (mediaType.None? || HeaderText(mediaType.value) == "") && formatter.Some? ==> r == Ok(contentTypeOf(formatter.value))
  {
    if mediaType.Some? && HeaderText(mediaType.value) != "" then Ok(Some(HeaderText(mediaType.value)))
    else if formatter.None? then Err(NullReference)
    else Ok(contentTypeOf(formatter.value))
  }

  class ObjectContent {
    var value: Option<Obj>
    var formatter: Option<MediaTypeFormatter>
    var mediaType: Option<MediaTypeHeaderValue>
    var formatters: MediaTypeFormatterCollection?
    var wasFormatterCollectionSetExplicitly: bool
    var wasMediaTypeSetExplicitly: bool

    /** The constructor after its null check: value, formatter and media type as given. */
    constructor(value: Obj, formatter: Option<MediaTypeFormatter>, mediaType: Option<MediaTypeHeaderValue>)
      ensures this.value == Some(value) && this.formatter == formatter && this.mediaType == mediaType
      ensures formatters == null && !wasFormatterCollectionSetExplicitly && !wasMediaTypeSetExplicitly
    {
      this.value := Some(value);
      this.formatter := formatter;
      this.mediaType := mediaType;
      formatters := null;
      wasFormatterCollectionSetExplicitly := false;
      wasMediaTypeSetExplicitly := false;
    }

    /** The runtime type of the value; a null value throws. */
    function ObjectType(): (r: Result<ClrType>)
      reads this
      ensures value.Some? <==> r.Ok?
      ensures r.Ok? ==> r.value == value.value.runtimeType
    {
      if value.None? then Err(NullReference) else Ok(value.value.runtimeType)
    }

    /** The formatter collection, created with the default formatters on first read and reused after. */
    method Formatters() returns (c: MediaTypeFormatterCollection)
      modifies this
      ensures old(formatters) != null ==> c == old(formatters)
      ensures old(formatters) == null ==> fresh(c) && c.items == CreateDefaultFormatters()
      ensures formatters == c
      ensures value == old(value) && formatter == old(formatter) && mediaType == old(mediaType)
      ensures wasFormatterCollectionSetExplicitly == old(wasFormatterCollectionSetExplicitly)
      ensures wasMediaTypeSetExplicitly == old(wasMediaTypeSetExplicitly)
    {
      if formatters == null {
        formatters := new MediaTypeFormatterCollection.Default();
      }
      c := formatters;
    }

    /** Forgets the negotiated formatter, and the media type unless it was set explicitly. */
    method ResetContentNegotiationResults()
      modifies this
      ensures formatter == None
      ensures mediaType == (if wasMediaTypeSetExplicitly then old(mediaType) else None)
      ensures value == old(value) && formatters == old(formatters)
      ensures wasFormatterCollectionSetExplicitly == old(wasFormatterCollectionSetExplicitly)
      ensures wasMediaTypeSetExplicitly == old(wasMediaTypeSetExplicitly)
    {
      if !wasMediaTypeSetExplicitly {
        mediaType := None;
      }
      formatter := None;
    }

    /** Installs a formatter collection: marks it explicit and resets the negotiation results. */
    method SetFormatters(c: MediaTypeFormatterCollection?)
      modifies this
      ensures formatters == c && wasFormatterCollectionSetExplicitly
      ensures formatter == None
      ensures mediaType == (if wasMediaTypeSetExplicitly then old(mediaType) else None)
      ensures value == old(value) && wasMediaTypeSetExplicitly == old(wasMediaTypeSetExplicitly)
    {
      formatters := c;
      wasFormatterCollectionSetExplicitly := true;
      ResetContentNegotiationResults();
    }

    /** The content type ExecuteResult puts on the response before the formatter writes the value. */
    function ExecuteResultContentType(contentTypeOf: MediaTypeFormatter -> Option<string>): (r: Result<Option<string>>)
      reads this
      ensures formatter.None? && mediaType.None? ==> r == Err(NullReference)
      ensures mediaType.Some? && mediaType.value.mediaType != "" ==> r == Ok(Some(HeaderText(mediaType.value)))
    {
      ResponseContentType(mediaType, formatter, contentTypeOf)
    }
  }

  /** The public constructors: a null value is rejected (after the media type name is turned into a header value). */
  method New(value: Option<Obj>, formatter: Option<MediaTypeFormatter>, mediaType: Option<string>) returns (r: Result<ObjectContent>)
    ensures BuildHeaderValue(mediaType).Err? ==> r == Err(BuildHeaderValue(mediaType).error)
    ensures BuildHeaderValue(mediaType).Ok? && value.None? ==> r == Err(ArgumentNull("value"))
    ensures BuildHeaderValue(mediaType).Ok? && value.Some? ==>
              && r.Ok? && fresh(r.value)
              && r.value.value == value && r.value.formatter == formatter && r.value.mediaType == BuildHeaderValue(mediaType).value
              && r.value.formatters == null && !r.value.wasFormatterCollectionSetExplicitly && !r.value.wasMediaTypeSetExplicitly
  {
    var header := BuildHeaderValue(mediaType);
    if header.Err? {
      return Err(header.error);
    }
    if value.None? {
      return Err(ArgumentNull("value"));
    }
    var content := new ObjectContent(value.value, formatter, header.value);
    r := Ok(content);
  }

  /** The constructor taking a header value: a null value is rejected. */
  method NewWithHeaderValue(value: Option<Obj>, formatter: Option<MediaTypeFormatter>, mediaType: Option<MediaTypeHeaderValue>)
    returns (r: Result<ObjectContent>)
    ensures value.None? ==> r == Err(ArgumentNull("value"))
    ensures value.Some? ==> && r.Ok? && fresh(r.value)
                            && r.value.value == value && r.value.formatter == formatter && r.value.mediaType == mediaType
  {
    if value.None? {
      return Err(ArgumentNull("value"));
    }
    var content := new ObjectContent(value.value, formatter, mediaType);
    r := Ok(content);
  }

  /**
   * Replacing the formatters of fresh content without an explicit media
   * type leaves no negotiated formatter or media type, so the response
   * content type cannot be chosen until negotiation runs again.
   */
  method SetFormattersClearsNegotiation(value: Obj, f: MediaTypeFormatter, m: MediaTypeHeaderValue,
                                        c: MediaTypeFormatterCollection, contentTypeOf: MediaTypeFormatter -> Option<string>)
    returns (before: Result<Option<string>>, after: Result<Option<string>>)
    ensures before == ResponseContentType(Some(m), Some(f), contentTypeOf)
    ensures after == Err(NullReference)
  {
    var content := new ObjectContent(value, Some(f), Some(m));
    before := content.ExecuteResultContentType(contentTypeOf);
    content.SetFormatters(c);
    after := content.ExecuteResultContentType(contentTypeOf);
  }
}
