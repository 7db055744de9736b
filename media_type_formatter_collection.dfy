/**
 * The ordered list of formatters a configuration holds: filled from a
 * sequence that may not contain null, with typed accessors for the three
 * built-in formatters.
 */
module MediaTypeFormatterCollection {
  import opened Common
  import opened MediaTypes
  import opened MediaTypeFormatter
  import MediaTypeMappings

  /** The web names of UTF-8 and UTF-16, the encodings every built-in formatter supports, in that order. */
  const DefaultEncodings: seq<string> := ["utf-8", "utf-16"]

  /** The view formatter writes text/html. */
  const DefaultViewFormatter := MediaTypeFormatter(ViewFormatterKind,
    [MediaTypeHeaderValue("text/html", [], None)], DefaultEncodings, [])

  /** The JSON formatter writes application/json and text/json, and answers XMLHttpRequests. */
  const DefaultJsonFormatter := MediaTypeFormatter(JsonFormatterKind,
    [ApplicationJson, MediaTypeHeaderValue("text/json", [], None)], DefaultEncodings,
    [Some(MediaTypeMappings.XhrRequestHeader)])

  /** The XML formatter writes application/xml and text/xml. */
  const DefaultXmlFormatter := MediaTypeFormatter(XmlFormatterKind,
    [MediaTypeHeaderValue("application/xml", [], None), MediaTypeHeaderValue("text/xml", [], None)], DefaultEncodings, [])

  /** CreateDefaultFormatters: view, JSON and XML, in that order. */
  function CreateDefaultFormatters(): (r: seq<MediaTypeFormatter>)
    ensures |r| == 3 && r[0].kind == ViewFormatterKind && r[1].kind == JsonFormatterKind && r[2].kind == XmlFormatterKind
  {
    [DefaultViewFormatter, DefaultJsonFormatter, DefaultXmlFormatter]
  }

  /** The non-null formatters of a prefix, in order. */
  function Values(formatters: seq<Option<MediaTypeFormatter>>): (r: seq<MediaTypeFormatter>)
    requires forall i :: 0 <= i < |formatters| ==> formatters[i].Some?
    ensures |r| == |formatters| && forall i :: 0 <= i < |r| ==> Some(r[i]) == formatters[i]
  {
    if formatters == [] then [] else Values(formatters[..|formatters| - 1]) + [formatters[|formatters| - 1].value]
  }

  /** The index of the first null in the sequence, or its length. */
  function FirstNull(formatters: seq<Option<MediaTypeFormatter>>): (r: nat)
    ensures r <= |formatters|
    ensures forall i :: 0 <= i < r ==> formatters[i].Some?
    ensures r < |formatters| ==> formatters[r].None?
  {
    if formatters == [] then 0
    else if formatters[0].None? then 0
    else
      var r := FirstNull(formatters[1..]);
      assert forall i :: 1 <= i < r + 1 ==> formatters[i] == formatters[1..][i - 1];
      r + 1
  }

  /** The first formatter of a kind (OfType followed by FirstOrDefault). */
  function FirstOfKind(items: seq<MediaTypeFormatter>, kind: FormatterKind): (r: Option<MediaTypeFormatter>)
    ensures r.Some? ==> r.value in items && r.value.kind == kind
    ensures r.None? <==> forall i :: 0 <= i < |items| ==> items[i].kind != kind
    ensures r.Some? ==> exists i :: 0 <= i < |items| && items[i] == r.value && forall j :: 0 <= j < i ==> items[j].kind != kind
  {
    if items == [] then None
    else if items[0].kind == kind then Some(items[0])
    else
      var r := FirstOfKind(items[1..], kind);
      assert forall j :: 1 <= j < |items| ==> items[j] == items[1..][j - 1];
      assert r.Some? ==> exists i :: 0 <= i < |items| && items[i] == r.value && forall j :: 0 <= j < i ==> items[j].kind != kind by {
        if r.Some? {
          var i :| 0 <= i < |items[1..]| && items[1..][i] == r.value && forall j :: 0 <= j < i ==> items[1..][j].kind != kind;
          assert items[i + 1] == r.value;
        }
      }
      r
  }

  class MediaTypeFormatterCollection {
    var items: seq<MediaTypeFormatter>

    /** The parameterless constructor: the three default formatters. */
    constructor Default()
      ensures items == CreateDefaultFormatters()
    {
      items := CreateDefaultFormatters();
    }

    /** The start of the constructor taking a sequence, before it is verified and added. */
    constructor Empty()
      ensures items == []
    {
      items := [];
    }

    /**
     * VerifyAndSetFormatters: a null sequence is rejected; otherwise each
     * formatter is appended in turn until a null one is met, which is
     * rejected with an ArgumentException (the formatters before it stay).
     */
    method VerifyAndSetFormatters(formatters: Option<seq<Option<MediaTypeFormatter>>>) returns (error: Option<Exception>)
      modifies this
      ensures formatters.None? ==> error == Some(ArgumentNull("formatters")) && items == old(items)
      ensures formatters.Some? ==> (
        && (error.None? <==> FirstNull(formatters.value) == |formatters.value|)
        && (error.Some? ==> error.value == Argument("formatters"))
        && items == old(items) + Values(formatters.value[..FirstNull(formatters.value)]))
    {
      if formatters.None? {
        return Some(ArgumentNull("formatters"));
      }
      var fs := formatters.value;
      var i := 0;
      while i < |fs|
        invariant 0 <= i <= FirstNull(fs)
        invariant items == old(items) + Values(fs[..i])
      {
        if fs[i].None? {
          return Some(Argument("formatters"));
        }
        assert fs[..i + 1][..i] == fs[..i];
        items := items + [fs[i].value];
        i := i + 1;
      }
      assert fs[..i] == fs;
      return None;
    }

    function ViewFormatter(): (r: Option<MediaTypeFormatter>)
      reads this
      ensures r == FirstOfKind(items, ViewFormatterKind)
    {
      FirstOfKind(items, ViewFormatterKind)
    }

    function JsonFormatter(): (r: Option<MediaTypeFormatter>)
      reads this
      ensures r == FirstOfKind(items, JsonFormatterKind)
    {
      FirstOfKind(items, JsonFormatterKind)
    }

    function XmlFormatter(): (r: Option<MediaTypeFormatter>)
      reads this
      ensures r == FirstOfKind(items, XmlFormatterKind)
    {
      FirstOfKind(items, XmlFormatterKind)
    }
  }

  /** A sequence without nulls has its first null at its end. */
  lemma {:induction false} NoNullsMeansFullLength(formatters: seq<Option<MediaTypeFormatter>>)
    requires forall i :: 0 <= i < |formatters| ==> formatters[i].Some?
    ensures FirstNull(formatters) == |formatters|
  {
    if formatters != [] {
      NoNullsMeansFullLength(formatters[1..]);
    }
  }

  /** Building from a sequence without nulls keeps every formatter, in order. */
  method FromSequenceKeepsOrder(formatters: seq<MediaTypeFormatter>) returns (c: MediaTypeFormatterCollection)
    ensures fresh(c) && c.items == formatters
  {
    c := new MediaTypeFormatterCollection.Empty();
    var given := seq(|formatters|, i requires 0 <= i < |formatters| => Some(formatters[i]));
    NoNullsMeansFullLength(given);
    var error := c.VerifyAndSetFormatters(Some(given));
    assert given[..|given|] == given;
    var vs := Values(given);
    assert forall i :: 0 <= i < |formatters| ==> vs[i] == formatters[i] by {
      forall i | 0 <= i < |formatters| ensures vs[i] == formatters[i] {
        assert Some(vs[i]) == given[i];
      }
    }
    assert vs == formatters;
  }

  /** The default collection's accessors find the three built-in formatters. */
  lemma DefaultAccessors()
    ensures FirstOfKind(CreateDefaultFormatters(), ViewFormatterKind) == Some(DefaultViewFormatter)
    ensures FirstOfKind(CreateDefaultFormatters(), JsonFormatterKind) == Some(DefaultJsonFormatter)
    ensures FirstOfKind(CreateDefaultFormatters(), XmlFormatterKind) == Some(DefaultXmlFormatter)
    ensures FirstOfKind(CreateDefaultFormatters(), OtherFormatterKind("stream")).None?
  {
    var d := CreateDefaultFormatters();
    assert d[1..] == [DefaultJsonFormatter, DefaultXmlFormatter];
    assert d[1..][1..] == [DefaultXmlFormatter];
  }
}
