/**
 * Media types as the content-negotiation code sees them: a "type/subtype"
 * string with name/value parameters and an optional quality, plus the
 * request and response records the mappings and the negotiator read.
 */
module MediaTypes {
  import opened Common
  import NameValues
  import HttpRuleParser

  /** A header parameter; the value may be null. */
  datatype NameValue = NameValue(name: string, value: Option<string>)

  /** A media type header value; quality is the "q" of an Accept entry, when present. */
  datatype MediaTypeHeaderValue = MediaTypeHeaderValue(mediaType: string, parameters: seq<NameValue>, quality: Option<real>)

  const ApplicationOctetStream := MediaTypeHeaderValue("application/octet-stream", [], None)
  const ApplicationJson := MediaTypeHeaderValue("application/json", [], None)

  /** The part of the media type before the first '/'. */
  function TypeOf(m: MediaTypeHeaderValue): string
  {
    var k := IndexOfChar(m.mediaType, '/');
    if k == -1 then m.mediaType else m.mediaType[..k]
  }

  /** The part of the media type after the first '/'. */
  function SubtypeOf(m: MediaTypeHeaderValue): string
  {
    var k := IndexOfChar(m.mediaType, '/');
    if k == -1 then "" else m.mediaType[k + 1..]
  }

  /** The subtype is "*" (true of the all range as well). */
  predicate IsSubtypeMediaRange(m: MediaTypeHeaderValue) { SubtypeOf(m) == "*" }

  /** Both the type and the subtype are "*". */
  predicate IsAllMediaRange(m: MediaTypeHeaderValue) { IsSubtypeMediaRange(m) && TypeOf(m) == "*" }

  /** How general the second value of a subset test is. */
  datatype MediaTypeHeaderValueRange = NoRange | SubtypeMediaRange | AllMediaRange

  function RangeOf(m: MediaTypeHeaderValue): MediaTypeHeaderValueRange
  {
    if IsAllMediaRange(m) then AllMediaRange else if IsSubtypeMediaRange(m) then SubtypeMediaRange else NoRange
  }

  predicate ParameterEquals(p: NameValue, q: NameValue)
  {
    EqualsIgnoreCase(p.name, q.name) &&
    ((p.value.None? && q.value.None?) || (p.value.Some? && q.value.Some? && EqualsIgnoreCase(p.value.value, q.value.value)))
  }

  /**
   * Whether m1 lies within m2: same type unless m2 is the all range, same
   * subtype unless m2 is a range, and every parameter of m1 present in m2.
   */
  predicate IsSubsetOf(m1: MediaTypeHeaderValue, m2: MediaTypeHeaderValue)
  {
    (EqualsIgnoreCase(TypeOf(m1), TypeOf(m2)) || RangeOf(m2) == AllMediaRange) &&
    (!EqualsIgnoreCase(TypeOf(m1), TypeOf(m2)) || EqualsIgnoreCase(SubtypeOf(m1), SubtypeOf(m2)) || RangeOf(m2) == SubtypeMediaRange) &&
    (forall i :: 0 <= i < |m1.parameters| ==>
      exists j :: 0 <= j < |m2.parameters| && ParameterEquals(m1.parameters[i], m2.parameters[j]))
  }

  /**
   * An HTTP token: at least one visible ASCII character, none of them a
   * separator (so neither '/' nor white space nor ';').
   */
  predicate IsMediaTypePart(s: string)
  {
    s != [] && forall i :: 0 <= i < |s| ==> HttpRuleParser.IsTokenChar(s[i])
  }

  /** s splits at index k into two media type parts. */
  predicate SplitsAt(s: string, k: int)
  {
    0 <= k < |s| && s[k] == '/' && IsMediaTypePart(s[..k]) && IsMediaTypePart(s[k + 1..])
  }

  /** A split point is always the first '/'. */
  lemma SplitIsFirstSlash(s: string, j: int)
    requires SplitsAt(s, j)
    ensures IndexOfChar(s, '/') == j
  {
  }

  /**
   * The string constructor of a media type header value: exactly a token,
   * '/' and a token, with nothing before, between or after them (no white
   * space, no parameters); anything else is a format error.
   */
  function ParseMediaType(s: string): (r: Result<MediaTypeHeaderValue>)
    ensures r.Ok? ==> r.value.mediaType == s && r.value.parameters == [] && r.value.quality.None?
    ensures r.Ok? <==> exists k :: SplitsAt(s, k)
  {
    var k := IndexOfChar(s, '/');
    if k >= 0 && SplitsAt(s, k) then Ok(MediaTypeHeaderValue(s, [], None))
    else
      assert forall j :: !SplitsAt(s, j) by {
        forall j | SplitsAt(s, j) ensures false {
          SplitIsFirstSlash(s, j);
        }
      }
      Err(Format)
  }

  /**
   * A character that is neither a token character nor the '/' between type
   * and subtype (a ';' opening parameters, white space, '@') makes the
   * string constructor fail.
   */
  lemma NonTokenCharacterRejected(s: string, i: int)
    requires 0 <= i < |s| && s[i] != '/' && !HttpRuleParser.IsTokenChar(s[i])
    ensures ParseMediaType(s) == Err(Format)
  {
    forall k | 0 <= k < |s| && s[k] == '/' ensures !SplitsAt(s, k) {
      if i < k {
        assert s[..k][i] == s[i];
      } else {
        assert s[k + 1..][i - k - 1] == s[i];
      }
    }
  }

  /** The request fields the formatting code reads. */
  datatype Request = Request(
    httpMethod: string,
    /** The path segments of the request URI, when there is one. */
    uriSegments: Option<seq<string>>,
    queryString: Option<NameValues.NameValueCollection>,
    /** Request headers by exact name; a present header may have a null value list. */
    headers: map<string, Option<seq<string>>>,
    acceptHeaders: seq<MediaTypeHeaderValue>,
    contentType: Option<MediaTypeHeaderValue>)

  /** A response refers to the request it answers, when known. */
  datatype Response = Response(requestMessage: Option<Request>)

  /** The charset parameter, when present (the first one, name compared ignoring case). */
  function CharSet(m: MediaTypeHeaderValue): (r: Option<string>)
    ensures r.Some? ==> exists i :: 0 <= i < |m.parameters| && EqualsIgnoreCase(m.parameters[i].name, "charset")
  {
    CharSetIn(m.parameters)
  }

  function CharSetIn(ps: seq<NameValue>): (r: Option<string>)
    ensures r.Some? ==> exists i :: 0 <= i < |ps| && EqualsIgnoreCase(ps[i].name, "charset")
  {
    if ps == [] then None
    else if EqualsIgnoreCase(ps[0].name, "charset") then ps[0].value
    else
      var r := CharSetIn(ps[1..]);
      assert r.Some? ==> exists i :: 1 <= i < |ps| && EqualsIgnoreCase(ps[i].name, "charset") by {
        if r.Some? {
          var i :| 0 <= i < |ps[1..]| && EqualsIgnoreCase(ps[1..][i].name, "charset");
          assert ps[i + 1] == ps[1..][i];
        }
      }
      r
  }

  /** Setting CharSet: drop the charset parameters and add the new one. */
  function WithCharSet(m: MediaTypeHeaderValue, charSet: string): (r: MediaTypeHeaderValue)
    ensures r.mediaType == m.mediaType && r.quality == m.quality
    ensures CharSet(r) == Some(charSet)
  {
    var others := FilterNotCharSet(m.parameters);
    CharSetAfterOthers(others, NameValue("charset", Some(charSet)));
    MediaTypeHeaderValue(m.mediaType, others + [NameValue("charset", Some(charSet))], m.quality)
  }

  lemma {:induction false} CharSetAfterOthers(others: seq<NameValue>, p: NameValue)
    requires forall i :: 0 <= i < |others| ==> !EqualsIgnoreCase(others[i].name, "charset")
    requires EqualsIgnoreCase(p.name, "charset")
    ensures CharSetIn(others + [p]) == p.value
    decreases |others|
  {
    var all := others + [p];
    if others == [] {
      assert all[0] == p;
    } else {
      assert all[0] == others[0];
      assert all[1..] == others[1..] + [p];
      CharSetAfterOthers(others[1..], p);
    }
  }

  function FilterNotCharSet(ps: seq<NameValue>): (r: seq<NameValue>)
    ensures forall i :: 0 <= i < |r| ==> !EqualsIgnoreCase(r[i].name, "charset")
    ensures CharSetIn(r).None?
  {
    if ps == [] then []
    else if EqualsIgnoreCase(ps[0].name, "charset") then FilterNotCharSet(ps[1..])
    else [ps[0]] + FilterNotCharSet(ps[1..])
  }
}
