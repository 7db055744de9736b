/**
 * The default content negotiator: every formatter that can write the
 * type is matched against the request (by its mappings, then the Accept
 * header, then the request's own media type, then on type alone), the best
 * match is chosen by ranking and quality, and its formatter and media type
 * (with the chosen character encoding) are returned.
 */
module DefaultContentNegotiator {
  import opened Common
  import opened MediaTypes
  import opened MediaTypeMappings
  import opened MediaTypeFormatterMatch
  import opened MediaTypeFormatter
  import opened MediaTypeQualityOrder
  import CNR = ContentNegotiationResult

  type FormatterMatch = MediaTypeFormatterMatch<MediaTypeFormatter>

  datatype DefaultContentNegotiator = DefaultContentNegotiator(excludeMatchOnTypeOnly: bool)

  /** The parameterless constructor matches on type alone as a last resort. */
  const Default := DefaultContentNegotiator(false)

  // ----- Choosing between two matches -----

  /** UpdateBestMatch: the replacement wins only with a strictly higher quality. */
  function UpdateBestMatch(current: Option<FormatterMatch>, potentialReplacement: Option<FormatterMatch>): (r: Option<FormatterMatch>)
    ensures r == current || r == potentialReplacement
    ensures r.None? <==> current.None? && potentialReplacement.None?
    ensures r.Some? && current.Some? ==> r.value.quality >= current.value.quality
    ensures r.Some? && potentialReplacement.Some? ==> r.value.quality >= potentialReplacement.value.quality
    ensures current.Some? && potentialReplacement.Some? && potentialReplacement.value.quality <= current.value.quality ==> r == current
  {
    if potentialReplacement.None? then current
    else if current.Some? then
      (if potentialReplacement.value.quality > current.value.quality then potentialReplacement else current)
    else potentialReplacement
  }

  // ----- Matching one formatter -----

  /** MatchMediaTypeMapping: the first of the formatter's mappings that matches the request. */
  function MatchMediaTypeMapping(request: Option<Request>, formatter: Option<MediaTypeFormatter>): (r: Result<Option<FormatterMatch>>)
    ensures request.None? ==> r == Err(ArgumentNull("request"))
    ensures request.Some? && formatter.None? ==> r == Err(ArgumentNull("formatter"))
    ensures request.Some? && formatter.Some? ==>
      match FirstMappingMatch(formatter.value.mediaTypeMappings, m => TryMatchMediaTypeRequest(m, request))
        case Err(e) => r == Err(e)
        case Ok(None) => r == Ok(None)
        case Ok(Some((m, q))) => r == Ok(Some(MediaTypeFormatterMatch(formatter, Some(MediaTypeOf(m)), q, MatchOnRequestWithMediaTypeMapping)))
  {
    if request.None? then Err(ArgumentNull("request"))
    else if formatter.None? then Err(ArgumentNull("formatter"))
    else
      var found :- FirstMappingMatch(formatter.value.mediaTypeMappings, m => TryMatchMediaTypeRequest(m, request));
      match found
        case None => Ok(None)
        case Some((m, q)) =>
          Ok(Some(MediaTypeFormatterMatch(formatter, Some(MediaTypeOf(m)), q, MatchOnRequestWithMediaTypeMapping)))
  }

  /** An Accept value with a quality other than zero that the supported media type lies within. */
  predicate Fits(supported: MediaTypeHeaderValue, accept: MediaTypeHeaderValue)
  {
    accept.quality != Some(NoMatch) && IsSubsetOf(supported, accept)
  }

  /** The ranking an Accept match gets from how general the Accept value is. */
  function AcceptRanking(range: MediaTypeHeaderValueRange): (r: MediaTypeFormatterMatchRanking)
    ensures r.MatchOnRequestAcceptHeaderLiteral? || r.MatchOnRequestAcceptHeaderSubtypeMediaRange?
            || r.MatchOnRequestAcceptHeaderAllMediaRange?
  {
    match range
      case AllMediaRange => MatchOnRequestAcceptHeaderAllMediaRange
      case SubtypeMediaRange => MatchOnRequestAcceptHeaderSubtypeMediaRange
      case NoRange => MatchOnRequestAcceptHeaderLiteral
  }

  predicate IsAcceptRanking(ranking: MediaTypeFormatterMatchRanking)
  {
    ranking.MatchOnRequestAcceptHeaderLiteral? || ranking.MatchOnRequestAcceptHeaderSubtypeMediaRange?
    || ranking.MatchOnRequestAcceptHeaderAllMediaRange?
  }

  /** (i, j) is the first pair, Accept value first, whose supported type fits the Accept value. */
  predicate FirstFit(accepts: seq<MediaTypeHeaderValue>, supported: seq<MediaTypeHeaderValue>, i: int, j: int)
  {
    && 0 <= i < |accepts| && 0 <= j < |supported|
    && Fits(supported[j], accepts[i])
    && (forall i', j' :: 0 <= i' < i && 0 <= j' < |supported| ==> !Fits(supported[j'], accepts[i']))
    && (forall j' :: 0 <= j' < j ==> !Fits(supported[j'], accepts[i]))
  }

  /**
   * MatchAcceptHeader: for each Accept value in the given order, the first
   * supported media type that fits it; the match carries the Accept
   * value's quality and a ranking from how general that value is.
   */
  function MatchAcceptHeader(sortedAcceptValues: Option<seq<MediaTypeHeaderValue>>, formatter: Option<MediaTypeFormatter>)
    : (r: Result<Option<FormatterMatch>>)
    ensures sortedAcceptValues.None? ==> r == Err(ArgumentNull("sortedAcceptValues"))
    ensures sortedAcceptValues.Some? && formatter.None? ==> r == Err(ArgumentNull("formatter"))
    ensures sortedAcceptValues.Some? && formatter.Some? ==> r.Ok?
    ensures sortedAcceptValues.Some? && formatter.Some? ==>
      (r == Ok(None) <==> (forall i, j :: (0 <= i < |sortedAcceptValues.value| && 0 <= j < |formatter.value.supportedMediaTypes|)
                                           ==> !Fits(formatter.value.supportedMediaTypes[j], sortedAcceptValues.value[i])))
    ensures r.Ok? && r.value.Some? ==>
      var accepts := sortedAcceptValues.value;
      var supported := formatter.value.supportedMediaTypes;
      exists i, j :: (FirstFit(accepts, supported, i, j)
        && r.value.value == MediaTypeFormatterMatch(formatter, Some(supported[j]), QualityOf(accepts[i]), AcceptRanking(RangeOf(accepts[i]))))
  {
    if sortedAcceptValues.None? then Err(ArgumentNull("sortedAcceptValues"))
    else if formatter.None? then Err(ArgumentNull("formatter"))
    else
      var accepts := sortedAcceptValues.value;
      var supported := formatter.value.supportedMediaTypes;
      match FirstIndex(accepts, a => FirstIndex(supported, s => Fits(s, a)).Some?)
        case None =>
          assert forall i, j :: 0 <= i < |accepts| && 0 <= j < |supported| ==> !Fits(supported[j], accepts[i]) by {
            forall i, j | 0 <= i < |accepts| && 0 <= j < |supported| ensures !Fits(supported[j], accepts[i]) {
              assert FirstIndex(supported, s => Fits(s, accepts[i])).None?;
            }
          }
          Ok(None)
        case Some(i) =>
          var j := FirstIndex(supported, s => Fits(s, accepts[i])).value;
          assert FirstFit(accepts, supported, i, j) by {
            forall i', j' | 0 <= i' < i && 0 <= j' < |supported| ensures !Fits(supported[j'], accepts[i']) {
              assert FirstIndex(supported, s => Fits(s, accepts[i'])).None?;
            }
          }
          Ok(Some(MediaTypeFormatterMatch(formatter, Some(supported[j]), accepts[i].quality.GetOr(Match), AcceptRanking(RangeOf(accepts[i])))))
  }

  /** Over Accept values sorted by quality, the Accept match has the highest quality any fitting Accept value has. */
  lemma {:induction false} AcceptMatchHasHighestQuality(accepts: seq<MediaTypeHeaderValue>, formatter: MediaTypeFormatter, i': int, j': int)
    requires SortedDescending(accepts)
    requires 0 <= i' < |accepts| && 0 <= j' < |formatter.supportedMediaTypes|
    requires Fits(formatter.supportedMediaTypes[j'], accepts[i'])
    ensures MatchAcceptHeader(Some(accepts), Some(formatter)).Ok?
    ensures MatchAcceptHeader(Some(accepts), Some(formatter)).value.Some?
    ensures MatchAcceptHeader(Some(accepts), Some(formatter)).value.value.quality >= QualityOf(accepts[i'])
  {
    SomeAcceptMatch(accepts, formatter, i', j');
    var i, j := FirstFitOf(accepts, formatter);
    FirstFitIsEarliest(accepts, formatter.supportedMediaTypes, i, j, i', j');
    QualityNotBelow(accepts, i, i');
  }

  /** In a sorted list, a value at or before another has at least its quality. */
  lemma QualityNotBelow(accepts: seq<MediaTypeHeaderValue>, i: int, i': int)
    requires SortedDescending(accepts) && 0 <= i <= i' < |accepts|
    ensures QualityOf(accepts[i]) >= QualityOf(accepts[i'])
  {
    if i < i' {
      SortedMeansQualityDescending(accepts, i, i');
    }
  }

  /** An Accept value some supported type fits gives an Accept match. */
  lemma SomeAcceptMatch(accepts: seq<MediaTypeHeaderValue>, formatter: MediaTypeFormatter, i': int, j': int)
    requires 0 <= i' < |accepts| && 0 <= j' < |formatter.supportedMediaTypes|
    requires Fits(formatter.supportedMediaTypes[j'], accepts[i'])
    ensures MatchAcceptHeader(Some(accepts), Some(formatter)).Ok?
    ensures MatchAcceptHeader(Some(accepts), Some(formatter)).value.Some?
  {
  }

  /** The Accept match comes from the first fitting pair and carries its Accept value's quality. */
  lemma FirstFitOf(accepts: seq<MediaTypeHeaderValue>, formatter: MediaTypeFormatter) returns (i: int, j: int)
    requires MatchAcceptHeader(Some(accepts), Some(formatter)).Ok?
    requires MatchAcceptHeader(Some(accepts), Some(formatter)).value.Some?
    ensures FirstFit(accepts, formatter.supportedMediaTypes, i, j)
    ensures MatchAcceptHeader(Some(accepts), Some(formatter)).value.value.quality == QualityOf(accepts[i])
  {
    var r := MatchAcceptHeader(Some(accepts), Some(formatter));
    var supported := formatter.supportedMediaTypes;
    i, j :| FirstFit(accepts, supported, i, j)
      && r.value.value == MediaTypeFormatterMatch(Some(formatter), Some(supported[j]), QualityOf(accepts[i]), AcceptRanking(RangeOf(accepts[i])));
  }

  /** No Accept value before the first fitting one has a fitting supported type. */
  lemma FirstFitIsEarliest(accepts: seq<MediaTypeHeaderValue>, supported: seq<MediaTypeHeaderValue>, i: int, j: int, i': int, j': int)
    requires FirstFit(accepts, supported, i, j)
    requires 0 <= i' < |accepts| && 0 <= j' < |supported| && Fits(supported[j'], accepts[i'])
    ensures i <= i'
  {
  }

  /** MatchRequestMediaType: the first supported media type within the request's own content type. */
  function MatchRequestMediaType(request: Option<Request>, formatter: Option<MediaTypeFormatter>): (r: Result<Option<FormatterMatch>>)
    ensures request.None? ==> r == Err(ArgumentNull("request"))
    ensures request.Some? && formatter.None? ==> r == Err(ArgumentNull("formatter"))
    ensures request.Some? && formatter.Some? ==> r.Ok?
    ensures request.Some? && formatter.Some? ==>
      (r == Ok(None) <==> (request.value.contentType.None?
                           || forall j :: 0 <= j < |formatter.value.supportedMediaTypes|
                                ==> !IsSubsetOf(formatter.value.supportedMediaTypes[j], request.value.contentType.value)))
    ensures r.Ok? && r.value.Some? ==>
      var supported := formatter.value.supportedMediaTypes;
      var contentType := request.value.contentType.value;
      exists j :: (0 <= j < |supported| && IsSubsetOf(supported[j], contentType)
        && (forall j' :: 0 <= j' < j ==> !IsSubsetOf(supported[j'], contentType))
        && r.value.value == MediaTypeFormatterMatch(formatter, Some(supported[j]), Match, MatchOnRequestMediaType))
  {
    if request.None? then Err(ArgumentNull("request"))
    else if formatter.None? then Err(ArgumentNull("formatter"))
    else match request.value.contentType
      case None => Ok(None)
      case Some(contentType) =>
        var supported := formatter.value.supportedMediaTypes;
        match FirstIndex(supported, s => IsSubsetOf(s, contentType))
          case None => Ok(None)
          case Some(j) => Ok(Some(MediaTypeFormatterMatch(formatter, Some(supported[j]), Match, MatchOnRequestMediaType)))
  }

  /**
   * MatchType: unless matching on type alone is excluded, the formatter's
   * first supported media type (application/octet-stream when it has none)
   * with a full quality.
   */
  function MatchType<T>(negotiator: DefaultContentNegotiator, objectType: Option<T>, formatter: Option<MediaTypeFormatter>)
    : (r: Result<Option<FormatterMatch>>)
    ensures objectType.None? ==> r == Err(ArgumentNull("type"))
    ensures objectType.Some? && formatter.None? ==> r == Err(ArgumentNull("formatter"))
    ensures objectType.Some? && formatter.Some? && negotiator.excludeMatchOnTypeOnly ==> r == Ok(None)
    ensures objectType.Some? && formatter.Some? && !negotiator.excludeMatchOnTypeOnly ==>
      var supported := formatter.value.supportedMediaTypes;
      r == Ok(Some(MediaTypeFormatterMatch(formatter, Some(if supported == [] then ApplicationOctetStream else supported[0]),
                                           Match, MatchOnCanWriteType)))
  {
    if objectType.None? then Err(ArgumentNull("type"))
    else if formatter.None? then Err(ArgumentNull("formatter"))
    else if negotiator.excludeMatchOnTypeOnly then Ok(None)
    else
      var supported := formatter.value.supportedMediaTypes;
      Ok(Some(MediaTypeFormatterMatch(formatter, Some(if supported == [] then ApplicationOctetStream else supported[0]),
                                      Match, MatchOnCanWriteType)))
  }

  /** A match produced by the negotiator names its formatter and a media type, and has a ranking. */
  predicate Complete(m: FormatterMatch, f: MediaTypeFormatter)
  {
    m.formatter == Some(f) && m.mediaType.Some? && m.ranking != NoRanking
  }

  /** The Accept values of a request, sorted by quality; equally ranked values keep their header order. */
  function SortedAccept(request: Request): (r: seq<MediaTypeHeaderValue>)
    ensures SortedDescending(r) || |r| <= 1
    ensures multiset(r) == multiset(request.acceptHeaders)
    ensures forall k :: RankClass(r, k) == RankClass(request.acceptHeaders, k)
  {
    match SortByQFactor(Some(request.acceptHeaders))
      case Ok(sorted) => sorted
      case Err(_) => request.acceptHeaders
  }

  /**
   * How well one formatter matches: not at all if it cannot write the type,
   * else by its mappings, else by the Accept header, else by the request's
   * media type, else on type alone.
   */
  function MatchFormatter<T>(negotiator: DefaultContentNegotiator, objectType: T, request: Request,
                             sortedAcceptValues: seq<MediaTypeHeaderValue>, f: MediaTypeFormatter,
                             canWriteType: (MediaTypeFormatter, T) -> bool): (r: Result<Option<FormatterMatch>>)
    ensures !canWriteType(f, objectType) ==> r == Ok(None)
    ensures r.Ok? && r.value.Some? ==> canWriteType(f, objectType) && Complete(r.value.value, f)
    ensures r.Err? ==> r == MatchMediaTypeMapping(Some(request), Some(f))
    ensures r.Ok? && r.value.Some? && r.value.value.ranking != MatchOnRequestWithMediaTypeMapping
            ==> MatchMediaTypeMapping(Some(request), Some(f)) == Ok(None)
    ensures !negotiator.excludeMatchOnTypeOnly && canWriteType(f, objectType) && r.Ok? ==> r.value.Some?
  {
    if !canWriteType(f, objectType) then Ok(None)
    else
      var mapping :- MatchMediaTypeMapping(Some(request), Some(f));
      if mapping.Some? then Ok(mapping)
      else
        var accept := MatchAcceptHeader(Some(sortedAcceptValues), Some(f)).value;
        if accept.Some? then Ok(accept)
        else
          var requestMediaType := MatchRequestMediaType(Some(request), Some(f)).value;
          if requestMediaType.Some? then Ok(requestMediaType)
          else MatchType(negotiator, Some(objectType), Some(f))
  }

  /** The matches of a list of formatters, in formatter order; the first exception ends the computation. */
  function ComputeMatches<T>(negotiator: DefaultContentNegotiator, objectType: T, request: Request,
                             formatters: seq<MediaTypeFormatter>, canWriteType: (MediaTypeFormatter, T) -> bool)
    : (r: Result<seq<FormatterMatch>>)
    ensures r.Ok? ==> |r.value| <= |formatters|
    ensures r.Ok? ==> forall k :: 0 <= k < |r.value| ==> (
      && r.value[k].formatter.Some?
      && r.value[k].formatter.value in formatters
      && canWriteType(r.value[k].formatter.value, objectType)
      && Complete(r.value[k], r.value[k].formatter.value))
    decreases |formatters|
  {
    if formatters == [] then Ok([])
    else
      var earlier :- ComputeMatches(negotiator, objectType, request, formatters[..|formatters| - 1], canWriteType);
      var f := formatters[|formatters| - 1];
      var last :- MatchFormatter(negotiator, objectType, request, SortedAccept(request), f, canWriteType);
      Ok(earlier + (if last.Some? then [last.value] else []))
  }

  /** Once a prefix of the formatters has thrown, so has the whole list, with the same exception. */
  lemma {:induction false} ComputeMatchesErrorPersists<T>(negotiator: DefaultContentNegotiator, objectType: T, request: Request,
                                                         formatters: seq<MediaTypeFormatter>, canWriteType: (MediaTypeFormatter, T) -> bool, k: nat)
    requires k <= |formatters|
    requires ComputeMatches(negotiator, objectType, request, formatters[..k], canWriteType).Err?
    ensures ComputeMatches(negotiator, objectType, request, formatters, canWriteType)
            == ComputeMatches(negotiator, objectType, request, formatters[..k], canWriteType)
    decreases |formatters|
  {
    if k == |formatters| {
      assert formatters[..k] == formatters;
    } else {
      var init := formatters[..|formatters| - 1];
      assert init[..k] == formatters[..k];
      ComputeMatchesErrorPersists(negotiator, objectType, request, init, canWriteType, k);
    }
  }

  /** One more formatter: its match, if any, is appended to those of the formatters before it. */
  lemma ComputeMatchesStep<T>(negotiator: DefaultContentNegotiator, objectType: T, request: Request,
                              formatters: seq<MediaTypeFormatter>, canWriteType: (MediaTypeFormatter, T) -> bool, i: nat,
                              matches: seq<FormatterMatch>, one: Option<FormatterMatch>)
    requires i < |formatters|
    requires ComputeMatches(negotiator, objectType, request, formatters[..i], canWriteType) == Ok(matches)
    requires MatchFormatter(negotiator, objectType, request, SortedAccept(request), formatters[i], canWriteType) == Ok(one)
    ensures one.Some? ==> ComputeMatches(negotiator, objectType, request, formatters[..i + 1], canWriteType) == Ok(matches + [one.value])
    ensures one.None? ==> ComputeMatches(negotiator, objectType, request, formatters[..i + 1], canWriteType) == Ok(matches)
  {
    assert formatters[..i + 1][..i] == formatters[..i];
    assert matches + [] == matches;
  }

  /** A formatter whose matching throws ends the whole computation with that exception. */
  lemma ComputeMatchesStepFails<T>(negotiator: DefaultContentNegotiator, objectType: T, request: Request,
                                   formatters: seq<MediaTypeFormatter>, canWriteType: (MediaTypeFormatter, T) -> bool, i: nat,
                                   e: Exception)
    requires i < |formatters|
    requires ComputeMatches(negotiator, objectType, request, formatters[..i], canWriteType).Ok?
    requires MatchFormatter(negotiator, objectType, request, SortedAccept(request), formatters[i], canWriteType) == Err(e)
    ensures ComputeMatches(negotiator, objectType, request, formatters, canWriteType) == Err(e)
  {
    assert formatters[..i + 1][..i] == formatters[..i];
    assert ComputeMatches(negotiator, objectType, request, formatters[..i + 1], canWriteType) == Err(e);
    ComputeMatchesErrorPersists(negotiator, objectType, request, formatters, canWriteType, i + 1);
  }

  /**
   * The body of the loop in ComputeFormatterMatches for one formatter: the
   * Accept values are sorted the first time a formatter gets that far, and
   * the sorted values are kept for the formatters after it.
   */
  method MatchOneFormatter<T>(negotiator: DefaultContentNegotiator, objectType: T, request: Request, f: MediaTypeFormatter,
                              sortedAcceptValues: Option<seq<MediaTypeHeaderValue>>, canWriteType: (MediaTypeFormatter, T) -> bool)
    returns (one: Result<Option<FormatterMatch>>, sorted: Option<seq<MediaTypeHeaderValue>>)
    requires sortedAcceptValues.Some? ==> sortedAcceptValues.value == SortedAccept(request)
    ensures one == MatchFormatter(negotiator, objectType, request, SortedAccept(request), f, canWriteType)
    ensures sorted.Some? ==> sorted.value == SortedAccept(request)
  {
    sorted := sortedAcceptValues;
    if !canWriteType(f, objectType) {
      return Ok(None), sorted;
    }
    var mapping := MatchMediaTypeMapping(Some(request), Some(f));
    if mapping.Err? || mapping.value.Some? {
      return mapping, sorted;
    }
    if sorted.None? {
      var byQuality := SortByQFactor(Some(request.acceptHeaders));
      sorted := Some(byQuality.value);
    }
    var accept := MatchAcceptHeader(sorted, Some(f));
    if accept.value.Some? {
      return accept, sorted;
    }
    var requestMediaType := MatchRequestMediaType(Some(request), Some(f));
    if requestMediaType.value.Some? {
      return requestMediaType, sorted;
    }
    one := MatchType(negotiator, Some(objectType), Some(f));
  }

  /**
   * ComputeFormatterMatches: the loop over the formatters, collecting the
   * match of each in formatter order.
   */
  method ComputeFormatterMatches<T>(negotiator: DefaultContentNegotiator, objectType: Option<T>, request: Option<Request>,
                                    formatters: Option<seq<MediaTypeFormatter>>, canWriteType: (MediaTypeFormatter, T) -> bool)
    returns (r: Result<seq<FormatterMatch>>)
    ensures objectType.None? ==> r == Err(ArgumentNull("type"))
    ensures objectType.Some? && request.None? ==> r == Err(ArgumentNull("request"))
    ensures objectType.Some? && request.Some? && formatters.None? ==> r == Err(ArgumentNull("formatters"))
    ensures objectType.Some? && request.Some? && formatters.Some? ==>
      r == ComputeMatches(negotiator, objectType.value, request.value, formatters.value, canWriteType)
  {
    if objectType.None? {
      return Err(ArgumentNull("type"));
    }
    if request.None? {
      return Err(ArgumentNull("request"));
    }
    if formatters.None? {
      return Err(ArgumentNull("formatters"));
    }
    var t := objectType.value;
    var req := request.value;
    var fs := formatters.value;
    var sortedAcceptValues: Option<seq<MediaTypeHeaderValue>> := None;
    var matches: seq<FormatterMatch> := [];
    var i := 0;
    while i < |fs|
      invariant 0 <= i <= |fs|
      invariant ComputeMatches(negotiator, t, req, fs[..i], canWriteType) == Ok(matches)
      invariant sortedAcceptValues.Some? ==> sortedAcceptValues.value == SortedAccept(req)
    {
      var one;
      one, sortedAcceptValues := MatchOneFormatter(negotiator, t, req, fs[i], sortedAcceptValues, canWriteType);
      if one.Err? {
        ComputeMatchesStepFails(negotiator, t, req, fs, canWriteType, i, one.error);
        return Err(one.error);
      }
      ComputeMatchesStep(negotiator, t, req, fs, canWriteType, i, matches, one.value);
      if one.value.Some? {
        matches := matches + [one.value.value];
      }
      i := i + 1;
    }
    assert fs[..|fs|] == fs;
    return Ok(matches);
  }

  // ----- Selecting the best match -----

  /** The first match with the given ranking (the type and request media type categories keep their first). */
  function FirstOf(matches: seq<FormatterMatch>, ranking: MediaTypeFormatterMatchRanking): (r: Option<FormatterMatch>)
    ensures r.None? <==> forall k :: 0 <= k < |matches| ==> matches[k].ranking != ranking
    ensures r.Some? ==> exists k :: (0 <= k < |matches| && matches[k] == r.value
                                     && (forall k' :: 0 <= k' < k ==> matches[k'].ranking != ranking))
    ensures r.Some? ==> r.value.ranking == ranking
    decreases |matches|
  {
    if matches == [] then None
    else
      var earlier := FirstOf(matches[..|matches| - 1], ranking);
      var last := matches[|matches| - 1];
      if earlier.Some? then
        assert forall k :: 0 <= k < |matches| - 1 ==> matches[..|matches| - 1][k] == matches[k];
        earlier
      else if last.ranking == ranking then
        assert forall k :: 0 <= k < |matches| - 1 ==> matches[..|matches| - 1][k] == matches[k];
        Some(last)
      else
        assert forall k :: 0 <= k < |matches| - 1 ==> matches[..|matches| - 1][k] == matches[k];
        None
  }

  /**
   * The best match with the given ranking, folding UpdateBestMatch over the
   * matches in order: the highest quality, and the first of those on a tie.
   */
  function BestOf(matches: seq<FormatterMatch>, ranking: MediaTypeFormatterMatchRanking): (r: Option<FormatterMatch>)
    ensures r.None? <==> forall k :: 0 <= k < |matches| ==> matches[k].ranking != ranking
    ensures r.Some? ==> r.value.ranking == ranking
    ensures r.Some? ==> forall k :: 0 <= k < |matches| && matches[k].ranking == ranking ==> matches[k].quality <= r.value.quality
    ensures r.Some? ==> exists k :: (0 <= k < |matches| && matches[k] == r.value
                                     && (forall k' :: 0 <= k' < k && matches[k'].ranking == ranking
                                                      ==> matches[k'].quality < r.value.quality))
    decreases |matches|
  {
    if matches == [] then None
    else
      var init := matches[..|matches| - 1];
      var earlier := BestOf(init, ranking);
      var last := matches[|matches| - 1];
      assert forall k :: 0 <= k < |matches| - 1 ==> init[k] == matches[k];
      if last.ranking == ranking then UpdateBestMatch(earlier, Some(last)) else earlier
  }

  /** One more match updates the best of its own category only. */
  lemma BestOfStep(ms: seq<FormatterMatch>, i: nat, ranking: MediaTypeFormatterMatchRanking)
    requires i < |ms|
    ensures BestOf(ms[..i + 1], ranking)
         == if ms[i].ranking == ranking then UpdateBestMatch(BestOf(ms[..i], ranking), Some(ms[i])) else BestOf(ms[..i], ranking)
  {
    assert ms[..i + 1][..i] == ms[..i];
  }

  /** One more match becomes the first of its category only when that category had none. */
  lemma FirstOfStep(ms: seq<FormatterMatch>, i: nat, ranking: MediaTypeFormatterMatchRanking)
    requires i < |ms|
    ensures FirstOf(ms[..i + 1], ranking)
         == if FirstOf(ms[..i], ranking).Some? then FirstOf(ms[..i], ranking)
            else if ms[i].ranking == ranking then Some(ms[i]) else None
  {
    assert ms[..i + 1][..i] == ms[..i];
  }

  /** The best of the three Accept categories, in the order literal, subtype range, all-types range. */
  function BestAccept(literal: Option<FormatterMatch>, subtypeRange: Option<FormatterMatch>, allRange: Option<FormatterMatch>)
    : (r: Option<FormatterMatch>)
    ensures r == literal || r == subtypeRange || r == allRange
    ensures r.None? <==> literal.None? && subtypeRange.None? && allRange.None?
    ensures r.Some? ==> ((literal.Some? ==> literal.value.quality <= r.value.quality)
                         && (subtypeRange.Some? ==> subtypeRange.value.quality <= r.value.quality)
                         && (allRange.Some? ==> allRange.value.quality <= r.value.quality))
  {
    UpdateBestMatch(UpdateBestMatch(UpdateBestMatch(None, literal), subtypeRange), allRange)
  }

  /**
   * The choice SelectResponseMediaTypeFormatter makes from the best match of
   * each category: the mapping match unless an Accept match has a strictly
   * higher quality, then the best Accept match, then the first request media
   * type match, then the first match on type.
   */
  function Select(matches: seq<FormatterMatch>): Option<FormatterMatch>
  {
    var mapping := BestOf(matches, MatchOnRequestWithMediaTypeMapping);
    var literal := BestOf(matches, MatchOnRequestAcceptHeaderLiteral);
    var subtypeRange := BestOf(matches, MatchOnRequestAcceptHeaderSubtypeMediaRange);
    var allRange := BestOf(matches, MatchOnRequestAcceptHeaderAllMediaRange);
    Choose(mapping, literal, subtypeRange, allRange,
           FirstOf(matches, MatchOnRequestMediaType), FirstOf(matches, MatchOnCanWriteType))
  }

  /** The final choice among the six category winners. */
  function Choose(mapping: Option<FormatterMatch>, literal: Option<FormatterMatch>, subtypeRange: Option<FormatterMatch>,
                  allRange: Option<FormatterMatch>, requestMediaType: Option<FormatterMatch>, onType: Option<FormatterMatch>)
    : Option<FormatterMatch>
  {
    var mappingOverride := UpdateBestMatch(UpdateBestMatch(UpdateBestMatch(mapping, literal), subtypeRange), allRange);
    var keptMapping := if mapping.Some? && mappingOverride != mapping then None else mapping;
    if keptMapping.Some? then keptMapping
    else if literal.Some? || subtypeRange.Some? || allRange.Some? then BestAccept(literal, subtypeRange, allRange)
    else if requestMediaType.Some? then requestMediaType
    else onType
  }

  /**
   * SelectResponseMediaTypeFormatter: one pass over the matches keeping the
   * best of each category, then the choice between the categories.
   */
  method SelectResponseMediaTypeFormatter(matches: Option<seq<FormatterMatch>>) returns (r: Result<Option<FormatterMatch>>)
    ensures matches.None? ==> r == Err(ArgumentNull("matches"))
    ensures matches.Some? ==> r == Ok(Select(matches.value))
  {
    if matches.None? {
      return Err(ArgumentNull("matches"));
    }
    var ms := matches.value;
    var bestMatchOnType: Option<FormatterMatch> := None;
    var bestMatchOnAcceptHeaderLiteral: Option<FormatterMatch> := None;
    var bestMatchOnAcceptHeaderSubtypeMediaRange: Option<FormatterMatch> := None;
    var bestMatchOnAcceptHeaderAllMediaRange: Option<FormatterMatch> := None;
    var bestMatchOnMediaTypeMapping: Option<FormatterMatch> := None;
    var bestMatchOnRequestMediaType: Option<FormatterMatch> := None;
    var i := 0;
    while i < |ms|
      invariant 0 <= i <= |ms|
      invariant bestMatchOnType == FirstOf(ms[..i], MatchOnCanWriteType)
      invariant bestMatchOnAcceptHeaderLiteral == BestOf(ms[..i], MatchOnRequestAcceptHeaderLiteral)
      invariant bestMatchOnAcceptHeaderSubtypeMediaRange == BestOf(ms[..i], MatchOnRequestAcceptHeaderSubtypeMediaRange)
      invariant bestMatchOnAcceptHeaderAllMediaRange == BestOf(ms[..i], MatchOnRequestAcceptHeaderAllMediaRange)
      invariant bestMatchOnMediaTypeMapping == BestOf(ms[..i], MatchOnRequestWithMediaTypeMapping)
      invariant bestMatchOnRequestMediaType == FirstOf(ms[..i], MatchOnRequestMediaType)
    {
      var m := ms[i];
      BestOfStep(ms, i, MatchOnRequestWithMediaTypeMapping);
      BestOfStep(ms, i, MatchOnRequestAcceptHeaderLiteral);
      BestOfStep(ms, i, MatchOnRequestAcceptHeaderSubtypeMediaRange);
      BestOfStep(ms, i, MatchOnRequestAcceptHeaderAllMediaRange);
      FirstOfStep(ms, i, MatchOnCanWriteType);
      FirstOfStep(ms, i, MatchOnRequestMediaType);
      match m.ranking {
        case MatchOnCanWriteType =>
          if bestMatchOnType.None? {
            bestMatchOnType := Some(m);
          }
        case MatchOnRequestWithMediaTypeMapping =>
          bestMatchOnMediaTypeMapping := UpdateBestMatch(bestMatchOnMediaTypeMapping, Some(m));
        case MatchOnRequestAcceptHeaderLiteral =>
          bestMatchOnAcceptHeaderLiteral := UpdateBestMatch(bestMatchOnAcceptHeaderLiteral, Some(m));
        case MatchOnRequestAcceptHeaderSubtypeMediaRange =>
          bestMatchOnAcceptHeaderSubtypeMediaRange := UpdateBestMatch(bestMatchOnAcceptHeaderSubtypeMediaRange, Some(m));
        case MatchOnRequestAcceptHeaderAllMediaRange =>
          bestMatchOnAcceptHeaderAllMediaRange := UpdateBestMatch(bestMatchOnAcceptHeaderAllMediaRange, Some(m));
        case MatchOnRequestMediaType =>
          if bestMatchOnRequestMediaType.None? {
            bestMatchOnRequestMediaType := Some(m);
          }
        case NoRanking =>
      }
      i := i + 1;
    }
    assert ms[..|ms|] == ms;

    if bestMatchOnMediaTypeMapping.Some? {
      var mappingOverride := bestMatchOnMediaTypeMapping;
      mappingOverride := UpdateBestMatch(mappingOverride, bestMatchOnAcceptHeaderLiteral);
      mappingOverride := UpdateBestMatch(mappingOverride, bestMatchOnAcceptHeaderSubtypeMediaRange);
      mappingOverride := UpdateBestMatch(mappingOverride, bestMatchOnAcceptHeaderAllMediaRange);
      if mappingOverride != bestMatchOnMediaTypeMapping {
        bestMatchOnMediaTypeMapping := None;
      }
    }

    var bestMatch: Option<FormatterMatch> := None;
    if bestMatchOnMediaTypeMapping.Some? {
      bestMatch := bestMatchOnMediaTypeMapping;
    } else if bestMatchOnAcceptHeaderLiteral.Some? || bestMatchOnAcceptHeaderSubtypeMediaRange.Some?
              || bestMatchOnAcceptHeaderAllMediaRange.Some? {
      bestMatch := UpdateBestMatch(bestMatch, bestMatchOnAcceptHeaderLiteral);
      bestMatch := UpdateBestMatch(bestMatch, bestMatchOnAcceptHeaderSubtypeMediaRange);
      bestMatch := UpdateBestMatch(bestMatch, bestMatchOnAcceptHeaderAllMediaRange);
    } else if bestMatchOnRequestMediaType.Some? {
      bestMatch := bestMatchOnRequestMediaType;
    } else if bestMatchOnType.Some? {
      bestMatch := bestMatchOnType;
    }
    return Ok(bestMatch);
  }

  /** The chosen match is one of the matches, and there is none only when no match has a ranking. */
  lemma {:induction false} SelectedIsOneOfTheMatches(matches: seq<FormatterMatch>)
    ensures Select(matches).Some? ==> Select(matches).value in matches
    ensures Select(matches).None? <==> forall k :: 0 <= k < |matches| ==> matches[k].ranking == NoRanking
  {
    var mapping := BestOf(matches, MatchOnRequestWithMediaTypeMapping);
    var literal := BestOf(matches, MatchOnRequestAcceptHeaderLiteral);
    var subtypeRange := BestOf(matches, MatchOnRequestAcceptHeaderSubtypeMediaRange);
    var allRange := BestOf(matches, MatchOnRequestAcceptHeaderAllMediaRange);
    var requestMediaType := FirstOf(matches, MatchOnRequestMediaType);
    var onType := FirstOf(matches, MatchOnCanWriteType);
    if Select(matches).None? {
      assert mapping.None? && literal.None? && subtypeRange.None? && allRange.None?;
      assert requestMediaType.None? && onType.None?;
    } else {
      assert Select(matches).value in matches by {
        assert Select(matches) in [mapping, literal, subtypeRange, allRange, requestMediaType, onType];
      }
    }
  }

  /** An Accept match: its ranking is one of the three Accept rankings. */
  predicate IsAcceptMatch(m: FormatterMatch)
  {
    IsAcceptRanking(m.ranking)
  }

  /**
   * Mappings take precedence on a tie: when the best mapping match is at
   * least as good as every Accept match, it is the one chosen; when some
   * Accept match is strictly better, the chosen match is an Accept match
   * no Accept match beats.
   */
  lemma {:induction false} MappingWinsTies(matches: seq<FormatterMatch>)
    requires exists k :: 0 <= k < |matches| && matches[k].ranking == MatchOnRequestWithMediaTypeMapping
    ensures (forall k :: 0 <= k < |matches| && IsAcceptMatch(matches[k])
                         ==> matches[k].quality <= BestOf(matches, MatchOnRequestWithMediaTypeMapping).value.quality)
            ==> Select(matches) == BestOf(matches, MatchOnRequestWithMediaTypeMapping)
    ensures (exists k :: 0 <= k < |matches| && IsAcceptMatch(matches[k])
                         && matches[k].quality > BestOf(matches, MatchOnRequestWithMediaTypeMapping).value.quality)
            ==> (&& Select(matches).Some?
                 && IsAcceptMatch(Select(matches).value)
                 && forall k :: 0 <= k < |matches| && IsAcceptMatch(matches[k]) ==> matches[k].quality <= Select(matches).value.quality)
  {
    var mapping := BestOf(matches, MatchOnRequestWithMediaTypeMapping);
    var literal := BestOf(matches, MatchOnRequestAcceptHeaderLiteral);
    var subtypeRange := BestOf(matches, MatchOnRequestAcceptHeaderSubtypeMediaRange);
    var allRange := BestOf(matches, MatchOnRequestAcceptHeaderAllMediaRange);
    var best := BestAccept(literal, subtypeRange, allRange);
    ChooseMapping(mapping, literal, subtypeRange, allRange,
                  FirstOf(matches, MatchOnRequestMediaType), FirstOf(matches, MatchOnCanWriteType));
    if exists k :: 0 <= k < |matches| && IsAcceptMatch(matches[k]) && matches[k].quality > mapping.value.quality {
      var k :| 0 <= k < |matches| && IsAcceptMatch(matches[k]) && matches[k].quality > mapping.value.quality;
      AcceptWinnerAbove(matches, k);
      forall k' | 0 <= k' < |matches| && IsAcceptMatch(matches[k'])
        ensures matches[k'].quality <= best.value.quality
      {
        AcceptWinnerAbove(matches, k');
      }
    } else {
      AcceptWinnersBelow(matches, mapping.value.quality);
    }
  }

  /**
   * Choose keeps the mapping winner unless an Accept winner has a strictly
   * higher quality, and then takes the best Accept winner.
   */
  lemma ChooseMapping(mapping: Option<FormatterMatch>, literal: Option<FormatterMatch>, subtypeRange: Option<FormatterMatch>,
                      allRange: Option<FormatterMatch>, requestMediaType: Option<FormatterMatch>, onType: Option<FormatterMatch>)
    requires mapping.Some?
    ensures (&& (literal.Some? ==> literal.value.quality <= mapping.value.quality)
             && (subtypeRange.Some? ==> subtypeRange.value.quality <= mapping.value.quality)
             && (allRange.Some? ==> allRange.value.quality <= mapping.value.quality))
            ==> Choose(mapping, literal, subtypeRange, allRange, requestMediaType, onType) == mapping
    ensures !(&& (literal.Some? ==> literal.value.quality <= mapping.value.quality)
              && (subtypeRange.Some? ==> subtypeRange.value.quality <= mapping.value.quality)
              && (allRange.Some? ==> allRange.value.quality <= mapping.value.quality))
            ==> Choose(mapping, literal, subtypeRange, allRange, requestMediaType, onType) == BestAccept(literal, subtypeRange, allRange)
  {
    var mappingOverride := UpdateBestMatch(UpdateBestMatch(UpdateBestMatch(mapping, literal), subtypeRange), allRange);
    if mappingOverride == mapping {
      assert mappingOverride.value.quality >= mapping.value.quality;
    }
  }

  /** When no Accept match beats q, neither does any Accept category's winner. */
  lemma AcceptWinnersBelow(matches: seq<FormatterMatch>, q: real)
    requires forall k :: 0 <= k < |matches| && IsAcceptMatch(matches[k]) ==> matches[k].quality <= q
    ensures var literal := BestOf(matches, MatchOnRequestAcceptHeaderLiteral);
      literal.Some? ==> literal.value.quality <= q
    ensures var subtypeRange := BestOf(matches, MatchOnRequestAcceptHeaderSubtypeMediaRange);
      subtypeRange.Some? ==> subtypeRange.value.quality <= q
    ensures var allRange := BestOf(matches, MatchOnRequestAcceptHeaderAllMediaRange);
      allRange.Some? ==> allRange.value.quality <= q
  {
  }

  /** Every Accept match is matched or beaten by the best Accept winner. */
  lemma AcceptWinnerAbove(matches: seq<FormatterMatch>, k: nat)
    requires k < |matches| && IsAcceptMatch(matches[k])
    ensures var best := BestAccept(BestOf(matches, MatchOnRequestAcceptHeaderLiteral),
                                   BestOf(matches, MatchOnRequestAcceptHeaderSubtypeMediaRange),
                                   BestOf(matches, MatchOnRequestAcceptHeaderAllMediaRange));
      && best.Some? && IsAcceptMatch(best.value) && matches[k].quality <= best.value.quality
  {
  }

  /**
   * The categories are tried in order: a request media type match is chosen
   * only when there is no mapping or Accept match, and a match on type only
   * when there is no other kind of match either.
   */
  lemma {:induction false} CategoriesInPrecedenceOrder(matches: seq<FormatterMatch>)
    ensures Select(matches).Some? && Select(matches).value.ranking == MatchOnRequestMediaType ==>
      forall k :: 0 <= k < |matches| ==> matches[k].ranking != MatchOnRequestWithMediaTypeMapping && !IsAcceptMatch(matches[k])
    ensures Select(matches).Some? && Select(matches).value.ranking == MatchOnCanWriteType ==>
      forall k :: 0 <= k < |matches| ==> (&& matches[k].ranking != MatchOnRequestWithMediaTypeMapping
                                         && !IsAcceptMatch(matches[k])
                                         && matches[k].ranking != MatchOnRequestMediaType)
    ensures Select(matches).Some? && Select(matches).value.ranking == MatchOnRequestMediaType ==>
      Select(matches) == FirstOf(matches, MatchOnRequestMediaType)
    ensures Select(matches).Some? && Select(matches).value.ranking == MatchOnCanWriteType ==>
      Select(matches) == FirstOf(matches, MatchOnCanWriteType)
  {
    var mapping := BestOf(matches, MatchOnRequestWithMediaTypeMapping);
    var literal := BestOf(matches, MatchOnRequestAcceptHeaderLiteral);
    var subtypeRange := BestOf(matches, MatchOnRequestAcceptHeaderSubtypeMediaRange);
    var allRange := BestOf(matches, MatchOnRequestAcceptHeaderAllMediaRange);
    var mappingOverride := UpdateBestMatch(UpdateBestMatch(UpdateBestMatch(mapping, literal), subtypeRange), allRange);
    if mapping.Some? && mappingOverride != mapping {
      assert literal.Some? || subtypeRange.Some? || allRange.Some?;
    }
  }

  // ----- Negotiating -----

  /**
   * What Negotiate computes once its arguments are given: no formatters means
   * no result; otherwise the chosen match's formatter with its media type,
   * whose charset is set to the encoding the formatter selects.
   */
  function Negotiation<T>(negotiator: DefaultContentNegotiator, objectType: T, request: Request,
                          formatters: seq<MediaTypeFormatter>, canWriteType: (MediaTypeFormatter, T) -> bool)
    : (r: Result<Option<(MediaTypeFormatter, MediaTypeHeaderValue)>>)
    ensures formatters == [] ==> r == Ok(None)
    ensures r.Ok? && r.value.Some? ==>
      var (formatter, mediaType) := r.value.value;
      && formatter in formatters
      && canWriteType(formatter, objectType)
      && CharSet(mediaType).Some?
      && CharSet(mediaType).value in formatter.supportedEncodings
  {
    if formatters == [] then Ok(None)
    else
      var matches :- ComputeMatches(negotiator, objectType, request, formatters, canWriteType);
      SelectedIsOneOfTheMatches(matches);
      match Select(matches)
        case None => Ok(None)
        case Some(best) =>
          assert Complete(best, best.formatter.value);
          var encoding :- SelectCharacterEncoding(best.formatter.value, Some(request));
          Ok(Some((best.formatter.value, WithCharSet(best.mediaType.value, encoding))))
  }

  /**
   * Negotiate: the argument checks, then the computation above; the result
   * object is new and holds the per-request formatter instance.
   */
  method Negotiate<T>(negotiator: DefaultContentNegotiator, objectType: Option<T>, request: Option<Request>,
                      formatters: Option<seq<MediaTypeFormatter>>, canWriteType: (MediaTypeFormatter, T) -> bool)
    returns (r: Result<Option<CNR.ContentNegotiationResult>>)
    ensures objectType.None? ==> r == Err(ArgumentNull("type"))
    ensures objectType.Some? && request.None? ==> r == Err(ArgumentNull("request"))
    ensures objectType.Some? && request.Some? && formatters.None? ==> r == Err(ArgumentNull("formatters"))
    ensures objectType.Some? && request.Some? && formatters.Some? ==>
      var expected := Negotiation(negotiator, objectType.value, request.value, formatters.value, canWriteType);
      && (expected.Err? ==> r == Err(expected.error))
      && (expected == Ok(None) ==> r == Ok(None))
      && (expected.Ok? && expected.value.Some? ==>
            && r.Ok? && r.value.Some? && fresh(r.value.value)
            && r.value.value.formatter == expected.value.value.0
            && r.value.value.mediaType == Some(expected.value.value.1))
  {
    if objectType.None? {
      return Err(ArgumentNull("type"));
    }
    if request.None? {
      return Err(ArgumentNull("request"));
    }
    if formatters.None? {
      return Err(ArgumentNull("formatters"));
    }
    ghost var expected := Negotiation(negotiator, objectType.value, request.value, formatters.value, canWriteType);
    if formatters.value == [] {
      return Ok(None);
    }
    var matches := ComputeFormatterMatches(negotiator, objectType, request, formatters, canWriteType);
    if matches.Err? {
      assert expected == Err(matches.error);
      return Err(matches.error);
    }
    var bestFormatterMatch := SelectResponseMediaTypeFormatter(Some(matches.value));
    SelectedIsOneOfTheMatches(matches.value);
    if bestFormatterMatch.value.None? {
      assert expected == Ok(None);
      return Ok(None);
    }
    var best := bestFormatterMatch.value.value;
    assert Complete(best, best.formatter.value);
    var bestEncodingMatch := SelectCharacterEncoding(best.formatter.value, request);
    if bestEncodingMatch.Err? {
      assert expected == Err(bestEncodingMatch.error);
      return Err(bestEncodingMatch.error);
    }
    assert expected == Ok(Some((best.formatter.value, WithCharSet(best.mediaType.value, bestEncodingMatch.value))));
    var bestMediaType := WithCharSet(best.mediaType.value, bestEncodingMatch.value);
    var bestFormatter := GetPerRequestFormatterInstance(best.formatter.value, objectType, request, Some(bestMediaType));
    var result := CNR.New(Some(bestFormatter.value), Some(bestMediaType));
    return Ok(Some(result.value));
  }

  /** Unless matching on type alone is excluded, every formatter that can write the type yields a match. */
  lemma {:induction false} WritableFormatterAlwaysMatches<T>(negotiator: DefaultContentNegotiator, objectType: T, request: Request,
                                                            formatters: seq<MediaTypeFormatter>, canWriteType: (MediaTypeFormatter, T) -> bool, j: int)
    requires !negotiator.excludeMatchOnTypeOnly
    requires 0 <= j < |formatters| && canWriteType(formatters[j], objectType)
    requires ComputeMatches(negotiator, objectType, request, formatters, canWriteType).Ok?
    ensures |ComputeMatches(negotiator, objectType, request, formatters, canWriteType).value| > 0
    decreases |formatters|
  {
    var init := formatters[..|formatters| - 1];
    if j < |formatters| - 1 {
      assert init[j] == formatters[j];
      WritableFormatterAlwaysMatches(negotiator, objectType, request, init, canWriteType, j);
    }
  }

  /** Without the exclusion, negotiation over a formatter that can write the type never comes back empty. */
  lemma {:induction false} NegotiatesWhenTypeMatchAllowed<T>(negotiator: DefaultContentNegotiator, objectType: T, request: Request,
                                                             formatters: seq<MediaTypeFormatter>, canWriteType: (MediaTypeFormatter, T) -> bool, j: int)
    requires !negotiator.excludeMatchOnTypeOnly
    requires 0 <= j < |formatters| && canWriteType(formatters[j], objectType)
    ensures Negotiation(negotiator, objectType, request, formatters, canWriteType) != Ok(None)
  {
    var matches := ComputeMatches(negotiator, objectType, request, formatters, canWriteType);
    if matches.Ok? {
      WritableFormatterAlwaysMatches(negotiator, objectType, request, formatters, canWriteType, j);
      SelectedIsOneOfTheMatches(matches.value);
      assert Complete(matches.value[0], matches.value[0].formatter.value);
    }
  }

  /**
   * With matching on type alone excluded, a request with no Accept values
   * and no content type matches no formatter without mappings: the result is
   * empty, the case that becomes 406 Not Acceptable.
   */
  lemma {:induction false} NothingMatchesWithoutHints<T>(negotiator: DefaultContentNegotiator, objectType: T, request: Request,
                                                         formatters: seq<MediaTypeFormatter>, canWriteType: (MediaTypeFormatter, T) -> bool)
    requires negotiator.excludeMatchOnTypeOnly
    requires request.acceptHeaders == [] && request.contentType.None?
    requires forall k :: 0 <= k < |formatters| ==> formatters[k].mediaTypeMappings == []
    ensures ComputeMatches(negotiator, objectType, request, formatters, canWriteType) == Ok([])
    ensures Negotiation(negotiator, objectType, request, formatters, canWriteType) == Ok(None)
    decreases |formatters|
  {
    if formatters != [] {
      var init := formatters[..|formatters| - 1];
      NothingMatchesWithoutHints(negotiator, objectType, request, init, canWriteType);
      var f := formatters[|formatters| - 1];
      assert SortedAccept(request) == [];
      assert MatchMediaTypeMapping(Some(request), Some(f)) == Ok(None);
      assert MatchFormatter(negotiator, objectType, request, SortedAccept(request), f, canWriteType) == Ok(None);
      SelectedIsOneOfTheMatches([]);
    }
  }
}
