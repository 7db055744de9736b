/**
 * A mapping that selects a media type when the query string carries a
 * given parameter with a given value, both compared ignoring case.
 */
module QueryStringMapping {
  import opened Common
  import opened MediaTypes
  import NameValues
  import MediaTypeMapping

  datatype QueryStringMapping = QueryStringMapping(queryStringParameterName: string, queryStringParameterValue: string, mediaType: MediaTypeHeaderValue)

  /** Initialize: null or blank name or value is rejected; both are stored trimmed. */
  function Initialize(name: Option<string>, value: Option<string>): (r: Result<(string, string)>)
    ensures IsNullOrWhiteSpace(name) ==> r == Err(ArgumentNull("queryStringParameterName"))
    ensures !IsNullOrWhiteSpace(name) && IsNullOrWhiteSpace(value) ==> r == Err(ArgumentNull("queryStringParameterValue"))
    ensures r.Ok? ==> name.Some? && value.Some? && r.value == (Trim(name.value), Trim(value.value))
  {
    if IsNullOrWhiteSpace(name) then Err(ArgumentNull("queryStringParameterName"))
    else if IsNullOrWhiteSpace(value) then Err(ArgumentNull("queryStringParameterValue"))
    else Ok((Trim(name.value), Trim(value.value)))
  }

  /** The constructor taking a media type value: the base guard first, then Initialize. */
  function New(name: Option<string>, value: Option<string>, mediaType: Option<MediaTypeHeaderValue>): (r: Result<QueryStringMapping>)
    ensures mediaType.None? ==> r == Err(ArgumentNull("mediaType"))
    ensures mediaType.Some? ==> match Initialize(name, value)
      case Ok(nv) => r == Ok(QueryStringMapping(nv.0, nv.1, mediaType.value))
      case Err(e) => r == Err(e)
  {
    var m :- MediaTypeMapping.MediaTypeArgument(mediaType);
    var nv :- Initialize(name, value);
    Ok(QueryStringMapping(nv.0, nv.1, m))
  }

  /** The constructor taking a media type string. */
  function NewFromString(name: Option<string>, value: Option<string>, mediaType: Option<string>): (r: Result<QueryStringMapping>)
    ensures MediaTypeMapping.MediaTypeStringArgument(mediaType).Err? ==> r.Err? && r.error == MediaTypeMapping.MediaTypeStringArgument(mediaType).error
    ensures r.Ok? ==> Initialize(name, value) == Ok((r.value.queryStringParameterName, r.value.queryStringParameterValue))
  {
    var m :- MediaTypeMapping.MediaTypeStringArgument(mediaType);
    var nv :- Initialize(name, value);
    Ok(QueryStringMapping(nv.0, nv.1, m))
  }

  /** Some key in keys names the parameter and the collection's value for that key equals the expected value. */
  predicate KeyMatches(queryString: NameValues.NameValueCollection, key: Option<string>, name: string, value: string)
  {
    key.Some? && EqualsIgnoreCase(key.value, name) &&
    var a := NameValues.Get(queryString, key);
    a.Some? && EqualsIgnoreCase(a.value, value)
  }

  /** The search over AllKeys with early return. */
  function AnyKeyMatches(queryString: NameValues.NameValueCollection, keys: seq<Option<string>>, name: string, value: string): (r: bool)
    ensures r <==> exists i :: 0 <= i < |keys| && KeyMatches(queryString, keys[i], name, value)
  {
    if keys == [] then false
    else if KeyMatches(queryString, keys[0], name, value) then true
    else
      var r := AnyKeyMatches(queryString, keys[1..], name, value);
      assert forall i :: 1 <= i < |keys| ==> keys[i] == keys[1..][i - 1];
      r
  }

  /** DoesQueryStringMatch: false for a null query string. */
  function DoesQueryStringMatch(m: QueryStringMapping, queryString: Option<NameValues.NameValueCollection>): (r: bool)
    ensures queryString.None? ==> !r
    ensures queryString.Some? ==>
      (r <==> (exists i :: 0 <= i < |queryString.value.entries| &&
                 KeyMatches(queryString.value, queryString.value.entries[i].key, m.queryStringParameterName, m.queryStringParameterValue)))
  {
    queryString.Some? &&
    AnyKeyMatches(queryString.value, NameValues.AllKeys(queryString.value), m.queryStringParameterName, m.queryStringParameterValue)
  }

  function OnTryMatchRequest(m: QueryStringMapping, request: Request): (q: real)
    ensures q == 1.0 <==> DoesQueryStringMatch(m, request.queryString)
    ensures q == 0.0 || q == 1.0
  {
    if !DoesQueryStringMatch(m, request.queryString) then 0.0 else 1.0
  }

  /** The response variant reads the query string of the request the response answers. */
  function OnTryMatchResponse(m: QueryStringMapping, response: Response): (q: real)
    requires response.requestMessage.Some?
    ensures q == OnTryMatchRequest(m, response.requestMessage.value)
  {
    if !DoesQueryStringMatch(m, response.requestMessage.value.queryString) then 0.0 else 1.0
  }

  /** A query string holding the parameter (any case) with the value (any case) selects the mapping. */
  lemma {:induction false} AddedParameterMatches(m: QueryStringMapping, request: Request, key: string, value: string)
    requires request.queryString.Some? && NameValues.Valid(request.queryString.value)
    requires NameValues.IndexOfKey(request.queryString.value.entries, Some(key)) == -1
    requires EqualsIgnoreCase(key, m.queryStringParameterName) && EqualsIgnoreCase(value, m.queryStringParameterValue)
    ensures OnTryMatchRequest(m, request.(queryString := Some(NameValues.Add(request.queryString.value, Some(key), Some(value))))) == 1.0
  {
    var c := request.queryString.value;
    var c2 := NameValues.Add(c, Some(key), Some(value));
    var n := |c.entries|;
    assert c2.entries == c.entries + [NameValues.Entry(Some(key), [value])];
    assert c2.entries[n].key == Some(key);
    assert NameValues.IndexOfKey(c2.entries, Some(key)) == n;
    assert NameValues.Get(c2, Some(key)) == Some(value);
    assert KeyMatches(c2, c2.entries[n].key, m.queryStringParameterName, m.queryStringParameterValue);
  }
}
