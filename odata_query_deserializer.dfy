/**
 * The OData query deserializer: the $filter, $orderby, $skip and $top
 * options of a query string become structured query parts, ordered
 * filter, orderby, skip, top, and are applied to a query left to right.
 */
module ODataQueryDeserializer {
  import opened Common
  import opened ClrTypes
  import opened QueryExpressions
  import opened NameValues
  import opened DynamicQueryable
  import opened StructuredQueryParts

  /** IsSupportedQueryOperator: the four options the deserializer knows. */
  predicate IsSupportedQueryOperator(queryOperator: string)
  {
    queryOperator == "filter" || queryOperator == "orderby" || queryOperator == "skip" || queryOperator == "top"
  }

  /** The place of a supported operator in the alphabetical order of the four names. */
  function OperatorRank(queryOperator: string): (r: nat)
    requires IsSupportedQueryOperator(queryOperator)
    ensures r < 4
  {
    match queryOperator
      case "filter" => 0
      case "orderby" => 1
      case "skip" => 2
      case _ => 3
  }

  // ---------------------------------------------------------------------------
  // Extracting the parts

  /** The parts of the values of one option: one per value, in order, when its operator is supported; none otherwise. */
  function PartsOfValues(queryOperator: string, values: seq<string>): (r: seq<StructuredQueryPart>)
    ensures IsSupportedQueryOperator(queryOperator) ==>
      |r| == |values| && forall i :: 0 <= i < |r| ==> r[i] == StructuredQueryPart(queryOperator, values[i])
    ensures !IsSupportedQueryOperator(queryOperator) ==> r == []
  {
    if values == [] then []
    else
      var n := |values| - 1;
      PartsOfValues(queryOperator, values[..n])
      + (if IsSupportedQueryOperator(queryOperator) then [StructuredQueryPart(queryOperator, values[n])] else [])
  }

  /**
   * The parts of one key of the query string: none for a null key or one
   * not starting with '$'; otherwise the parts of its values under the key
   * without the '$', a key without values being a null-reference error.
   */
  function PartsOfKey(c: NameValueCollection, key: Option<string>): (r: Result<seq<StructuredQueryPart>>)
    ensures (key.None? || key.value == [] || key.value[0] != '$') ==> r == Ok([])
    ensures r.Ok? ==> forall p :: p in r.value ==> IsSupportedQueryOperator(p.queryOperator)
  {
    if key.None? || key.value == [] || key.value[0] != '$' then Ok([])
    else
      var values := GetValues(c, key);
      if values.None? then Err(NullReference)
      else Ok(PartsOfValues(key.value[1..], values.value))
  }

  /** The parts of the keys, in key order; the first failing key's error. */
  function PartsOfKeys(c: NameValueCollection, keys: seq<Option<string>>): (r: Result<seq<StructuredQueryPart>>)
    ensures r.Ok? ==> forall p :: p in r.value ==> IsSupportedQueryOperator(p.queryOperator)
  {
    if keys == [] then Ok([])
    else
      var n := |keys| - 1;
      var before :- PartsOfKeys(c, keys[..n]);
      var last :- PartsOfKey(c, keys[n]);
      Ok(before + last)
  }

  /** The selector of the sort: the parts of one operator. */
  function OperatorIs(queryOperator: string): StructuredQueryPart -> bool
  {
    (p: StructuredQueryPart) => p.queryOperator == queryOperator
  }

  /**
   * OrderBy(p => p.QueryOperator) over parts of the four operators: a
   * stable sort, so the parts of each operator keep their order.
   */
  function SortParts(parts: seq<StructuredQueryPart>): (r: seq<StructuredQueryPart>)
  {
    Filter(parts, OperatorIs("filter")) + Filter(parts, OperatorIs("orderby"))
    + Filter(parts, OperatorIs("skip")) + Filter(parts, OperatorIs("top"))
  }

  /** The structured query of a query string: its parts, sorted by operator. */
  function StructuredQueryOf(c: NameValueCollection): (r: Result<seq<StructuredQueryPart>>)
  {
    var parts :- PartsOfKeys(c, AllKeys(c));
    Ok(SortParts(parts))
  }

  /**
   * GetStructuredQuery(NameValueCollection): a null collection is an
   * argument-null error; otherwise each key starting with '$' gives one
   * part per value for the four supported operators, and the parts are
   * sorted by operator.
   */
  method GetStructuredQuery(queryString: Option<NameValueCollection>) returns (r: Result<seq<StructuredQueryPart>>)
    ensures queryString.None? ==> r == Err(ArgumentNull("queryString"))
    ensures queryString.Some? ==> r == StructuredQueryOf(queryString.value)
  {
    if queryString.None? {
      return Err(ArgumentNull("queryString"));
    }
    var c := queryString.value;
    var keys := AllKeys(c);
    var parts: seq<StructuredQueryPart> := [];
    for i := 0 to |keys|
      invariant PartsOfKeys(c, keys[..i]) == Ok(parts)
    {
      PartsOfKeysStep(c, keys, i);
      var next := AddKeyParts(c, keys[i], parts);
      if next.Err? {
        PrefixErrorStays(c, keys, i + 1);
        return Err(next.error);
      }
      parts := next.value;
    }
    assert keys[..|keys|] == keys;
    r := Ok(SortParts(parts));
  }

  /** The parts of one more key: those of the keys before it, then its own. */
  lemma PartsOfKeysStep(c: NameValueCollection, keys: seq<Option<string>>, i: nat)
    requires i < |keys|
    ensures PartsOfKeys(c, keys[..i + 1])
         == (var before := PartsOfKeys(c, keys[..i]);
             if before.Err? then before
             else var own := PartsOfKey(c, keys[i]); if own.Err? then own else Ok(before.value + own.value))
  {
    assert keys[..i + 1][..i] == keys[..i];
  }

  /** Once the keys so far fail, the whole key list fails with that error. */
  lemma {:induction false} PrefixErrorStays(c: NameValueCollection, keys: seq<Option<string>>, i: nat)
    requires i <= |keys| && PartsOfKeys(c, keys[..i]).Err?
    ensures PartsOfKeys(c, keys) == PartsOfKeys(c, keys[..i])
    decreases |keys| - i
  {
    if i < |keys| {
      PartsOfKeysStep(c, keys, i);
      PrefixErrorStays(c, keys, i + 1);
    } else {
      assert keys[..i] == keys;
    }
  }

  /** The body of the outer loop of GetStructuredQuery: the parts of one key added to those so far. */
  method AddKeyParts(c: NameValueCollection, queryPart: Option<string>, parts: seq<StructuredQueryPart>)
    returns (r: Result<seq<StructuredQueryPart>>)
    ensures var k := PartsOfKey(c, queryPart);
      && (k.Ok? ==> r == Ok(parts + k.value))
      && (k.Err? ==> r == Err(k.error))
  {
    if queryPart.None? || queryPart.value == [] || queryPart.value[0] != '$' {
      assert parts + [] == parts;
      return Ok(parts);
    }
    var values := GetValues(c, queryPart);
    if values.None? {
      return Err(NullReference);
    }
    var queryOperator := queryPart.value[1..];
    var added := parts;
    for j := 0 to |values.value|
      invariant added == parts + PartsOfValues(queryOperator, values.value[..j])
    {
      assert values.value[..j + 1][..j] == values.value[..j];
      if !IsSupportedQueryOperator(queryOperator) {
        continue;
      }
      added := added + [StructuredQueryPart(queryOperator, values.value[j])];
    }
    assert values.value[..|values.value|] == values.value;
    r := Ok(added);
  }

  /** Every part of a structured query is of a supported operator. */
  lemma {:induction false} SortedPartsAreSupported(parts: seq<StructuredQueryPart>)
    ensures forall p :: p in SortParts(parts) ==> p in parts && IsSupportedQueryOperator(p.queryOperator)
  {
    forall p | p in SortParts(parts) ensures p in parts && IsSupportedQueryOperator(p.queryOperator) {
      FilterMembership(parts, OperatorIs("filter"), p);
      FilterMembership(parts, OperatorIs("orderby"), p);
      FilterMembership(parts, OperatorIs("skip"), p);
      FilterMembership(parts, OperatorIs("top"), p);
    }
  }

  /** The parts in the order filter, orderby, skip, top. */
  predicate InOperatorOrder(parts: seq<StructuredQueryPart>)
  {
    && (forall p :: p in parts ==> IsSupportedQueryOperator(p.queryOperator))
    && forall i, j :: 0 <= i < j < |parts| ==> OperatorRank(parts[i].queryOperator) <= OperatorRank(parts[j].queryOperator)
  }

  /** A block of parts all of one operator. */
  predicate AllOf(parts: seq<StructuredQueryPart>, queryOperator: string)
  {
    forall p :: p in parts ==> p.queryOperator == queryOperator
  }

  lemma FilterIsAllOf(parts: seq<StructuredQueryPart>, queryOperator: string)
    ensures AllOf(Filter(parts, OperatorIs(queryOperator)), queryOperator)
  {
    forall p | p in Filter(parts, OperatorIs(queryOperator)) ensures p.queryOperator == queryOperator {
      FilterMembership(parts, OperatorIs(queryOperator), p);
    }
  }

  /** Every part is of a supported operator ranked at most bound. */
  predicate RanksAtMost(parts: seq<StructuredQueryPart>, bound: nat)
  {
    forall p :: p in parts ==> IsSupportedQueryOperator(p.queryOperator) && OperatorRank(p.queryOperator) <= bound
  }

  /** A block of a later operator after parts in order keeps them in order. */
  lemma AppendBlock(parts: seq<StructuredQueryPart>, block: seq<StructuredQueryPart>, queryOperator: string, below: nat, upTo: nat)
    requires IsSupportedQueryOperator(queryOperator) && below <= OperatorRank(queryOperator) <= upTo
    requires InOperatorOrder(parts) && RanksAtMost(parts, below) && AllOf(block, queryOperator)
    ensures InOperatorOrder(parts + block) && RanksAtMost(parts + block, upTo)
  {
    var s := parts + block;
    forall i, j | 0 <= i < j < |s| ensures OperatorRank(s[i].queryOperator) <= OperatorRank(s[j].queryOperator) {
      if j >= |parts| {
        assert s[j] in block;
        if i < |parts| {
          assert s[i] in parts;
        } else {
          assert s[i] in block;
        }
      }
    }
  }

  /**
   * The sort puts any mix of the four operators in the order filter,
   * orderby, skip, top.
   */
  lemma SortPartsInOperatorOrder(parts: seq<StructuredQueryPart>)
    ensures InOperatorOrder(SortParts(parts))
  {
    var f := Filter(parts, OperatorIs("filter"));
    var o := Filter(parts, OperatorIs("orderby"));
    var s := Filter(parts, OperatorIs("skip"));
    var t := Filter(parts, OperatorIs("top"));
    FilterIsAllOf(parts, "filter");
    FilterIsAllOf(parts, "orderby");
    FilterIsAllOf(parts, "skip");
    FilterIsAllOf(parts, "top");
    assert [] + f == f;
    AppendBlock([], f, "filter", 0, 0);
    AppendBlock(f, o, "orderby", 0, 1);
    AppendBlock(f + o, s, "skip", 1, 2);
    AppendBlock(f + o + s, t, "top", 2, 3);
  }

  /** Filtering a list with one more part: the filtered list, then that part if it is of the operator. */
  lemma FilterSnoc(parts: seq<StructuredQueryPart>, op: string)
    requires parts != []
    ensures var n := |parts| - 1;
      Filter(parts, OperatorIs(op)) == Filter(parts[..n], OperatorIs(op)) + (if parts[n].queryOperator == op then [parts[n]] else [])
  {
  }

  /** A filtered list holds each element as often as the list does when the filter keeps it, and never otherwise. */
  lemma {:induction false} FilterCount(parts: seq<StructuredQueryPart>, op: string, x: StructuredQueryPart)
    ensures multiset(Filter(parts, OperatorIs(op)))[x] == if x.queryOperator == op then multiset(parts)[x] else 0
    decreases |parts|
  {
    if parts == [] {
      assert Filter(parts, OperatorIs(op)) == [];
    } else {
      var n := |parts| - 1;
      FilterSnoc(parts, op);
      FilterCount(parts[..n], op, x);
      PrefixThenLast(parts);
      assert multiset(parts) == multiset(parts[..n]) + multiset{parts[n]};
    }
  }

  /** Sorting parts of the four operators loses and adds none: the result is a permutation. */
  lemma SortPartsIsPermutation(parts: seq<StructuredQueryPart>)
    requires forall p :: p in parts ==> IsSupportedQueryOperator(p.queryOperator)
    ensures multiset(SortParts(parts)) == multiset(parts)
  {
    forall x ensures multiset(SortParts(parts))[x] == multiset(parts)[x] {
      FilterCount(parts, "filter", x);
      FilterCount(parts, "orderby", x);
      FilterCount(parts, "skip", x);
      FilterCount(parts, "top", x);
      if !IsSupportedQueryOperator(x.queryOperator) {
        assert x !in parts;
      }
    }
  }

  /**
   * The structured query is the extracted parts in operator order, a
   * permutation of them, each of a supported operator.
   */
  lemma StructuredQueryOrder(c: NameValueCollection)
    requires StructuredQueryOf(c).Ok?
    ensures InOperatorOrder(StructuredQueryOf(c).value)
    ensures multiset(StructuredQueryOf(c).value) == multiset(PartsOfKeys(c, AllKeys(c)).value)
  {
    var parts := PartsOfKeys(c, AllKeys(c)).value;
    SortPartsInOperatorOrder(parts);
    SortPartsIsPermutation(parts);
  }

  /** The only key of a one-entry collection, starting with '$', gives the parts of its values. */
  lemma OneKeyParts(queryOperator: string, values: seq<string>)
    requires values != []
    ensures var c := NameValueCollection([Entry(Some("$" + queryOperator), values)]);
      PartsOfKeys(c, AllKeys(c)) == Ok(PartsOfValues(queryOperator, values))
  {
    var c := NameValueCollection([Entry(Some("$" + queryOperator), values)]);
    var key := Some("$" + queryOperator);
    assert AllKeys(c) == [key];
    EqualsIgnoreCaseIsEquivalence(key.value, key.value, key.value);
    assert IndexOfKey(c.entries, key) == 0;
    assert key.value[1..] == queryOperator;
    assert [key][..0] == [];
    assert [] + PartsOfValues(queryOperator, values) == PartsOfValues(queryOperator, values);
  }

  /** Parts all of one supported operator are already sorted. */
  lemma SortOneOperator(parts: seq<StructuredQueryPart>, queryOperator: string)
    requires IsSupportedQueryOperator(queryOperator) && AllOf(parts, queryOperator)
    ensures SortParts(parts) == parts
  {
    FilterOfOneOperator(parts, queryOperator, "filter");
    FilterOfOneOperator(parts, queryOperator, "orderby");
    FilterOfOneOperator(parts, queryOperator, "skip");
    FilterOfOneOperator(parts, queryOperator, "top");
  }

  /** A single option repeated with several values gives one part per value, in order. */
  lemma RepeatedOption(queryOperator: string, values: seq<string>)
    requires IsSupportedQueryOperator(queryOperator) && values != []
    ensures StructuredQueryOf(NameValueCollection([Entry(Some("$" + queryOperator), values)]))
         == Ok(seq(|values|, i requires 0 <= i < |values| => StructuredQueryPart(queryOperator, values[i])))
  {
    OneKeyParts(queryOperator, values);
    var parts := PartsOfValues(queryOperator, values);
    assert AllOf(parts, queryOperator);
    SortOneOperator(parts, queryOperator);
    assert parts == seq(|values|, i requires 0 <= i < |values| => StructuredQueryPart(queryOperator, values[i]));
  }

  /** Filtering parts of one operator keeps all of them for that operator and none for another. */
  lemma {:induction false} FilterOfOneOperator(parts: seq<StructuredQueryPart>, queryOperator: string, op: string)
    requires AllOf(parts, queryOperator)
    ensures Filter(parts, OperatorIs(op)) == (if op == queryOperator then parts else [])
    decreases |parts|
  {
    if parts != [] {
      var n := |parts| - 1;
      assert parts == parts[..n] + [parts[n]];
      assert parts[n] in parts;
      FilterOfOneOperator(parts[..n], queryOperator, op);
    }
  }

  // ---------------------------------------------------------------------------
  // Applying the parts

  /**
   * ApplyTo: an unsupported operator is an argument error; a supported one
   * is applied as StructuredQueryPart.ApplyTo applies it.
   */
  function ApplyTo(query: Query, part: StructuredQueryPart, host: Host): (r: Result<Query>)
    ensures !IsSupportedQueryOperator(part.queryOperator) ==> r == Err(Argument("queryOperator"))
    ensures IsSupportedQueryOperator(part.queryOperator) ==> r == ApplyPart(part, query, host)
  {
    if !IsSupportedQueryOperator(part.queryOperator) then Err(Argument("queryOperator"))
    else ApplyPart(part, query, host)
  }

  /** The parts applied left to right, each to the query the one before produced; the first error stops it. */
  function ApplyAll(query: Query, parts: seq<StructuredQueryPart>, host: Host): (r: Result<Query>)
    decreases |parts|
  {
    if parts == [] then Ok(query)
    else
      var next :- ApplyTo(query, parts[0], host);
      ApplyAll(next, parts[1..], host)
  }

  /** A single supported part: ApplyAll is that part applied. */
  lemma ApplyAllSingle(query: Query, part: StructuredQueryPart, host: Host)
    requires IsSupportedQueryOperator(part.queryOperator)
    ensures ApplyAll(query, [part], host) == ApplyPart(part, query, host)
  {
    assert [part][1..] == [];
  }

  /** Two supported parts, the first applying: the second applied to the result of the first. */
  lemma ApplyAllPair(query: Query, first: StructuredQueryPart, second: StructuredQueryPart, host: Host, mid: Query)
    requires IsSupportedQueryOperator(first.queryOperator) && IsSupportedQueryOperator(second.queryOperator)
    requires ApplyPart(first, query, host) == Ok(mid)
    ensures ApplyAll(query, [first, second], host) == ApplyPart(second, mid, host)
  {
    assert [first, second][1..] == [second];
    ApplyAllSingle(mid, second, host);
  }

  /** Applying parts never changes the provider or the element type of the query. */
  lemma {:induction false} ApplyAllKeepsElementType(query: Query, parts: seq<StructuredQueryPart>, host: Host)
    requires ApplyAll(query, parts, host).Ok?
    ensures ApplyAll(query, parts, host).value.provider == query.provider
    ensures ApplyAll(query, parts, host).value.elementType == query.elementType
    decreases |parts|
  {
    if parts != [] {
      var next := ApplyTo(query, parts[0], host).value;
      ApplyAllKeepsElementType(next, parts[1..], host);
    }
  }

  /** Applying a + b is applying a, then b to its result. */
  lemma {:induction false} ApplyAllAppend(query: Query, a: seq<StructuredQueryPart>, b: seq<StructuredQueryPart>, host: Host)
    ensures ApplyAll(query, a + b, host)
         == (var q := ApplyAll(query, a, host); if q.Err? then q else ApplyAll(q.value, b, host))
    decreases |a|
  {
    if a != [] {
      assert (a + b)[1..] == a[1..] + b;
      var next := ApplyTo(query, a[0], host);
      if next.Ok? {
        ApplyAllAppend(next.value, a[1..], b, host);
      }
    } else {
      assert a + b == b;
    }
  }

  /**
   * Deserialize(query, parts): a null query or part list is an
   * argument-null error; otherwise the parts applied left to right.
   */
  method DeserializeParts(query: Option<Query>, queryParts: Option<seq<StructuredQueryPart>>, host: Host)
    returns (r: Result<Query>)
    ensures query.None? ==> r == Err(ArgumentNull("query"))
    ensures query.Some? && queryParts.None? ==> r == Err(ArgumentNull("queryParts"))
    ensures query.Some? && queryParts.Some? ==> r == ApplyAll(query.value, queryParts.value, host)
  {
    if query.None? {
      return Err(ArgumentNull("query"));
    }
    if queryParts.None? {
      return Err(ArgumentNull("queryParts"));
    }
    var parts := queryParts.value;
    var q := query.value;
    for i := 0 to |parts|
      invariant ApplyAll(q, parts[i..], host) == ApplyAll(query.value, parts, host)
    {
      assert parts[i..][1..] == parts[i + 1..];
      var next := ApplyTo(q, parts[i], host);
      if next.Err? {
        return Err(next.error);
      }
      q := next.value;
    }
    r := Ok(q);
  }

  /** A request URI, by the query component the deserializer reads. */
  datatype Uri = Uri(query: string)

  /**
   * GetStructuredQuery(Uri): a null URI is an argument-null error;
   * otherwise the structured query of its query component as the host's
   * query-string parser reads it.
   */
  method GetStructuredQueryOfUri(uri: Option<Uri>, parseQueryString: string -> NameValueCollection)
    returns (r: Result<seq<StructuredQueryPart>>)
    ensures uri.None? ==> r == Err(ArgumentNull("uri"))
    ensures uri.Some? ==> r == StructuredQueryOf(parseQueryString(uri.value.query))
  {
    if uri.None? {
      return Err(ArgumentNull("uri"));
    }
    r := GetStructuredQuery(Some(parseQueryString(uri.value.query)));
  }

  /**
   * Deserialize(query, uri): null checks on the query and then the URI,
   * then the URI's structured query applied to the query.
   */
  method Deserialize(query: Option<Query>, uri: Option<Uri>, parseQueryString: string -> NameValueCollection, host: Host)
    returns (r: Result<Query>)
    ensures query.None? ==> r == Err(ArgumentNull("query"))
    ensures query.Some? && uri.None? ==> r == Err(ArgumentNull("uri"))
    ensures query.Some? && uri.Some? ==>
      var parts := StructuredQueryOf(parseQueryString(uri.value.query));
      && (parts.Err? ==> r == Err(parts.error))
      && (parts.Ok? ==> r == ApplyAll(query.value, parts.value, host))
  {
    if query.None? {
      return Err(ArgumentNull("query"));
    }
    if uri.None? {
      return Err(ArgumentNull("uri"));
    }
    var parts :- GetStructuredQueryOfUri(uri, parseQueryString);
    r := DeserializeParts(query, Some(parts), host);
  }

  /**
   * Deserialize(elementType, uri): null checks on the type and then the
   * URI, then the URI's structured query applied to an empty array of the
   * element type as a queryable (of the LINQ-to-objects provider given).
   * A result always has that element type.
   */
  method DeserializeOfType(elementType: Option<ClrType>, uri: Option<Uri>, parseQueryString: string -> NameValueCollection,
                           host: Host, arrayProvider: Provider)
    returns (r: Result<Query>)
    ensures elementType.None? ==> r == Err(ArgumentNull("elementType"))
    ensures elementType.Some? && uri.None? ==> r == Err(ArgumentNull("uri"))
    ensures elementType.Some? && uri.Some? ==>
      var parts := StructuredQueryOf(parseQueryString(uri.value.query));
      && (parts.Err? ==> r == Err(parts.error))
      && (parts.Ok? ==> r == ApplyAll(SourceQuery(arrayProvider, EmptyArray(elementType.value)), parts.value, host))
    ensures r.Ok? ==> elementType.Some? && r.value.elementType == elementType.value
  {
    if elementType.None? {
      return Err(ArgumentNull("elementType"));
    }
    if uri.None? {
      return Err(ArgumentNull("uri"));
    }
    var parts :- GetStructuredQueryOfUri(uri, parseQueryString);
    var source := SourceQuery(arrayProvider, EmptyArray(elementType.value));
    r := DeserializeParts(Some(source), Some(parts), host);
    if r.Ok? {
      ApplyAllKeepsElementType(source, parts, host);
    }
  }
}
