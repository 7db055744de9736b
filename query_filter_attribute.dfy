/**
 * The paging and inline-count helpers of the data query filter: spotting
 * a trailing Skip/Take page on a query, the count query without it, the
 * total count the filter reports, and whether the request asks for it
 * ($inlinecount=allpages).
 */
module QueryFilter {
  import opened Common
  import opened ClrTypes
  import opened QueryExpressions
  import opened NameValues
  import opened DynamicQueryable

  /** The HttpContext.Items key the total count is stored under. */
  const TotalCountKey := "MvcApi_InlineCountKey"

  /**
   * IsSequenceOperator: the expression is a call of a method declared on
   * System.Linq.Queryable whose name is the operator's, ignoring case.
   */
  predicate IsSequenceOperator(operatorName: string, e: Expr)
  {
    e.Call? && e.callee.declaringType == QueryableType && EqualsIgnoreCase(e.callee.name, operatorName)
  }

  /** A Queryable Take or Skip call: a page. */
  predicate IsPage(e: Expr)
  {
    IsSequenceOperator("take", e) || IsSequenceOperator("skip", e)
  }

  /**
   * The expression under the paging: the source of the outermost Take or
   * Skip, and below that the source of one more Skip if there is one. A
   * page call without arguments fails as reading its first argument does.
   */
  function CountExpression(e: Expr): (r: Result<Expr>)
    requires IsPage(e)
    ensures |e.args| == 0 ==> r == Err(ArgumentOutOfRange("index"))
    ensures |e.args| > 0 && !IsSequenceOperator("skip", e.args[0]) ==> r == Ok(e.args[0])
    ensures |e.args| > 0 && IsSequenceOperator("skip", e.args[0]) ==>
      r == (if |e.args[0].args| == 0 then Err(ArgumentOutOfRange("index")) else Ok(e.args[0].args[0]))
  {
    if |e.args| == 0 then Err(ArgumentOutOfRange("index"))
    else
      var inner := e.args[0];
      if !IsSequenceOperator("skip", inner) then Ok(inner)
      else if |inner.args| == 0 then Err(ArgumentOutOfRange("index"))
      else Ok(inner.args[0])
  }

  /**
   * TryRemovePaging: no count query (None, "false") when the query's
   * expression is not a Queryable Take or Skip; otherwise the provider's
   * query over the expression under the paging.
   */
  function TryRemovePaging(query: Query): (r: Result<Option<Query>>)
    ensures !IsPage(query.expression) ==> r == Ok(None)
    ensures IsPage(query.expression) ==> r.Err? || r.value.Some?
    ensures r.Ok? && r.value.Some? ==>
      && IsPage(query.expression)
      && CountExpression(query.expression).Ok?
      && r.value.value.provider == query.provider
      && r.value.value.expression == CountExpression(query.expression).value
      && ValidQuery(r.value.value)
  {
    if !IsPage(query.expression) then Ok(None)
    else
      var countExpr :- CountExpression(query.expression);
      var countQuery :- CreateQuery(query.provider, countExpr);
      Ok(Some(countQuery))
  }

  lemma TakeAndSkipAreOperators()
    ensures EqualsIgnoreCase("Take", "take") && EqualsIgnoreCase("Skip", "skip")
    ensures !EqualsIgnoreCase("Take", "skip") && !EqualsIgnoreCase("Skip", "take")
  {
    assert Upper("Take") == "TAKE" && Upper("take") == "TAKE";
    assert Upper("Skip") == "SKIP" && Upper("skip") == "SKIP";
  }

  /** Skip then Take on any query: the count query is that query, whatever it is itself. */
  lemma CountQueryOfSkipTake(q: Query, skip: int, top: int)
    requires ValidQuery(q) && InRange(skip, Int32) && InRange(top, Int32)
    ensures TryRemovePaging(Take(Some(Skip(Some(q), skip).value), top).value) == Ok(Some(q))
  {
    TakeAndSkipAreOperators();
    var skipped := Skip(Some(q), skip).value;
    var paged := Take(Some(skipped), top).value;
    assert IsSequenceOperator("skip", skipped.expression) && skipped.expression.args[0] == q.expression;
    assert IsPage(paged.expression) && paged.expression.args[0] == skipped.expression;
    RemovedPagingOf(paged, q);
  }

  /** A page whose expression under the paging is that of a valid query counts that query. */
  lemma RemovedPagingOf(page: Query, under: Query)
    requires ValidQuery(under) && IsPage(page.expression) && page.provider == under.provider
    requires CountExpression(page.expression) == Ok(under.expression)
    ensures TryRemovePaging(page) == Ok(Some(under))
  {
    assert CreateQuery(under.provider, under.expression) == Ok(under);
  }

  /**
   * A lone Take or a lone Skip on a query that is not itself a Skip: the
   * count query is that query.
   */
  lemma CountQueryOfOnePage(q: Query, n: int)
    requires ValidQuery(q) && InRange(n, Int32) && !IsSequenceOperator("skip", q.expression)
    ensures TryRemovePaging(Take(Some(q), n).value) == Ok(Some(q))
    ensures TryRemovePaging(Skip(Some(q), n).value) == Ok(Some(q))
  {
    TakeAndSkipAreOperators();
    var taken := Take(Some(q), n).value;
    assert IsPage(taken.expression) && taken.expression.args[0] == q.expression;
    RemovedPagingOf(taken, q);
    var skipped := Skip(Some(q), n).value;
    assert IsPage(skipped.expression) && skipped.expression.args[0] == q.expression;
    RemovedPagingOf(skipped, q);
  }

  /** Only one Skip is stripped below the outermost page: Skip, Skip, Take counts the first Skip. */
  lemma CountQueryStripsOneSkip(q: Query, a: int, b: int, top: int)
    requires ValidQuery(q) && InRange(a, Int32) && InRange(b, Int32) && InRange(top, Int32)
    ensures var once := Skip(Some(q), a).value;
      TryRemovePaging(Take(Some(Skip(Some(once), b).value), top).value) == Ok(Some(once))
  {
    TakeAndSkipAreOperators();
    CountQueryOfSkipTake(Skip(Some(q), a).value, b, top);
  }

  /**
   * GetTotalCount: -1 by default; the count of the count query when
   * paging was stripped (the count query must cast to IQueryable of the
   * element type); else, when the action has a positive result limit, the
   * count of the whole query. Counting runs the query, so it is a
   * parameter.
   */
  function GetTotalCount(results: Query, resultLimit: int, count: Query -> int): (r: Result<int>)
    ensures TryRemovePaging(results).Err? ==> r == Err(TryRemovePaging(results).error)
    ensures TryRemovePaging(results) == Ok(None) ==> r == Ok(if resultLimit > 0 then count(results) else -1)
    ensures TryRemovePaging(results).Ok? && TryRemovePaging(results).value.Some? ==>
      var c := TryRemovePaging(results).value.value;
      r == (if IsAssignableFrom(QueryableOf(results.elementType), QueryableOf(c.elementType)) then Ok(count(c)) else Err(InvalidCast))
  {
    var countQuery :- TryRemovePaging(results);
    if countQuery.Some? then
      if IsAssignableFrom(QueryableOf(results.elementType), QueryableOf(countQuery.value.elementType)) then Ok(count(countQuery.value))
      else Err(InvalidCast)
    else if resultLimit > 0 then Ok(count(results))
    else Ok(-1)
  }

  /**
   * The total reported for a page is the count of the query under the
   * page, not of the page, whatever the result limit.
   */
  lemma TotalCountOfPage(q: Query, skip: int, top: int, resultLimit: int, count: Query -> int)
    requires ValidQuery(q) && InRange(skip, Int32) && InRange(top, Int32)
    ensures GetTotalCount(Take(Some(Skip(Some(q), skip).value), top).value, resultLimit, count) == Ok(count(q))
  {
    CountQueryOfSkipTake(q, skip, top);
  }

  /** Without paging the total is the full count under a positive limit, and -1 otherwise. */
  lemma TotalCountWithoutPaging(q: Query, resultLimit: int, count: Query -> int)
    requires !IsPage(q.expression)
    ensures resultLimit > 0 ==> GetTotalCount(q, resultLimit, count) == Ok(count(q))
    ensures resultLimit <= 0 ==> GetTotalCount(q, resultLimit, count) == Ok(-1)
  {
  }

  /**
   * ShouldInlineCount: a request with a non-empty query string whose
   * $inlinecount value (the key ignoring case) is exactly "allpages".
   * A missing request or query string is None.
   */
  predicate ShouldInlineCount(queryString: Option<NameValueCollection>)
  {
    queryString.Some? && |queryString.value.entries| > 0
    && Get(queryString.value, Some("$inlinecount")) == Some("allpages")
  }

  /** $inlinecount=allpages asks for the count under any spelling of the key, but only in that exact lower case. */
  lemma InlineCountValueIsExact(key: string, value: string)
    requires EqualsIgnoreCase(key, "$inlinecount")
    ensures ShouldInlineCount(Some(NameValues.Add(NameValues.Empty, Some(key), Some(value)))) <==> value == "allpages"
  {
    var c := NameValues.Add(NameValues.Empty, Some(key), Some(value));
    assert IndexOfKey(NameValues.Empty.entries, Some(key)) == -1;
    assert c.entries == [Entry(Some(key), [value])];
    assert KeyEquals(c.entries[0].key, Some("$inlinecount"));
    assert IndexOfKey(c.entries, Some("$inlinecount")) == 0;
    assert Get(c, Some("$inlinecount")) == Some(value);
  }

  /** An empty query string never asks for the count. */
  lemma EmptyQueryStringNeverCounts()
    ensures !ShouldInlineCount(Some(NameValues.Empty))
    ensures !ShouldInlineCount(None)
  {
  }
}
