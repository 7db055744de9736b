/**
 * One query operator with its expression text ($filter=..., $skip=...),
 * and how it is applied to a query: filter and orderby through the
 * expression parser, skip and top as a non-negative Int32 count, any
 * other operator leaving the query as it is. Errors of the parser are
 * re-raised naming the query option they came from.
 */
module StructuredQueryParts {
  import opened Common
  import opened ClrTypes
  import opened QueryExpressions
  import opened QueryLiterals
  import opened DynamicQueryable

  datatype StructuredQueryPart = StructuredQueryPart(queryOperator: string, queryExpression: string)

  /** The checked constructor: a null operator or a null expression is an argument-null error. */
  function NewStructuredQueryPart(queryOperator: Option<string>, expression: Option<string>): (r: Result<StructuredQueryPart>)
    ensures queryOperator.None? ==> r == Err(ArgumentNull("queryOperator"))
    ensures queryOperator.Some? && expression.None? ==> r == Err(ArgumentNull("expression"))
    ensures r.Ok? <==> queryOperator.Some? && expression.Some?
    ensures r.Ok? ==> r.value.queryOperator == queryOperator.value && r.value.queryExpression == expression.value
  {
    if queryOperator.None? then Err(ArgumentNull("queryOperator"))
    else if expression.None? then Err(ArgumentNull("expression"))
    else Ok(StructuredQueryPart(queryOperator.value, expression.value))
  }

  /** ToString: "operator=expression". */
  function PartText(part: StructuredQueryPart): (r: string)
    ensures |r| == |part.queryOperator| + 1 + |part.queryExpression|
  {
    part.queryOperator + "=" + part.queryExpression
  }

  function IsEqualsSign(): char -> bool
  {
    c => c == '='
  }

  /**
   * The text of a part whose operator holds no '=' splits back into the
   * operator and the expression at its first '='.
   */
  lemma PartTextSplits(part: StructuredQueryPart)
    requires '=' !in part.queryOperator
    ensures var s := PartText(part);
      var k := FirstIndex(s, IsEqualsSign());
      && k == Some(|part.queryOperator|)
      && s[..k.value] == part.queryOperator && s[k.value + 1..] == part.queryExpression
  {
    var s := PartText(part);
    var n := |part.queryOperator|;
    assert forall j :: 0 <= j < n ==> s[j] == part.queryOperator[j];
    assert s[n] == '=';
    assert forall j :: 0 <= j < n ==> !IsEqualsSign()(s[j]);
    assert s[..n] == part.queryOperator;
    assert s[n + 1..] == part.queryExpression;
  }

  /** A ParseException from the operator is re-raised naming the query option; other exceptions pass through. */
  function InClause(option: string, r: Result<Query>): (q: Result<Query>)
    ensures r.Ok? ==> q == r
    ensures r.Err? && r.error.ParseError? ==> q == Err(ClauseError(option, r.error))
    ensures r.Err? && !r.error.ParseError? ==> q == r
  {
    if r.Err? && r.error.ParseError? then Err(ClauseError(option, r.error)) else r
  }

  /**
   * The count of a skip or top option: a format error is re-raised naming
   * the option, an overflow passes through, and a negative count is a
   * positive-integer-expected error naming the option and the text.
   */
  function OptionCount(option: string, expression: string): (r: Result<int>)
    ensures r.Ok? ==> ConvertToInt32(Some(expression)) == Ok(r.value) && r.value >= 0
    ensures ConvertToInt32(Some(expression)) == Err(Format) ==> r == Err(ClauseError(option, Format))
    ensures ConvertToInt32(Some(expression)) == Err(Overflow) ==> r == Err(Overflow)
    ensures ConvertToInt32(Some(expression)).Ok? && ConvertToInt32(Some(expression)).value < 0 ==> r == Err(PositiveIntegerExpected(option, expression))
  {
    match ConvertToInt32(Some(expression))
      case Err(e) => if e == Format then Err(ClauseError(option, e)) else Err(e)
      case Ok(n) => if n < 0 then Err(PositiveIntegerExpected(option, expression)) else Ok(n)
  }

  /**
   * ApplyTo: filter is Where over the expression, orderby is OrderBy over
   * it, skip and top are Skip and Take by the expression's count; any
   * other operator returns the query unchanged. The expression parser runs
   * without a query resolver.
   */
  function ApplyPart(part: StructuredQueryPart, query: Query, host: Host): (r: Result<Query>)
    ensures part.queryOperator !in {"filter", "orderby", "skip", "top"} ==> r == Ok(query)
    ensures part.queryOperator == "filter" ==> r == InClause("$filter", Where(Some(query), Some(part.queryExpression), host, None))
    ensures part.queryOperator == "orderby" ==> r == InClause("$orderby", OrderedQuery(Some(query), Some(part.queryExpression), host, None))
    ensures part.queryOperator == "skip" ==>
      var n := OptionCount("$skip", part.queryExpression);
      && (n.Err? ==> r == Err(n.error))
      && (n.Ok? ==> r == Skip(Some(query), n.value))
    ensures part.queryOperator == "top" ==>
      var n := OptionCount("$top", part.queryExpression);
      && (n.Err? ==> r == Err(n.error))
      && (n.Ok? ==> r == Take(Some(query), n.value))
    ensures r.Ok? ==> r.value.provider == query.provider && r.value.elementType == query.elementType
  {
    match part.queryOperator
      case "filter" => InClause("$filter", Where(Some(query), Some(part.queryExpression), host, None))
      case "orderby" => InClause("$orderby", OrderedQuery(Some(query), Some(part.queryExpression), host, None))
      case "skip" =>
        var n :- OptionCount("$skip", part.queryExpression);
        Skip(Some(query), n)
      case "top" =>
        var n :- OptionCount("$top", part.queryExpression);
        Take(Some(query), n)
      case _ => Ok(query)
  }

  /** A negative count never reaches the query: it is rejected naming the option. */
  lemma NegativeSkipIsRejected(query: Query, host: Host, n: int)
    requires 0 < n <= 0x8000_0000
    ensures ApplyPart(StructuredQueryPart("skip", IntegerText(-n)), query, host)
         == Err(PositiveIntegerExpected("$skip", IntegerText(-n)))
  {
    NegativeCountText("$skip", n);
  }

  /** A negative count written out in digits is rejected, naming the option and the text. */
  lemma NegativeCountText(option: string, n: int)
    requires 0 < n <= 0x8000_0000
    ensures OptionCount(option, IntegerText(-n)) == Err(PositiveIntegerExpected(option, IntegerText(-n)))
  {
    ConvertToInt32OfIntegerText(-n);
  }

  /** A count written out in digits is applied as that count. */
  lemma TopOfCount(query: Query, host: Host, n: nat)
    requires n <= 0x7FFF_FFFF
    ensures ApplyPart(StructuredQueryPart("top", IntegerText(n)), query, host) == Take(Some(query), n)
  {
    CountTextReadsBack("$top", n);
  }

  /** A skip count written out in digits is applied as that count. */
  lemma SkipOfCount(query: Query, host: Host, n: nat)
    requires n <= 0x7FFF_FFFF
    ensures ApplyPart(StructuredQueryPart("skip", IntegerText(n)), query, host) == Skip(Some(query), n)
  {
    CountTextReadsBack("$skip", n);
  }

  /** A count written out in digits reads back as that count, whichever option it is for. */
  lemma CountTextReadsBack(option: string, n: nat)
    requires n <= 0x7FFF_FFFF
    ensures OptionCount(option, IntegerText(n)) == Ok(n)
  {
    ConvertToInt32OfIntegerText(n);
  }
}
