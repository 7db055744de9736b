/**
 * The queryable operators the OData options compile to: OrderBy/ThenBy
 * chains from an ordering list, Skip and Take with a constant count, and
 * Where with a parsed predicate. Each builds a call of the matching
 * System.Linq.Queryable method over the source's expression and asks the
 * source's provider for the query over that call; the source itself is a
 * value and is never changed.
 */
module DynamicQueryable {
  import opened Common
  import opened ClrTypes
  import opened QueryExpressions
  import opened QueryLexer
  import opened QueryLiterals
  import opened QueryPromotion
  import opened DynamicExpression
  import opened ExpressionGrammar
  import opened DynamicLambda

  /** The reflection the parser consults: character classes, the runtime's text parsers and the type schema. */
  datatype Host = Host(cc: CharClasses, rt: Runtime, schema: Schema)

  /** IOrderedQueryable<T>. */
  function OrderedQueryableOf(t: ClrType): (r: ClrType)
    ensures QueryableElementType(r) == Some(t)
  {
    Sequence(IOrderedQueryableOf, t)
  }

  /** The Queryable method an ordering uses: OrderBy or OrderByDescending first, ThenBy or ThenByDescending after. */
  function OrderingMethodName(first: bool, ascending: bool): string
  {
    if first then (if ascending then "OrderBy" else "OrderByDescending")
    else (if ascending then "ThenBy" else "ThenByDescending")
  }

  /** The key-selector lambda of an ordering, over the single parameter it. */
  function KeySelector(it: ParamDecl, o: Ordering): (r: Expr)
    ensures DynamicExpression.Lambda(o.selector, Some([it])) == Ok(r)
  {
    OneParameterLambda(o.selector, it);
    Expr.Lambda([it], o.selector, Func([it.paramType, TypeOf(o.selector)]))
  }

  /** One step of the OrderBy loop: the ordering call over the expression built so far. */
  function OrderingCall(e: Expr, it: ParamDecl, o: Ordering, first: bool): (r: Expr)
    ensures TypeOf(r) == OrderedQueryableOf(it.paramType)
  {
    var t := it.paramType;
    var k := TypeOf(o.selector);
    var sourceType := if first then QueryableOf(t) else OrderedQueryableOf(t);
    var m := QueryableMethod(OrderingMethodName(first, o.ascending), [t, k], sourceType,
                             [ExpressionOf(Func([t, k]))], OrderedQueryableOf(t));
    Call(None, m, [e, Quote(KeySelector(it, o))])
  }

  /** The expression the OrderBy loop has built after the given orderings, in list order. */
  function Ordered(e: Expr, it: ParamDecl, orderings: seq<Ordering>): (r: Expr)
    ensures orderings != [] ==> TypeOf(r) == OrderedQueryableOf(it.paramType)
    decreases |orderings|
  {
    if orderings == [] then e
    else
      var n := |orderings| - 1;
      OrderingCall(Ordered(e, it, orderings[..n]), it, orderings[n], n == 0)
  }

  /** One more ordering wraps the chain so far in one more call. */
  lemma OrderedSnoc(e: Expr, it: ParamDecl, orderings: seq<Ordering>, o: Ordering)
    ensures Ordered(e, it, orderings + [o]) == OrderingCall(Ordered(e, it, orderings), it, o, orderings == [])
  {
    assert (orderings + [o])[..|orderings|] == orderings;
  }

  /** The step of the OrderBy loop at index i. */
  lemma ChainStep(e: Expr, it: ParamDecl, orderings: seq<Ordering>, i: nat)
    requires i < |orderings|
    ensures Ordered(e, it, orderings[..i + 1]) == OrderingCall(Ordered(e, it, orderings[..i]), it, orderings[i], i == 0)
  {
    assert orderings[..i + 1] == orderings[..i] + [orderings[i]];
    OrderedSnoc(e, it, orderings[..i], orderings[i]);
  }

  /**
   * Reads an ordering chain back: n nested Queryable calls whose first
   * argument is the chain so far and whose second is a quoted key
   * selector, the innermost an OrderBy call and the others ThenBy calls;
   * gives the expression under the chain and the orderings, innermost
   * first.
   */
  function ReadOrderings(e: Expr, n: nat): (r: Option<(Expr, seq<Ordering>)>)
    ensures r.Some? ==> |r.value.1| == n
  {
    if n == 0 then Some((e, []))
    else if !e.Call? || e.instance.Some? || e.callee.declaringType != QueryableType || |e.args| != 2 then None
    else if !e.args[1].Quote? || !e.args[1].lambda.Lambda? then None
    else
      var name := e.callee.name;
      var ascending := name == OrderingMethodName(n == 1, true);
      if !ascending && name != OrderingMethodName(n == 1, false) then None
      else
        var (root, inner) :- ReadOrderings(e.args[0], n - 1);
        Some((root, inner + [Ordering(e.args[1].lambda.body, ascending)]))
  }

  /**
   * The ordering chain is what the orderings say, in order: read back it
   * gives the source expression and the same orderings, so the first uses
   * OrderBy or OrderByDescending, every later one ThenBy or
   * ThenByDescending, each by its own direction, each over the call before it.
   */
  lemma {:induction false} OrderingsReadBack(e: Expr, it: ParamDecl, orderings: seq<Ordering>)
    ensures ReadOrderings(Ordered(e, it, orderings), |orderings|) == Some((e, orderings))
    decreases |orderings|
  {
    if orderings == [] {
      assert Ordered(e, it, orderings) == e;
    } else {
      OrderingsReadBack(e, it, orderings[..|orderings| - 1]);
      ReadBackStep(e, it, orderings);
    }
  }

  /** The inductive step of OrderingsReadBack: the last ordering's call over a chain that reads back. */
  lemma ReadBackStep(e: Expr, it: ParamDecl, orderings: seq<Ordering>)
    requires orderings != []
    requires ReadOrderings(Ordered(e, it, orderings[..|orderings| - 1]), |orderings| - 1) == Some((e, orderings[..|orderings| - 1]))
    ensures ReadOrderings(Ordered(e, it, orderings), |orderings|) == Some((e, orderings))
  {
    var n := |orderings| - 1;
    var under := Ordered(e, it, orderings[..n]);
    ReadOrderingCall(under, it, orderings[n], n, e, orderings[..n]);
    PrefixThenLast(orderings);
    assert Ordered(e, it, orderings) == OrderingCall(under, it, orderings[n], n == 0);
  }

  /** Reading back one more ordering call appends its ordering to what the chain under it reads as. */
  lemma ReadOrderingCall(x: Expr, it: ParamDecl, o: Ordering, k: nat, root: Expr, inner: seq<Ordering>)
    requires ReadOrderings(x, k) == Some((root, inner))
    ensures ReadOrderings(OrderingCall(x, it, o, k == 0), k + 1) == Some((root, inner + [o]))
  {
    assert OrderingMethodName(k == 0, true) != OrderingMethodName(k == 0, false);
    assert KeySelector(it, o).body == o.selector;
  }

  /** The orderings an ordering text yields for a source: ParseOrdering over one unnamed parameter of the element type. */
  function ParsedOrderings(elementType: ClrType, ordering: Option<string>, host: Host, resolver: Option<Resolver>): (r: Result<seq<Ordering>>)
    ensures r.Ok? ==> |r.value| >= 1
  {
    var (ctx, st) :- StartParser(Some([ParamDecl("", elementType)]), ordering, host.cc, host.rt, host.schema, resolver);
    ParseOrdering(ctx, st)
  }

  /** The query OrderBy returns, as a value: the provider's query over the ordering chain of the parsed orderings. */
  function OrderedQuery(source: Option<Query>, ordering: Option<string>, host: Host, resolver: Option<Resolver>): (r: Result<Query>)
    ensures r.Ok? ==> source.Some? && r.value.provider == source.value.provider && r.value.elementType == source.value.elementType
  {
    if source.None? then Err(ArgumentNull("source"))
    else if ordering.None? then Err(ArgumentNull("ordering"))
    else
      var orderings :- ParsedOrderings(source.value.elementType, ordering, host, resolver);
      Ok(Query(source.value.provider, source.value.elementType,
               Ordered(source.value.expression, ParamDecl("", source.value.elementType), orderings)))
  }

  /**
   * OrderBy: a missing source or ordering text is an argument-null error;
   * otherwise the ordering text is parsed against the element type, and
   * the query is the provider's query over the chain of ordering calls on
   * the source's expression; the element type is unchanged.
   */
  method OrderBy(source: Option<Query>, ordering: Option<string>, host: Host, resolver: Option<Resolver>) returns (r: Result<Query>)
    ensures source.None? ==> r == Err(ArgumentNull("source"))
    ensures source.Some? && ordering.None? ==> r == Err(ArgumentNull("ordering"))
    ensures source.Some? && ordering.Some? ==>
      var parsed := ParsedOrderings(source.value.elementType, ordering, host, resolver);
      && (parsed.Err? ==> r == Err(parsed.error))
      && (parsed.Ok? ==> r == Ok(Query(source.value.provider, source.value.elementType,
                                        Ordered(source.value.expression, ParamDecl("", source.value.elementType), parsed.value))))
    ensures r == OrderedQuery(source, ordering, host, resolver)
  {
    if source.None? {
      return Err(ArgumentNull("source"));
    }
    if ordering.None? {
      return Err(ArgumentNull("ordering"));
    }
    var orderings :- ParsedOrderings(source.value.elementType, ordering, host, resolver);
    var expression := ChainOrderings(source.value.expression, ParamDecl("", source.value.elementType), orderings);
    r := CreateQuery(source.value.provider, expression);
  }

  /** The loop of OrderBy: each ordering's call over the expression built so far, OrderBy first and ThenBy after. */
  method ChainOrderings(e: Expr, it: ParamDecl, orderings: seq<Ordering>) returns (expression: Expr)
    ensures expression == Ordered(e, it, orderings)
  {
    expression := e;
    for i := 0 to |orderings|
      invariant expression == Ordered(e, it, orderings[..i])
    {
      ChainStep(e, it, orderings, i);
      expression := OrderingCall(expression, it, orderings[i], i == 0);
    }
    assert orderings[..|orderings|] == orderings;
  }

  /** The Skip or Take call with a constant Int32 count over the source's expression. */
  function CountCall(name: string, source: Query, count: int): (r: Expr)
    ensures TypeOf(r) == QueryableOf(source.elementType)
  {
    var t := source.elementType;
    Call(None, QueryableMethod(name, [t], QueryableOf(t), [Int32], QueryableOf(t)),
         [source.expression, Const(IntegerValue(count), Int32)])
  }

  /**
   * Skip: a missing source is an argument-null error; otherwise the query
   * of the same provider and element type over exactly one more call,
   * Queryable.Skip, of the source's expression and the constant count.
   */
  function Skip(source: Option<Query>, count: int): (r: Result<Query>)
    requires InRange(count, Int32)
    ensures source.None? ==> r == Err(ArgumentNull("source"))
    ensures source.Some? ==>
      && r.Ok? && r.value.provider == source.value.provider && r.value.elementType == source.value.elementType
      && r.value.expression.Call? && r.value.expression.callee.name == "Skip"
      && r.value.expression.callee.declaringType == QueryableType
      && r.value.expression.args == [source.value.expression, Const(IntegerValue(count), Int32)]
  {
    if source.None? then Err(ArgumentNull("source"))
    else CreateQuery(source.value.provider, CountCall("Skip", source.value, count))
  }

  /**
   * Take: a missing source is an argument-null error; otherwise the query
   * of the same provider and element type over exactly one more call,
   * Queryable.Take, of the source's expression and the constant count.
   */
  function Take(source: Option<Query>, count: int): (r: Result<Query>)
    requires InRange(count, Int32)
    ensures source.None? ==> r == Err(ArgumentNull("source"))
    ensures source.Some? ==>
      && r.Ok? && r.value.provider == source.value.provider && r.value.elementType == source.value.elementType
      && r.value.expression.Call? && r.value.expression.callee.name == "Take"
      && r.value.expression.callee.declaringType == QueryableType
      && r.value.expression.args == [source.value.expression, Const(IntegerValue(count), Int32)]
  {
    if source.None? then Err(ArgumentNull("source"))
    else CreateQuery(source.value.provider, CountCall("Take", source.value, count))
  }

  /** One page of a query: Skip(skip) over it, then Take(top). */
  function Page(q: Query, skip: int, top: int): (r: Query)
    requires InRange(skip, Int32) && InRange(top, Int32)
    ensures r.provider == q.provider && r.elementType == q.elementType
  {
    Take(Some(Skip(Some(q), skip).value), top).value
  }

  /**
   * Where: a missing source or predicate text is an argument-null error;
   * otherwise the predicate is parsed as a lambda over one unnamed
   * parameter of the element type with a Boolean body, and the query is
   * the provider's query over Queryable.Where of the source's expression
   * and that quoted lambda. A predicate that does not parse, or is not a
   * Boolean, is the parser's error.
   */
  function Where(source: Option<Query>, filter: Option<string>, host: Host, resolver: Option<Resolver>): (r: Result<Query>)
    ensures source.None? ==> r == Err(ArgumentNull("source"))
    ensures source.Some? && filter.None? ==> r == Err(ArgumentNull("predicate"))
    ensures source.Some? && filter.Some? ==>
      var l := ParseItLambda(source.value.elementType, Some(Boolean), filter, host.cc, host.rt, host.schema, resolver);
      && (r.Ok? <==> l.Ok?)
      && (l.Err? ==> r == Err(l.error))
      && (r.Ok? ==>
            && r.value.provider == source.value.provider && r.value.elementType == source.value.elementType
            && r.value.expression.Call? && r.value.expression.callee.name == "Where"
            && r.value.expression.args == [source.value.expression, Quote(l.value)]
            && l.value.Lambda? && l.value.parameters == [ParamDecl("", source.value.elementType)]
            && TypeOf(l.value.body) == Boolean)
  {
    if source.None? then Err(ArgumentNull("source"))
    else if filter.None? then Err(ArgumentNull("predicate"))
    else
      var lambda :- ParseItLambda(source.value.elementType, Some(Boolean), filter, host.cc, host.rt, host.schema, resolver);
      WhereQuery(source.value, lambda)
  }

  /** The provider's query over Queryable.Where of the source's expression and the quoted predicate lambda. */
  function WhereQuery(source: Query, lambda: Expr): (r: Result<Query>)
    ensures r.Ok? && r.value.provider == source.provider && r.value.elementType == source.elementType
    ensures r.value.expression.Call? && r.value.expression.callee.name == "Where"
    ensures r.value.expression.args == [source.expression, Quote(lambda)]
  {
    var t := source.elementType;
    var m := QueryableMethod("Where", [t], QueryableOf(t), [ExpressionOf(Func([t, Boolean]))], QueryableOf(t));
    CreateQuery(source.provider, Call(None, m, [source.expression, Quote(lambda)]))
  }
}
