/**
 * The delegate types and lambdas the query compiler builds around a
 * parsed body: Func<T1, ..., TResult> for up to four parameters, and a
 * lambda whose delegate type is made from its parameters' types and its
 * body's type.
 */
module DynamicExpression {
  import opened Common
  import opened ClrTypes
  import opened QueryExpressions

  /**
   * GetFuncType: the Func type with these type arguments, the last being
   * the result type. A missing list, an empty one, or one of more than
   * five types (Func has at most four parameters here) is an argument
   * error.
   */
  function GetFuncType(typeArgs: Option<seq<ClrType>>): (r: Result<ClrType>)
    ensures r.Ok? <==> typeArgs.Some? && 1 <= |typeArgs.value| <= 5
    ensures r.Ok? ==> r.value == Func(typeArgs.value)
    ensures r.Err? ==> r.error == Argument("")
  {
    if typeArgs.None? || |typeArgs.value| < 1 || |typeArgs.value| > 5 then Err(Argument(""))
    else Ok(Func(typeArgs.value))
  }

  /** The types of a list of parameters, in order. */
  function ParameterTypeList(ps: seq<ParamDecl>): (r: seq<ClrType>)
    ensures |r| == |ps| && forall i :: 0 <= i < |ps| ==> r[i] == ps[i].paramType
  {
    seq(|ps|, i requires 0 <= i < |ps| => ps[i].paramType)
  }

  /**
   * Lambda: the lambda over the parameters (none when the list is
   * missing) whose delegate type is Func of the parameter types and the
   * body's type. More than four parameters is the argument error of
   * GetFuncType.
   */
  function Lambda(body: Expr, parameters: Option<seq<ParamDecl>>): (r: Result<Expr>)
    ensures var ps := if parameters.None? then [] else parameters.value;
      && (r.Ok? <==> |ps| <= 4)
      && (r.Ok? ==> r.value.Lambda? && r.value.parameters == ps && r.value.body == body)
      && (r.Ok? ==> TypeOf(r.value) == Func(ParameterTypeList(ps) + [TypeOf(body)]))
      && (r.Err? ==> r.error == Argument(""))
  {
    var ps := if parameters.None? then [] else parameters.value;
    var delegateType :- GetFuncType(Some(ParameterTypeList(ps) + [TypeOf(body)]));
    Ok(Expr.Lambda(ps, body, delegateType))
  }

  /**
   * The type-argument array Lambda fills before asking for the delegate
   * type: each parameter's type in order, then the body's type.
   */
  method FuncTypeArguments(parameters: Option<seq<ParamDecl>>, bodyType: ClrType) returns (typeArgs: array<ClrType>)
    ensures fresh(typeArgs)
    ensures typeArgs[..] == ParameterTypeList(if parameters.None? then [] else parameters.value) + [bodyType]
  {
    var count := if parameters.None? then 0 else |parameters.value|;
    typeArgs := new ClrType[count + 1](_ => bodyType);
    for i := 0 to count
      invariant forall j :: 0 <= j < i ==> typeArgs[j] == parameters.value[j].paramType
      invariant typeArgs[count] == bodyType
    {
      typeArgs[i] := parameters.value[i].paramType;
    }
    typeArgs[count] := bodyType;
  }

  /** The type arguments of a one-parameter lambda: the parameter's type, then the result type. */
  lemma OneParameterTypes(p: ParamDecl, resultType: ClrType)
    ensures ParameterTypeList([p]) + [resultType] == [p.paramType, resultType]
  {
    assert ParameterTypeList([p]) == [p.paramType];
  }

  /** A lambda of one parameter always has a delegate type: Func<T, TResult>. */
  lemma OneParameterLambda(body: Expr, p: ParamDecl)
    ensures Lambda(body, Some([p])) == Ok(Expr.Lambda([p], body, Func([p.paramType, TypeOf(body)])))
  {
    OneParameterTypes(p, TypeOf(body));
  }
}

/**
 * The two ParseLambda entry points: a parser over the expression text with
 * the given parameters, its result made into a lambda over them.
 */
module DynamicLambda {
  import opened Common
  import opened ClrTypes
  import opened QueryExpressions
  import opened QueryLexer
  import opened QueryLiterals
  import opened QueryPromotion
  import opened DynamicExpression
  import opened ExpressionGrammar

  /**
   * ParseLambda: the lambda over the parameters whose body is the whole
   * expression text, of the result type when one is given; the parser's
   * errors (a missing text, a duplicate parameter, a syntax or type error)
   * pass through, and so does Lambda's error for more than four parameters.
   */
  function ParseLambda(parameters: Option<seq<ParamDecl>>, resultType: Option<ClrType>, expression: Option<string>,
                       cc: CharClasses, rt: Runtime, schema: Schema, resolver: Option<Resolver>): (r: Result<Expr>)
    ensures expression.None? ==> r == Err(ArgumentNull("expression"))
    ensures r.Ok? ==>
      var ps := if parameters.None? then [] else parameters.value;
      && r.value.Lambda? && r.value.parameters == ps && |ps| <= 4
      && (resultType.Some? ==> TypeOf(r.value.body) == resultType.value)
      && TypeOf(r.value) == Func(ParameterTypeList(ps) + [TypeOf(r.value.body)])
    ensures r.Ok? ==>
      var start := StartParser(parameters, expression, cc, rt, schema, resolver);
      && start.Ok?
      && Parse(start.value.0, start.value.1, resultType) == Ok(r.value.body)
    ensures var ps := if parameters.None? then [] else parameters.value;
      var start := StartParser(parameters, expression, cc, rt, schema, resolver);
      r.Ok? <==> start.Ok? && Parse(start.value.0, start.value.1, resultType).Ok? && |ps| <= 4
    ensures r.Ok? ==>
      var ps := if parameters.None? then [] else parameters.value;
      r.value == Expr.Lambda(ps, r.value.body, Func(ParameterTypeList(ps) + [TypeOf(r.value.body)]))
  {
    var (ctx, st) :- StartParser(parameters, expression, cc, rt, schema, resolver);
    var body :- Parse(ctx, st, resultType);
    DynamicExpression.Lambda(body, parameters)
  }

  /**
   * ParseLambda over a single unnamed parameter of type itType: the body's
   * free names are members of it, and the result is always a one-parameter
   * lambda of type Func<itType, TResult> once the body parses.
   */
  function ParseItLambda(itType: ClrType, resultType: Option<ClrType>, expression: Option<string>,
                         cc: CharClasses, rt: Runtime, schema: Schema, resolver: Option<Resolver>): (r: Result<Expr>)
    ensures expression.None? ==> r == Err(ArgumentNull("expression"))
    ensures r.Ok? <==>
      var start := StartParser(Some([ParamDecl("", itType)]), expression, cc, rt, schema, resolver);
      start.Ok? && Parse(start.value.0, start.value.1, resultType).Ok?
    ensures r.Ok? ==>
      && r.value.Lambda?
      && r.value == Expr.Lambda([ParamDecl("", itType)], r.value.body, Func([itType, TypeOf(r.value.body)]))
      && (resultType.Some? ==> TypeOf(r.value.body) == resultType.value)
  {
    var r := ParseLambda(Some([ParamDecl("", itType)]), resultType, expression, cc, rt, schema, resolver);
    if r.Ok? then OneParameterTypes(ParamDecl("", itType), TypeOf(r.value.body)); r else r
  }
}
