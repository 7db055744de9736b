/**
 * The queryable action filter. After an action returns an IQueryable in
 * an object result, the filter reads the request's query string into
 * structured query parts, builds them over a placeholder (an empty array
 * of the result's element type), validates that query, composes it onto
 * the action's query, applies the result limit and puts the final query
 * back into the result. The data variant of the filter also stores the
 * inline total count before limiting.
 *
 * The query source and builder are chosen the way the filter chooses
 * them: the filter's own, then the global configuration's, then the
 * defaults (the OData deserializer). Custom sources, builders and
 * validators, the configuration, the query-string parser and counting a
 * query are outside this model and come in through an Environment.
 */
module QueryableFilter {
  import opened Common
  import opened ClrTypes
  import opened QueryExpressions
  import opened QueryLiterals
  import opened NameValues
  import opened DynamicQueryable
  import opened StructuredQueryParts
  import opened ODataQueryDeserializer
  import opened QueryComposer
  import opened QueryFilter

  /** A CLR int. */
  type Int32Value = n: int | -0x8000_0000 <= n <= 0x7FFF_FFFF

  /** An IStructuredQuerySource: the default one (the OData deserializer) or someone else's. */
  datatype QuerySource = DefaultQuerySource | CustomQuerySource(id: nat)

  /** An IStructuredQueryBuilder: the default one (the OData deserializer) or someone else's. */
  datatype QueryBuilder = DefaultQueryBuilder | CustomQueryBuilder(id: nat)

  /** A QueryValidator: the shared instance, whose Validate does nothing, or a subclass. */
  datatype Validator = DefaultValidator | CustomValidator(id: nat)

  /** What the global configuration's services hand out (each may be null). */
  datatype Configuration = Configuration(querySource: Option<QuerySource>, queryBuilder: Option<QueryBuilder>)

  /** The request: its parsed query string (may be null) and its URL. */
  datatype Request = Request(queryString: Option<NameValueCollection>, url: Uri)

  /** The action's result: an object result holding an IQueryable, or anything else. */
  datatype ActionResult = QueryContent(query: Query) | OtherResult

  /** The action-executing context, by the action name its error message would use. */
  datatype ActionExecutingContext = ActionExecutingContext(actionName: string)

  /**
   * Everything the filter calls that is not modelled: the query-string
   * parser, the provider of in-memory arrays, the global configuration
   * (null when absent), custom sources, builders and validators (a
   * validator answers with the exception it throws, if any), and the
   * Count() that runs a query.
   */
  datatype Environment = Environment(
    host: Host,
    arrayProvider: Provider,
    parseQueryString: string -> NameValueCollection,
    configuration: Option<Configuration>,
    createQuery: (nat, Uri) -> Result<Option<seq<StructuredQueryPart>>>,
    applyQuery: (nat, Query, seq<StructuredQueryPart>) -> Result<Option<Query>>,
    validate: (nat, Query) -> Option<Exception>,
    count: Query -> int)

  /** The errors the parser and the query parts raise as ParseException. */
  predicate IsParseException(e: Exception)
  {
    e.ParseError? || e.ClauseError? || e.PositiveIntegerExpected?
  }

  /** The catch around reading and building the query: a ParseException becomes HTTP 400 Bad Request. */
  function AsBadRequest<T>(r: Result<T>): (q: Result<T>)
    ensures r.Ok? ==> q == r
    ensures r.Err? && IsParseException(r.error) ==> q == Err(HttpError(400))
    ensures r.Err? && !IsParseException(r.error) ==> q == r
  {
    if r.Err? && IsParseException(r.error) then Err(HttpError(400)) else r
  }

  /** The action-executed context: the result (may be null), the request (may be null) and HttpContext.Items. */
  class ActionExecutedContext {
    var result: Option<ActionResult>
    var items: map<string, int>
    const request: Option<Request>

    constructor(result: Option<ActionResult>, request: Option<Request>, items: map<string, int>)
      ensures this.result == result && this.request == request && this.items == items
    {
      this.result := result;
      this.request := request;
      this.items := items;
    }
  }

  class QueryableFilterAttribute {
    /** The most results returned whatever the query asks; 0 means no limit. */
    var resultLimit: Int32Value
    /** The data filter's InlineCount setting. */
    var inlineCount: bool
    /** Whether this is the data filter, whose ApplyResultLimit stores the inline count first. */
    const countsInline: bool
    const validator: Option<Validator>
    var querySource: Option<QuerySource>
    var queryBuilder: Option<QueryBuilder>

    /**
     * A filter with the given validator (the parameterless constructor
     * passes the shared instance), no limit, no inline count and neither
     * its own source nor its own builder.
     */
    constructor(queryValidator: Option<Validator>, countsInline: bool)
      ensures validator == queryValidator && this.countsInline == countsInline
      ensures resultLimit == 0 && !inlineCount && querySource.None? && queryBuilder.None?
    {
      validator := queryValidator;
      this.countsInline := countsInline;
      resultLimit := 0;
      inlineCount := false;
      querySource := None;
      queryBuilder := None;
    }

    /** The query source GetStructuredQuery uses: the filter's own, else the configuration's, else the default. */
    function ChosenQuerySource(configuration: Option<Configuration>): (r: QuerySource)
      reads this
      ensures querySource.Some? ==> r == querySource.value
      ensures querySource.None? && configuration.Some? && configuration.value.querySource.Some?
              ==> r == configuration.value.querySource.value
      ensures querySource.None? && (configuration.None? || configuration.value.querySource.None?)
              ==> r == DefaultQuerySource
    {
      if querySource.Some? then querySource.value
      else if configuration.Some? && configuration.value.querySource.Some? then configuration.value.querySource.value
      else DefaultQuerySource
    }

    /**
     * The query builder GetDeserializedQuery uses, as written: when the
     * filter has its own query SOURCE it takes the filter's own builder
     * (the default if that is null) and never the configuration's; when it
     * has no own source it takes the configuration's builder, ignoring its
     * own.
     */
    function ChosenQueryBuilder(configuration: Option<Configuration>): (r: QueryBuilder)
      reads this
      ensures querySource.Some? ==> r == queryBuilder.GetOr(DefaultQueryBuilder)
      ensures querySource.None? && configuration.Some? && configuration.value.queryBuilder.Some?
              ==> r == configuration.value.queryBuilder.value
      ensures querySource.None? && (configuration.None? || configuration.value.queryBuilder.None?)
              ==> r == DefaultQueryBuilder
    {
      if querySource.Some? then queryBuilder.GetOr(DefaultQueryBuilder)
      else if configuration.Some? && configuration.value.queryBuilder.Some? then configuration.value.queryBuilder.value
      else DefaultQueryBuilder
    }

    /** The structured query of the URL by the chosen source; the default one never answers null. */
    function StructuredQueryFor(url: Uri, env: Environment): (r: Result<Option<seq<StructuredQueryPart>>>)
      reads this
      ensures ChosenQuerySource(env.configuration) == DefaultQuerySource ==>
        var parts := StructuredQueryOf(env.parseQueryString(url.query));
        && (parts.Err? ==> r == Err(parts.error))
        && (parts.Ok? ==> r == Ok(Some(parts.value)))
    {
      match ChosenQuerySource(env.configuration)
        case DefaultQuerySource =>
          var parts :- StructuredQueryOf(env.parseQueryString(url.query));
          Ok(Some(parts))
        case CustomQuerySource(id) => env.createQuery(id, url)
    }

    /** The query the chosen builder makes of the parts over the base; the default one never answers null. */
    function DeserializedQueryOf(base: Query, parts: seq<StructuredQueryPart>, env: Environment): (r: Result<Option<Query>>)
      reads this
      ensures ChosenQueryBuilder(env.configuration) == DefaultQueryBuilder ==>
        var q := ApplyAll(base, parts, env.host);
        && (q.Err? ==> r == Err(q.error))
        && (q.Ok? ==> r == Ok(Some(q.value)))
    {
      match ChosenQueryBuilder(env.configuration)
        case DefaultQueryBuilder =>
          var q :- ApplyAll(base, parts, env.host);
          Ok(Some(q))
        case CustomQueryBuilder(id) => env.applyQuery(id, base, parts)
    }

    /** The validator, when there is one and a query to validate: the shared instance accepts everything. */
    function Validated(d: Option<Query>, env: Environment): (r: Result<Option<Query>>)
      reads this
      ensures r.Ok? ==> r.value == d
      ensures r.Err? <==> validator.Some? && validator.value.CustomValidator? && d.Some?
                          && env.validate(validator.value.id, d.value).Some?
      ensures r.Err? ==> r.error == env.validate(validator.value.id, d.value).value
    {
      if validator.None? || d.None? then Ok(d)
      else match validator.value
        case DefaultValidator => Ok(d)
        case CustomValidator(id) =>
          var e := env.validate(id, d.value);
          if e.Some? then Err(e.value) else Ok(d)
    }

    /** The placeholder the parts are built over: an empty array of the element type, as a queryable. */
    function Placeholder(elementType: ClrType, env: Environment): (r: Query)
      ensures ValidQuery(r) && r.elementType == elementType && IsQueryableConstant(r.expression)
    {
      SourceQuery(env.arrayProvider, EmptyArray(elementType))
    }

    /**
     * The body of the try block: the structured query of the URL; when it
     * has parts, the query built from them over the placeholder, then
     * validated. No parts (or no structured query) builds nothing.
     */
    function BuiltQuery(q: Query, url: Uri, env: Environment): (r: Result<Option<Query>>)
      reads this
    {
      var parts :- StructuredQueryFor(url, env);
      if parts.None? || parts.value == [] then Ok(None)
      else
        var d :- DeserializedQueryOf(Placeholder(q.elementType, env), parts.value, env);
        Validated(d, env)
    }

    /** The deserialized query: built only for a request with a non-empty query string. */
    function DeserializedFor(q: Query, request: Option<Request>, env: Environment): (r: Result<Option<Query>>)
      reads this
      ensures request.None? || request.value.queryString.None? || |request.value.queryString.value.entries| == 0 ==> r == Ok(None)
      ensures request.Some? && request.value.queryString.Some? && |request.value.queryString.value.entries| > 0 ==>
        r == AsBadRequest(BuiltQuery(q, request.value.url, env))
    {
      if request.None? || request.value.queryString.None? || |request.value.queryString.value.entries| == 0 then Ok(None)
      else AsBadRequest(BuiltQuery(q, request.value.url, env))
    }

    /** The base ApplyResultLimit: Take(ResultLimit) when the limit is positive, else the query as it is. */
    function Limited(query: Query): (r: Query)
      reads this
      ensures r.provider == query.provider && r.elementType == query.elementType
      ensures resultLimit > 0 ==> && r.expression.Call? && r.expression.callee.name == "Take"
                                  && r.expression.callee.declaringType == QueryableType
                                  && r.expression.args == [query.expression, Const(IntegerValue(resultLimit), Int32)]
      ensures resultLimit <= 0 ==> r == query
    {
      if resultLimit > 0 then Take(Some(query), resultLimit).value else query
    }

    /**
     * ApplyResultLimit as the filter runs it: the data filter, when the
     * context has a result and the count is asked for (its InlineCount
     * setting or $inlinecount=allpages), first adds the total count under
     * TotalCountKey (adding a key already there is an argument error);
     * then the limit.
     */
    function LimitOutcome(query: Query, hasResult: bool, request: Option<Request>, items: map<string, int>,
                          env: Environment): (r: Result<(Query, map<string, int>)>)
      reads this
      ensures r.Ok? ==> r.value.0 == Limited(query)
    {
      var counted :=
        if countsInline && hasResult && (inlineCount || ShouldInlineCount(if request.None? then None else request.value.queryString)) then
          var total :- GetTotalCount(query, resultLimit, env.count);
          if TotalCountKey in items then Err(Argument("")) else Ok(items[TotalCountKey := total])
        else Ok(items);
      var newItems :- counted;
      Ok((Limited(query), newItems))
    }

    /**
     * What OnActionExecuted does to the result and Items: nothing unless
     * the result holds an IQueryable; else the deserialized query (if
     * any) composed onto it, then limited; None when nothing changes.
     */
    function Pipeline(result: Option<ActionResult>, request: Option<Request>, items: map<string, int>,
                      env: Environment): (r: Result<Option<(Query, map<string, int>)>>)
      reads this
      ensures (result.None? || result.value.OtherResult?) ==> r == Ok(None)
    {
      if result.None? || result.value.OtherResult? then Ok(None)
      else
        var q := result.value.query;
        var d :- DeserializedFor(q, request, env);
        var composed :- if d.Some? then Compose(q, d.value) else Ok(q);
        var outcome :- LimitOutcome(composed, true, request, items, env);
        Ok(Some(outcome))
    }

    /** OnActionExecuting: a null context is an error; a non-positive ResultLimit is not (the error is made but not thrown). */
    method OnActionExecuting(actionContext: Option<ActionExecutingContext>) returns (err: Option<Exception>)
      ensures err.Some? <==> actionContext.None?
      ensures err.Some? ==> err.value == ArgumentNull("actionContext")
    {
      if actionContext.None? {
        return Some(ArgumentNull("actionContext"));
      }
      err := None;
    }

    /** GetStructuredQuery: the chosen source asked for the URL's structured query. */
    method GetStructuredQuery(request: Request, env: Environment) returns (r: Result<Option<seq<StructuredQueryPart>>>)
      ensures r == StructuredQueryFor(request.url, env)
    {
      var source := ChosenQuerySource(env.configuration);
      match source {
        case DefaultQuerySource =>
          var parts :- GetStructuredQueryOfUri(Some(request.url), env.parseQueryString);
          r := Ok(Some(parts));
        case CustomQuerySource(id) =>
          r := env.createQuery(id, request.url);
      }
    }

    /** GetDeserializedQuery: the chosen builder applies the parts to the base query. */
    method GetDeserializedQuery(base: Query, parts: seq<StructuredQueryPart>, env: Environment) returns (r: Result<Option<Query>>)
      ensures r == DeserializedQueryOf(base, parts, env)
    {
      var builder := ChosenQueryBuilder(env.configuration);
      match builder {
        case DefaultQueryBuilder =>
          var q :- DeserializeParts(Some(base), Some(parts), env.host);
          r := Ok(Some(q));
        case CustomQueryBuilder(id) =>
          r := env.applyQuery(id, base, parts);
      }
    }

    /** The try block of OnActionExecuted, without its catch. */
    method BuildQuery(q: Query, request: Request, env: Environment) returns (r: Result<Option<Query>>)
      ensures r == BuiltQuery(q, request.url, env)
    {
      var parts :- GetStructuredQuery(request, env);
      if parts.None? || parts.value == [] {
        return Ok(None);
      }
      var d :- GetDeserializedQuery(Placeholder(q.elementType, env), parts.value, env);
      if validator.Some? && d.Some? && validator.value.CustomValidator? {
        var e := env.validate(validator.value.id, d.value);
        if e.Some? {
          return Err(e.value);
        }
      }
      r := Ok(d);
    }

    /**
     * ApplyResultLimit: null checks on the context and the query, then the
     * limit (and, for the data filter, the inline count added to Items).
     */
    method ApplyResultLimit(ctx: ActionExecutedContext?, query: Option<Query>, env: Environment) returns (r: Result<Query>)
      modifies ctx
      ensures ctx == null ==> r == Err(ArgumentNull("actionExecutedContext"))
      ensures ctx != null && query.None? ==> r == Err(ArgumentNull("query")) && ctx.items == old(ctx.items)
      ensures ctx != null && query.Some? ==>
        var o := LimitOutcome(query.value, old(ctx.result).Some?, ctx.request, old(ctx.items), env);
        && (o.Err? ==> r == Err(o.error) && ctx.items == old(ctx.items))
        && (o.Ok? ==> r == Ok(o.value.0) && ctx.items == o.value.1)
      ensures ctx != null ==> ctx.result == old(ctx.result)
    {
      if ctx == null {
        return Err(ArgumentNull("actionExecutedContext"));
      }
      if query.None? {
        return Err(ArgumentNull("query"));
      }
      var request := if ctx.request.None? then None else ctx.request.value.queryString;
      var requested := inlineCount || ShouldInlineCount(request);
      if countsInline && ctx.result.Some? && requested {
        var total :- GetTotalCount(query.value, resultLimit, env.count);
        if TotalCountKey in ctx.items {
          return Err(Argument(""));
        }
        ctx.items := ctx.items[TotalCountKey := total];
      }
      r := Ok(Limited(query.value));
    }

    /**
     * OnActionExecuted: a null context is an error; otherwise, when the
     * result holds an IQueryable, the query is deserialized from the
     * request, validated, composed onto the action's query and limited,
     * and the result's value becomes the final query. On an error nothing
     * in the context has changed.
     */
    method OnActionExecuted(ctx: ActionExecutedContext?, env: Environment) returns (err: Option<Exception>)
      modifies ctx
      ensures ctx == null ==> err == Some(ArgumentNull("actionExecutedContext"))
      ensures ctx != null ==>
        var p := Pipeline(old(ctx.result), ctx.request, old(ctx.items), env);
        && (p.Err? ==> err == Some(p.error) && ctx.result == old(ctx.result) && ctx.items == old(ctx.items))
        && (p.Ok? && p.value.None? ==> err.None? && ctx.result == old(ctx.result) && ctx.items == old(ctx.items))
        && (p.Ok? && p.value.Some? ==>
              && err.None? && ctx.result == Some(QueryContent(p.value.value.0)) && ctx.items == p.value.value.1)
    {
      if ctx == null {
        return Some(ArgumentNull("actionExecutedContext"));
      }
      var result := ctx.result;
      if result.None? || result.value.OtherResult? {
        return None;
      }
      var query := result.value.query;
      var deserialized: Option<Query> := None;
      var request := ctx.request;
      if request.Some? && request.value.queryString.Some? && |request.value.queryString.value.entries| > 0 {
        var built := BuildQuery(query, request.value, env);
        var caught := AsBadRequest(built);
        if caught.Err? {
          return Some(caught.error);
        }
        deserialized := caught.value;
      }
      if deserialized.Some? {
        var composed := Compose(query, deserialized.value);
        if composed.Err? {
          return Some(composed.error);
        }
        query := composed.value;
      }
      var limited := ApplyResultLimit(ctx, Some(query), env);
      if limited.Err? {
        return Some(limited.error);
      }
      ctx.result := Some(QueryContent(limited.value));
      err := None;
    }
  }

  // What the pipeline does

  /**
   * Without a non-empty query string nothing is deserialized: the action's
   * own query is only limited.
   */
  lemma UntouchedWithoutQueryString(attr: QueryableFilterAttribute, q: Query, request: Option<Request>,
                                    items: map<string, int>, env: Environment)
    requires request.None? || request.value.queryString.None? || |request.value.queryString.value.entries| == 0
    requires !attr.countsInline
    ensures attr.Pipeline(Some(QueryContent(q)), request, items, env) == Ok(Some((attr.Limited(q), items)))
  {
  }

  /** A query string without any query part builds nothing either. */
  lemma UntouchedWithoutParts(attr: QueryableFilterAttribute, q: Query, request: Request,
                              items: map<string, int>, env: Environment)
    requires request.queryString.Some? && |request.queryString.value.entries| > 0
    requires attr.StructuredQueryFor(request.url, env) in {Ok(None), Ok(Some([]))}
    requires !attr.countsInline
    ensures attr.Pipeline(Some(QueryContent(q)), Some(request), items, env) == Ok(Some((attr.Limited(q), items)))
  {
    assert attr.BuiltQuery(q, request.url, env) == Ok(None);
    NothingDeserialized(attr, q, Some(request), items, env);
  }

  /** When nothing is deserialized the action's own query is only limited. */
  lemma NothingDeserialized(attr: QueryableFilterAttribute, q: Query, request: Option<Request>,
                            items: map<string, int>, env: Environment)
    requires attr.DeserializedFor(q, request, env) == Ok(None)
    requires !attr.countsInline
    ensures attr.Pipeline(Some(QueryContent(q)), request, items, env) == Ok(Some((attr.Limited(q), items)))
  {
  }

  /**
   * A query built from the parts is validated before anything else
   * happens: a validator that throws stops the filter with its exception
   * (a ParseException as Bad Request).
   */
  lemma ValidatorRejectionStops(attr: QueryableFilterAttribute, q: Query, request: Request, items: map<string, int>,
                                env: Environment, parts: seq<StructuredQueryPart>, d: Query, id: nat, e: Exception)
    requires request.queryString.Some? && |request.queryString.value.entries| > 0
    requires attr.StructuredQueryFor(request.url, env) == Ok(Some(parts)) && parts != []
    requires attr.DeserializedQueryOf(attr.Placeholder(q.elementType, env), parts, env) == Ok(Some(d))
    requires attr.validator == Some(CustomValidator(id)) && env.validate(id, d) == Some(e)
    ensures attr.Pipeline(Some(QueryContent(q)), Some(request), items, env)
         == Err(if IsParseException(e) then HttpError(400) else e)
  {
  }

  /**
   * With the default source and builder, a part that fails to parse (or a
   * negative count) answers Bad Request.
   */
  lemma ParseErrorIsBadRequest(attr: QueryableFilterAttribute, q: Query, request: Request, items: map<string, int>,
                               env: Environment, parts: seq<StructuredQueryPart>)
    requires request.queryString.Some? && |request.queryString.value.entries| > 0
    requires attr.querySource.None? && env.configuration.None?
    requires StructuredQueryOf(env.parseQueryString(request.url.query)) == Ok(parts) && parts != []
    requires var built := ApplyAll(attr.Placeholder(q.elementType, env), parts, env.host);
      built.Err? && IsParseException(built.error)
    ensures attr.Pipeline(Some(QueryContent(q)), Some(request), items, env) == Err(HttpError(400))
  {
    BuildFailureIsBadRequest(attr, q, request, env, parts);
  }

  /** The try block fails with the builder's parse error, which the catch turns into Bad Request. */
  lemma BuildFailureIsBadRequest(attr: QueryableFilterAttribute, q: Query, request: Request,
                                 env: Environment, parts: seq<StructuredQueryPart>)
    requires request.queryString.Some? && |request.queryString.value.entries| > 0
    requires attr.querySource.None? && env.configuration.None?
    requires StructuredQueryOf(env.parseQueryString(request.url.query)) == Ok(parts) && parts != []
    requires var built := ApplyAll(attr.Placeholder(q.elementType, env), parts, env.host);
      built.Err? && IsParseException(built.error)
    ensures attr.DeserializedFor(q, Some(request), env) == Err(HttpError(400))
  {
    var built := ApplyAll(attr.Placeholder(q.elementType, env), parts, env.host);
    assert attr.StructuredQueryFor(request.url, env) == Ok(Some(parts));
    assert attr.DeserializedQueryOf(attr.Placeholder(q.elementType, env), parts, env) == Err(built.error);
    assert attr.BuiltQuery(q, request.url, env) == Err(built.error);
  }

  /**
   * A deserialized query is composed onto the action's query, and the
   * limit goes on top of the composed query.
   */
  lemma ComposedThenLimited(attr: QueryableFilterAttribute, q: Query, request: Option<Request>, items: map<string, int>,
                            env: Environment, d: Query)
    requires attr.DeserializedFor(q, request, env) == Ok(Some(d)) && Compose(q, d).Ok?
    requires !attr.countsInline
    ensures attr.Pipeline(Some(QueryContent(q)), request, items, env) == Ok(Some((attr.Limited(Compose(q, d).value), items)))
  {
  }

  /**
   * The data filter asked for the inline count stores the total of the
   * query as it is before the limit under TotalCountKey; a total already
   * stored is an error.
   */
  lemma InlineCountStored(attr: QueryableFilterAttribute, q: Query, request: Option<Request>, items: map<string, int>,
                          env: Environment)
    requires attr.countsInline && attr.inlineCount
    requires GetTotalCount(q, attr.resultLimit, env.count).Ok?
    ensures TotalCountKey !in items ==>
      attr.LimitOutcome(q, true, request, items, env)
        == Ok((attr.Limited(q), items[TotalCountKey := GetTotalCount(q, attr.resultLimit, env.count).value]))
    ensures TotalCountKey in items ==> attr.LimitOutcome(q, true, request, items, env) == Err(Argument(""))
  {
  }

  /** Without being asked for the count, or for the plain filter, Items is left alone. */
  lemma NoCountUnlessAsked(attr: QueryableFilterAttribute, q: Query, request: Option<Request>, items: map<string, int>,
                           env: Environment)
    requires !attr.countsInline || (!attr.inlineCount && (request.None? || !ShouldInlineCount(request.value.queryString)))
    ensures attr.LimitOutcome(q, true, request, items, env) == Ok((attr.Limited(q), items))
  {
  }

  /**
   * The builder guard as written: a filter with its own builder but no
   * own source never uses that builder, and one with its own source but
   * no own builder never uses the configuration's.
   */
  lemma OwnBuilderNeedsOwnSource(attr: QueryableFilterAttribute, configuration: Option<Configuration>, b: QueryBuilder)
    ensures attr.querySource.None? && attr.queryBuilder == Some(b) && configuration.None?
            ==> attr.ChosenQueryBuilder(configuration) == DefaultQueryBuilder
    ensures attr.querySource.Some? && attr.queryBuilder.None? && configuration == Some(Configuration(None, Some(b)))
            ==> attr.ChosenQueryBuilder(configuration) == DefaultQueryBuilder
  {
  }

  /**
   * End to end, with the default source and builder and no inline count:
   * a query string whose parts build Skip(a) then Take(b) over the
   * placeholder (as $skip=a then $top=b do, by AppliedPage) gives the
   * action's own query skipped by a, taken by b, then limited.
   */
  lemma PagedRequest(attr: QueryableFilterAttribute, q: Query, request: Request, items: map<string, int>,
                     env: Environment, parts: seq<StructuredQueryPart>, a: int, b: int)
    requires request.queryString.Some? && |request.queryString.value.entries| > 0
    requires attr.querySource.None? && env.configuration.None? && !attr.countsInline
    requires attr.validator.None? || attr.validator == Some(DefaultValidator)
    requires InRange(a, Int32) && InRange(b, Int32)
    requires StructuredQueryOf(env.parseQueryString(request.url.query)) == Ok(parts) && parts != []
    requires ApplyAll(attr.Placeholder(q.elementType, env), parts, env.host)
          == Ok(Page(attr.Placeholder(q.elementType, env), a, b))
    requires ValidQuery(q) && ArgumentFits(QueryableOf(q.elementType), q.expression)
    ensures attr.Pipeline(Some(QueryContent(q)), Some(request), items, env)
         == Ok(Some((attr.Limited(Page(q, a, b)), items)))
  {
    var p := attr.Placeholder(q.elementType, env);
    BuiltFromParts(attr, q, request.url, env, parts, Page(p, a, b));
    DeserializedAs(attr, q, request, env, Page(p, a, b));
    ComposePaging(q, p, a, b);
    ComposedThenLimited(attr, q, Some(request), items, env, Page(p, a, b));
  }

  /**
   * With the default source and builder and a validator that accepts
   * everything, the query built from a URL with parts is the parts applied
   * to the placeholder.
   */
  lemma BuiltFromParts(attr: QueryableFilterAttribute, q: Query, url: Uri, env: Environment,
                       parts: seq<StructuredQueryPart>, d: Query)
    requires attr.querySource.None? && env.configuration.None?
    requires attr.validator.None? || attr.validator == Some(DefaultValidator)
    requires StructuredQueryOf(env.parseQueryString(url.query)) == Ok(parts) && parts != []
    requires ApplyAll(attr.Placeholder(q.elementType, env), parts, env.host) == Ok(d)
    ensures attr.BuiltQuery(q, url, env) == Ok(Some(d))
  {
  }

  /** A request with a non-empty query string deserializes to the query built from its URL. */
  lemma DeserializedAs(attr: QueryableFilterAttribute, q: Query, request: Request, env: Environment, d: Query)
    requires request.queryString.Some? && |request.queryString.value.entries| > 0
    requires attr.BuiltQuery(q, request.url, env) == Ok(Some(d))
    ensures attr.DeserializedFor(q, Some(request), env) == Ok(Some(d))
  {
  }

  /** Applying $skip=a then $top=b to a query is Skip(a) then Take(b). */
  lemma AppliedPage(p: Query, host: Host, a: nat, b: nat)
    requires a <= 0x7FFF_FFFF && b <= 0x7FFF_FFFF
    ensures ApplyAll(p, [StructuredQueryPart("skip", IntegerText(a)), StructuredQueryPart("top", IntegerText(b))], host)
         == Ok(Page(p, a, b))
  {
    var skipped := Skip(Some(p), a).value;
    SkipOfCount(p, host, a);
    TopOfCount(skipped, host, b);
    ApplyAllPair(p, StructuredQueryPart("skip", IntegerText(a)), StructuredQueryPart("top", IntegerText(b)), host, skipped);
  }
}
