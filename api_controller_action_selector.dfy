/**
 * Action selection for API controllers. With an "action" route value the
 * candidates are the actions answering to that name, filtered by verb;
 * without one, the actions whose attributes accept the request or whose
 * name starts with the HTTP verb. Several candidates are narrowed by the
 * route and query parameter names they can bind, then by dropping actions
 * returning ActionResult.
 */
module ApiControllerActionSelector {
  import opened Common
  import opened ActionDescriptors

  const NotFound := 404
  const MethodNotAllowed := 405
  const InternalServerError := 500

  /**
   * What selection reads from the controller context: the route value keys,
   * the "action" route value as text (if present), the HTTP method after
   * overrides, the query-string keys (None for a segment without '='), and
   * the selector attributes' verdicts for this request.
   */
  datatype ControllerContext = ControllerContext(
    routeKeys: seq<string>,
    actionRouteValue: Option<string>,
    httpMethod: string,
    queryKeys: seq<Option<string>>,
    isValidName: NameValidity,
    isValidForRequest: RequestValidity)

  function ActionMethodName(d: ActionDescriptor): string { d.methodInfo.name }

  /** The parameter names recorded for a descriptor's method. */
  function ParameterNames(d: ActionDescriptor): seq<string>
  {
    RequiredParameterNames(d.methodInfo)
  }

  /** Exactly GET, POST, PUT or DELETE (ordinal). */
  predicate IsSupportedVerb(verb: string)
  {
    verb == "GET" || verb == "POST" || verb == "PUT" || verb == "DELETE"
  }

  /** The action name is one of the allowed verbs and is the incoming method, both ignoring case. */
  predicate IsValid(incomingMethod: string, actionName: string)
  {
    (exists i :: 0 <= i < |AllowedVerbs| && EqualsIgnoreCase(AllowedVerbs[i], actionName))
    && EqualsIgnoreCase(actionName, incomingMethod)
  }

  /** An action named by route survives verb filtering: by its attributes, or by being named after the verb. */
  predicate CompatibleWithVerb(d: ActionDescriptor, incomingMethod: string, isValidForRequest: RequestValidity)
  {
    if |d.methodInfo.methodSelectors| > 0 then MethodSelectorsAccept(d.methodInfo, isValidForRequest)
    else IsValid(incomingMethod, d.actionName)
  }

  /** An action qualifies for a verb without an action route value. */
  predicate QualifiesForVerb(d: ActionDescriptor, verb: string, isValidForRequest: RequestValidity)
  {
    || (|d.methodInfo.methodSelectors| > 0 && MethodSelectorsAccept(d.methodInfo, isValidForRequest))
    || (IsSupportedVerb(verb) && StartsWithIgnoreCase(d.actionName, verb))
  }

  /** Route value keys other than "controller" and "action" (ignoring case). */
  function RouteParameterNames(ctx: ControllerContext): (r: seq<string>)
    ensures forall k :: k in r <==> k in ctx.routeKeys && !EqualsIgnoreCase(k, "controller") && !EqualsIgnoreCase(k, "action")
  {
    Filter(ctx.routeKeys, (k: string) => !EqualsIgnoreCase(k, "controller") && !EqualsIgnoreCase(k, "action"))
  }

  /** Every parameter name of the action equals (ignoring case) a query key or a route parameter name. */
  predicate ParametersCovered(d: ActionDescriptor, ctx: ControllerContext)
  {
    forall i :: 0 <= i < |ParameterNames(d)| ==>
      (|| (exists k :: 0 <= k < |ctx.queryKeys| && ctx.queryKeys[k].Some? && EqualsIgnoreCase(ParameterNames(d)[i], ctx.queryKeys[k].value))
       || (exists k :: 0 <= k < |RouteParameterNames(ctx)| && EqualsIgnoreCase(ParameterNames(d)[i], RouteParameterNames(ctx)[k])))
  }

  /** The largest parameter count among the actions (0 for none). */
  function MaxParameterCount(actions: seq<ActionDescriptor>): (r: nat)
    ensures forall i :: 0 <= i < |actions| ==> |ParameterNames(actions[i])| <= r
    ensures actions != [] ==> exists i :: 0 <= i < |actions| && |ParameterNames(actions[i])| == r
  {
    if actions == [] then 0
    else
      var rest := MaxParameterCount(actions[1..]);
      assert forall i :: 1 <= i < |actions| ==> actions[i] == actions[1..][i - 1];
      if |ParameterNames(actions[0])| >= rest then |ParameterNames(actions[0])| else rest
  }

  /**
   * With route or query parameters: when several actions remain, those whose
   * parameters are all covered, and among several of those the ones with the
   * most parameters. Without any: the parameterless actions.
   */
  function FindActionUsingRouteAndQueryParameters(ctx: ControllerContext, actionsFound: seq<ActionDescriptor>): seq<ActionDescriptor>
  {
    if |RouteParameterNames(ctx)| > 0 || |ctx.queryKeys| > 0 then
      if |actionsFound| > 1 then
        var covered := Filter(actionsFound, (d: ActionDescriptor) => ParametersCovered(d, ctx));
        if |covered| > 1 then
          var most := MaxParameterCount(covered);
          Filter(covered, (d: ActionDescriptor) => |ParameterNames(d)| == most)
        else covered
      else actionsFound
    else Filter(actionsFound, (d: ActionDescriptor) => |ParameterNames(d)| == 0)
  }

  /** The actions whose return type is not exactly ActionResult. */
  function FilterActionResult(descriptors: seq<ActionDescriptor>): (r: seq<ActionDescriptor>)
    ensures forall i :: 0 <= i < |r| ==> r[i] in descriptors && r[i].methodInfo.returnType != ActionResultType
    ensures forall i :: 0 <= i < |descriptors| && descriptors[i].methodInfo.returnType != ActionResultType
                        ==> descriptors[i] in r
  {
    Filter(descriptors, (d: ActionDescriptor) => d.methodInfo.returnType != ActionResultType)
  }

  /** The parameter step keeps only candidates. */
  lemma ParameterStepKeepsCandidates(ctx: ControllerContext, actionsFound: seq<ActionDescriptor>, d: ActionDescriptor)
    requires d in FindActionUsingRouteAndQueryParameters(ctx, actionsFound)
    ensures d in actionsFound
  {
    var covered := Filter(actionsFound, (d: ActionDescriptor) => ParametersCovered(d, ctx));
    if |RouteParameterNames(ctx)| > 0 || |ctx.queryKeys| > 0 {
      if |actionsFound| > 1 {
        FilterMembership(actionsFound, (d: ActionDescriptor) => ParametersCovered(d, ctx), d);
        if |covered| > 1 {
          var most := MaxParameterCount(covered);
          FilterMembership(covered, (d: ActionDescriptor) => |ParameterNames(d)| == most, d);
        }
      }
    } else {
      FilterMembership(actionsFound, (d: ActionDescriptor) => |ParameterNames(d)| == 0, d);
    }
  }

  /** With route or query parameters and several candidates, every survivor can bind all its parameters. */
  lemma ParameterStepCovers(ctx: ControllerContext, actionsFound: seq<ActionDescriptor>, d: ActionDescriptor)
    requires |RouteParameterNames(ctx)| > 0 || |ctx.queryKeys| > 0
    requires |actionsFound| > 1
    requires d in FindActionUsingRouteAndQueryParameters(ctx, actionsFound)
    ensures ParametersCovered(d, ctx)
  {
    var covered := Filter(actionsFound, (d: ActionDescriptor) => ParametersCovered(d, ctx));
    FilterMembership(actionsFound, (d: ActionDescriptor) => ParametersCovered(d, ctx), d);
    if |covered| > 1 {
      var most := MaxParameterCount(covered);
      FilterMembership(covered, (d: ActionDescriptor) => |ParameterNames(d)| == most, d);
    }
  }

  /** Without route or query parameters, the survivors are exactly the parameterless candidates. */
  lemma ParameterStepWithoutParameters(ctx: ControllerContext, actionsFound: seq<ActionDescriptor>, d: ActionDescriptor)
    requires |RouteParameterNames(ctx)| == 0 && |ctx.queryKeys| == 0
    ensures d in FindActionUsingRouteAndQueryParameters(ctx, actionsFound) <==> d in actionsFound && ParameterNames(d) == []
  {
    FilterMembership(actionsFound, (d: ActionDescriptor) => |ParameterNames(d)| == 0, d);
  }

  /**
   * Among several covered actions, the survivors are exactly the covered
   * actions with the largest number of parameters.
   */
  lemma LongestParameterMatchWins(ctx: ControllerContext, actionsFound: seq<ActionDescriptor>, d: ActionDescriptor)
    requires |RouteParameterNames(ctx)| > 0 || |ctx.queryKeys| > 0
    requires |Filter(actionsFound, (d: ActionDescriptor) => ParametersCovered(d, ctx))| > 1
    ensures d in FindActionUsingRouteAndQueryParameters(ctx, actionsFound) <==>
            (&& d in actionsFound && ParametersCovered(d, ctx)
             && forall e :: e in actionsFound && ParametersCovered(e, ctx) ==> |ParameterNames(e)| <= |ParameterNames(d)|)
  {
    var covers := (d: ActionDescriptor) => ParametersCovered(d, ctx);
    var covered := Filter(actionsFound, covers);
    var most := MaxParameterCount(covered);
    assert |actionsFound| > 1;
    assert FindActionUsingRouteAndQueryParameters(ctx, actionsFound) == Filter(covered, (d: ActionDescriptor) => |ParameterNames(d)| == most);
    FilterMembership(covered, (d: ActionDescriptor) => |ParameterNames(d)| == most, d);
    FilterMembership(actionsFound, covers, d);
    CoveredAtMostMost(actionsFound, covers, covered, most);
    var w :| 0 <= w < |covered| && |ParameterNames(covered[w])| == most;
    FilterMembership(actionsFound, covers, covered[w]);
  }

  /** Every covered action has at most the largest count among the covered ones. */
  lemma CoveredAtMostMost(actionsFound: seq<ActionDescriptor>, covers: ActionDescriptor -> bool,
                          covered: seq<ActionDescriptor>, most: nat)
    requires covered == Filter(actionsFound, covers)
    requires most == MaxParameterCount(covered)
    ensures forall e :: e in actionsFound && covers(e) ==> |ParameterNames(e)| <= most
  {
    forall e | e in actionsFound && covers(e) ensures |ParameterNames(e)| <= most {
      FilterMembership(actionsFound, covers, e);
      var n :| 0 <= n < |covered| && covered[n] == e;
    }
  }

  /** The final count decides: none is 404, one is the action, several is 500. */
  function Decide(descriptors: seq<ActionDescriptor>): (r: Result<ActionDescriptor>)
    ensures |descriptors| == 1 <==> r.Ok?
    ensures r.Ok? ==> r.value == descriptors[0]
    ensures |descriptors| == 0 <==> r == Err(HttpError(NotFound))
    ensures |descriptors| > 1 <==> r == Err(HttpError(InternalServerError))
  {
    if |descriptors| == 0 then Err(HttpError(NotFound))
    else if |descriptors| == 1 then Ok(descriptors[0])
    else Err(HttpError(InternalServerError))
  }

  /** The narrowing applied once verb filtering left some candidates. */
  function Narrow(ctx: ControllerContext, descriptors: seq<ActionDescriptor>): seq<ActionDescriptor>
  {
    var byParameters := if |descriptors| > 1 then FindActionUsingRouteAndQueryParameters(ctx, descriptors) else descriptors;
    if |byParameters| > 1 then FilterActionResult(byParameters) else byParameters
  }

  lemma NarrowKeepsCandidates(ctx: ControllerContext, descriptors: seq<ActionDescriptor>, d: ActionDescriptor)
    requires d in Narrow(ctx, descriptors)
    ensures d in descriptors
  {
    if |descriptors| > 1 {
      var byParameters := FindActionUsingRouteAndQueryParameters(ctx, descriptors);
      if |byParameters| > 1 {
        FilterMembership(byParameters, (d: ActionDescriptor) => d.methodInfo.returnType != ActionResultType, d);
      }
      ParameterStepKeepsCandidates(ctx, descriptors, d);
    }
  }

  /**
   * The cache item built for one controller: its canonical actions, the
   * recorded parameter names of each, the aliased actions and the lookup of
   * the others by method name ignoring case.
   */
  class ActionSelectorCacheItem {
    const actionDescriptors: seq<ActionDescriptor>
    const actionParameterNames: map<MethodInfo, seq<string>>
    const aliasedMethods: seq<ActionDescriptor>
    const nonAliasedMethods: seq<Grouping<ActionDescriptor>>
    const cacheListVerbKinds: seq<string>

    /** Canonical actions wrap distinct methods, so recording their parameter names never meets a duplicate key. */
    constructor(canonicalActions: seq<ActionDescriptor>)
      requires forall i, j :: 0 <= i < j < |canonicalActions| ==> canonicalActions[i].methodInfo != canonicalActions[j].methodInfo
      ensures actionDescriptors == canonicalActions
      ensures actionParameterNames.Keys == set d | d in canonicalActions :: d.methodInfo
      ensures forall d :: d in canonicalActions ==> actionParameterNames[d.methodInfo] == RequiredParameterNames(d.methodInfo)
      ensures aliasedMethods == Filter(canonicalActions, (d: ActionDescriptor) => IsDecoratedWithAliasingAttribute(d.methodInfo))
      ensures nonAliasedMethods == ToLookup(Distinct(Filter(canonicalActions, (d: ActionDescriptor) => d !in aliasedMethods)), ActionMethodName)
      ensures cacheListVerbKinds == ["GET", "PUT", "POST"]
      ensures Valid()
    {
      var names: map<MethodInfo, seq<string>> := map[];
      for i := 0 to |canonicalActions|
        invariant names.Keys == set d | d in canonicalActions[..i] :: d.methodInfo
        invariant forall d :: d in canonicalActions[..i] ==> names[d.methodInfo] == RequiredParameterNames(d.methodInfo)
      {
        var action := canonicalActions[i];
        assert action.methodInfo !in names;
        names := names[action.methodInfo := RequiredParameterNames(action.methodInfo)];
        assert canonicalActions[..i + 1] == canonicalActions[..i] + [action];
      }
      assert canonicalActions[..|canonicalActions|] == canonicalActions;
      var aliased := Filter(canonicalActions, (d: ActionDescriptor) => IsDecoratedWithAliasingAttribute(d.methodInfo));
      actionDescriptors := canonicalActions;
      actionParameterNames := names;
      aliasedMethods := aliased;
      nonAliasedMethods := ToLookup(Distinct(Filter(canonicalActions, (d: ActionDescriptor) => d !in aliased)), ActionMethodName);
      cacheListVerbKinds := ["GET", "PUT", "POST"];
    }

    /** The aliased actions whose name attributes all accept the action name. */
    function GetMatchingAliasedMethods(ctx: ControllerContext, actionName: string): (r: seq<ActionDescriptor>)
      ensures forall i :: 0 <= i < |r| ==> r[i] in aliasedMethods && NameSelectorsAccept(r[i].methodInfo, actionName, ctx.isValidName)
    {
      Filter(aliasedMethods, (d: ActionDescriptor) => NameSelectorsAccept(d.methodInfo, actionName, ctx.isValidName))
    }

    /** The candidates for an action route value: the matching aliased actions united with the named ones. */
    function DescriptorsFound(ctx: ControllerContext, actionName: string): seq<ActionDescriptor>
    {
      Distinct(GetMatchingAliasedMethods(ctx, actionName) + LookupGet(nonAliasedMethods, actionName))
    }

    /** The actions that qualify for the verb, in order. */
    function ActionsForVerb(verb: string, ctx: ControllerContext): seq<ActionDescriptor>
    {
      Filter(actionDescriptors, (d: ActionDescriptor) => QualifiesForVerb(d, verb, ctx.isValidForRequest))
    }

    /** The whole selection for a request. */
    function Selection(ctx: ControllerContext): Result<ActionDescriptor>
    {
      if ctx.actionRouteValue.Some? then
        var found := DescriptorsFound(ctx, ctx.actionRouteValue.value);
        if |found| == 0 then Err(HttpError(NotFound))
        else
          var descriptors := Filter(found, (d: ActionDescriptor) => CompatibleWithVerb(d, ctx.httpMethod, ctx.isValidForRequest));
          if |descriptors| == 0 then Err(HttpError(MethodNotAllowed)) else Decide(Narrow(ctx, descriptors))
      else
        var descriptors := ActionsForVerb(ctx.httpMethod, ctx);
        if |descriptors| == 0 then Err(HttpError(MethodNotAllowed)) else Decide(Narrow(ctx, descriptors))
    }

    /** Collects the actions qualifying for the verb in one pass over the canonical actions. */
    method FindActionsForVerb(verb: string, ctx: ControllerContext) returns (r: seq<ActionDescriptor>)
      ensures r == ActionsForVerb(verb, ctx)
    {
      var supportedVerb := IsSupportedVerb(verb);
      var list: seq<ActionDescriptor> := [];
      for i := 0 to |actionDescriptors|
        invariant list == Filter(actionDescriptors[..i], (d: ActionDescriptor) => QualifiesForVerb(d, verb, ctx.isValidForRequest))
      {
        var descriptor := actionDescriptors[i];
        assert actionDescriptors[..i + 1][..i] == actionDescriptors[..i];
        if |descriptor.methodInfo.methodSelectors| > 0 && MethodSelectorsAccept(descriptor.methodInfo, ctx.isValidForRequest) {
          list := list + [descriptor];
        } else if supportedVerb && StartsWithIgnoreCase(descriptor.actionName, verb) {
          list := list + [descriptor];
        }
      }
      assert actionDescriptors[..|actionDescriptors|] == actionDescriptors;
      r := list;
    }

    /** Selects the action for a request, or the HTTP error the selector raises. */
    method SelectAction(ctx: ControllerContext) returns (r: Result<ActionDescriptor>)
      ensures r == Selection(ctx)
    {
      var descriptors: seq<ActionDescriptor>;
      if ctx.actionRouteValue.Some? {
        var actionName := ctx.actionRouteValue.value;
        var descriptorsFound := DescriptorsFound(ctx, actionName);
        if |descriptorsFound| == 0 {
          return Err(HttpError(NotFound));
        }
        descriptors := Filter(descriptorsFound, (d: ActionDescriptor) => CompatibleWithVerb(d, ctx.httpMethod, ctx.isValidForRequest));
      } else {
        descriptors := FindActionsForVerb(ctx.httpMethod, ctx);
      }
      if |descriptors| == 0 {
        return Err(HttpError(MethodNotAllowed));
      }
      if |descriptors| > 1 {
        descriptors := FindActionUsingRouteAndQueryParameters(ctx, descriptors);
      }
      if |descriptors| > 1 {
        descriptors := FilterActionResult(descriptors);
      }
      if |descriptors| == 0 {
        r := Err(HttpError(NotFound));
      } else if |descriptors| == 1 {
        r := Ok(descriptors[0]);
      } else {
        r := Err(HttpError(InternalServerError));
      }
    }

    /** The tables hold what the constructor builds from the canonical actions. */
    predicate Valid()
    {
      && aliasedMethods == Filter(actionDescriptors, (d: ActionDescriptor) => IsDecoratedWithAliasingAttribute(d.methodInfo))
      && nonAliasedMethods == ToLookup(Distinct(Filter(actionDescriptors, (d: ActionDescriptor) => d !in aliasedMethods)), ActionMethodName)
    }

    /**
     * With an action route value: no action answering to the name is a 404,
     * and when some do but none is compatible with the verb, a 405.
     */
    lemma ActionNameErrors(ctx: ControllerContext)
      requires ctx.actionRouteValue.Some?
      ensures |DescriptorsFound(ctx, ctx.actionRouteValue.value)| == 0 ==> Selection(ctx) == Err(HttpError(NotFound))
      ensures (&& |DescriptorsFound(ctx, ctx.actionRouteValue.value)| > 0
               && forall d :: d in DescriptorsFound(ctx, ctx.actionRouteValue.value) ==>
                                !CompatibleWithVerb(d, ctx.httpMethod, ctx.isValidForRequest))
              ==> Selection(ctx) == Err(HttpError(MethodNotAllowed))
    {
      var found := DescriptorsFound(ctx, ctx.actionRouteValue.value);
      var descriptors := Filter(found, (d: ActionDescriptor) => CompatibleWithVerb(d, ctx.httpMethod, ctx.isValidForRequest));
      if |descriptors| > 0 {
        FilterMembership(found, (d: ActionDescriptor) => CompatibleWithVerb(d, ctx.httpMethod, ctx.isValidForRequest), descriptors[0]);
      }
    }

    /**
     * A selected action answers to the route's action name (by its name
     * attributes if it is aliased, else by its method name ignoring case)
     * and is compatible with the verb.
     */
    lemma ActionNameSelection(ctx: ControllerContext)
      requires Valid()
      requires ctx.actionRouteValue.Some?
      requires Selection(ctx).Ok?
      ensures CompatibleWithVerb(Selection(ctx).value, ctx.httpMethod, ctx.isValidForRequest)
      ensures Selection(ctx).value in aliasedMethods
              ==> NameSelectorsAccept(Selection(ctx).value.methodInfo, ctx.actionRouteValue.value, ctx.isValidName)
      ensures Selection(ctx).value !in aliasedMethods
              ==> EqualsIgnoreCase(Selection(ctx).value.methodInfo.name, ctx.actionRouteValue.value)
    {
      var actionName := ctx.actionRouteValue.value;
      var found := DescriptorsFound(ctx, actionName);
      var descriptors := Filter(found, (d: ActionDescriptor) => CompatibleWithVerb(d, ctx.httpMethod, ctx.isValidForRequest));
      var d := Selection(ctx).value;
      assert d in Narrow(ctx, descriptors);
      NarrowKeepsCandidates(ctx, descriptors, d);
      FilterMembership(found, (d: ActionDescriptor) => CompatibleWithVerb(d, ctx.httpMethod, ctx.isValidForRequest), d);
      var aliasedMatches := GetMatchingAliasedMethods(ctx, actionName);
      var named := LookupGet(nonAliasedMethods, actionName);
      DistinctMembership(aliasedMatches + named, d);
      if d in aliasedMatches {
        var k :| 0 <= k < |aliasedMatches| && aliasedMatches[k] == d;
      } else {
        assert d in named;
        LookupNamesMatch(actionName, d);
      }
    }

    /** The named lookup holds only non-aliased actions whose method name matches ignoring case. */
    lemma LookupNamesMatch(actionName: string, d: ActionDescriptor)
      requires Valid()
      requires d in LookupGet(nonAliasedMethods, actionName)
      ensures d !in aliasedMethods && EqualsIgnoreCase(d.methodInfo.name, actionName)
    {
      var rest := Distinct(Filter(actionDescriptors, (d: ActionDescriptor) => d !in aliasedMethods));
      LookupGetMembers(rest, ActionMethodName, actionName);
      var f := LookupGet(nonAliasedMethods, actionName);
      var j :| 0 <= j < |f| && f[j] == d;
      assert EqualsIgnoreCase(ActionMethodName(d), actionName);
      DistinctMembership(Filter(actionDescriptors, (d: ActionDescriptor) => d !in aliasedMethods), d);
      FilterMembership(actionDescriptors, (d: ActionDescriptor) => d !in aliasedMethods, d);
    }

    /**
     * Without an action route value: nothing qualifying for the verb is a
     * 405, and a selected action is one of the controller's actions whose
     * attributes accept the request or whose name starts with a supported verb.
     */
    lemma VerbSelection(ctx: ControllerContext)
      requires ctx.actionRouteValue.None?
      ensures (forall i :: 0 <= i < |actionDescriptors| ==> !QualifiesForVerb(actionDescriptors[i], ctx.httpMethod, ctx.isValidForRequest))
              ==> Selection(ctx) == Err(HttpError(MethodNotAllowed))
      ensures Selection(ctx).Ok? ==>
                Selection(ctx).value in actionDescriptors && QualifiesForVerb(Selection(ctx).value, ctx.httpMethod, ctx.isValidForRequest)
    {
      var descriptors := ActionsForVerb(ctx.httpMethod, ctx);
      var qualifies := (d: ActionDescriptor) => QualifiesForVerb(d, ctx.httpMethod, ctx.isValidForRequest);
      if |descriptors| > 0 {
        FilterMembership(actionDescriptors, qualifies, descriptors[0]);
      }
      if Selection(ctx).Ok? {
        var d := Selection(ctx).value;
        assert d in Narrow(ctx, descriptors);
        NarrowKeepsCandidates(ctx, descriptors, d);
        FilterMembership(actionDescriptors, qualifies, d);
      }
    }
  }
}
