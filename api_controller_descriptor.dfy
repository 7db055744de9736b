/**
 * The controller descriptor of an API controller: its canonical actions
 * (built once from the action method selector and cached) and action lookup
 * by name.
 */
module ApiControllerDescriptor {
  import opened Common
  import opened ActionDescriptors
  import opened ActionMethodSelector

  /** A storage location for a lazily built descriptor array (None is null). */
  class CacheLocation<D> {
    var value: Option<seq<D>>

    constructor()
      ensures value == None
    {
      value := None;
    }
  }

  /** The converted items in order, dropping those the converter maps to null. */
  function ConvertAll<R, D>(items: seq<R>, converter: R -> Option<D>): (r: seq<D>)
    ensures |r| <= |items|
  {
    if items == [] then []
    else
      var last := converter(items[|items| - 1]);
      ConvertAll(items[..|items| - 1], converter) + (if last.Some? then [last.value] else [])
  }

  /** A converter that never yields null keeps every item: one descriptor per item, in order. */
  lemma {:induction false} ConvertAllTotal<R, D>(items: seq<R>, converter: R -> Option<D>)
    requires forall i :: 0 <= i < |items| ==> converter(items[i]).Some?
    ensures |ConvertAll(items, converter)| == |items|
    ensures forall i :: 0 <= i < |items| ==> ConvertAll(items, converter)[i] == converter(items[i]).value
    decreases |items|
  {
    if items != [] {
      var init := items[..|items| - 1];
      assert forall i :: 0 <= i < |init| ==> init[i] == items[i];
      ConvertAllTotal(init, converter);
    }
  }

  /**
   * Returns the cached array when there is one, leaving the cache alone;
   * otherwise converts the initializer's items in order, dropping null
   * results, stores the array in the empty cache and returns it.
   */
  method LazilyFetchOrCreateDescriptors<R, D>(cacheLocation: CacheLocation<D>, initializer: seq<R>, converter: R -> Option<D>)
    returns (r: seq<D>)
    modifies cacheLocation
    ensures old(cacheLocation.value).Some? ==> r == old(cacheLocation.value).value && cacheLocation.value == old(cacheLocation.value)
    ensures old(cacheLocation.value).None? ==> r == ConvertAll(initializer, converter) && cacheLocation.value == Some(r)
  {
    var localArray := cacheLocation.value;
    if localArray.Some? {
      return localArray.value;
    }
    var list: seq<D> := [];
    for i := 0 to |initializer|
      invariant list == ConvertAll(initializer[..i], converter)
    {
      var item := converter(initializer[i]);
      assert initializer[..i + 1][..i] == initializer[..i];
      if item.Some? {
        list := list + [item.value];
      }
    }
    assert initializer[..|initializer|] == initializer;
    cacheLocation.value := Some(list);
    r := list;
  }

  /** Aliased methods first, then the non-aliased ones group by group. */
  function GetAllActionMethodsFromSelector(selector: Selector): seq<MethodInfo>
  {
    selector.aliasedMethods + Flatten(selector.nonAliasedMethods)
  }

  /**
   * The methods listed are exactly the valid action methods with an
   * aliasing attribute followed by the other valid ones without repeats
   * (the latter regrouped by name).
   */
  lemma AllActionMethodsArePermutation(methods: seq<MethodInfo>)
    ensures multiset(GetAllActionMethodsFromSelector(PopulateLookupTables(methods)))
            == multiset(PopulateLookupTables(methods).aliasedMethods) + multiset(NonAliased(methods))
    ensures GetAllActionMethodsFromSelector(PopulateLookupTables(methods))[..|PopulateLookupTables(methods).aliasedMethods|]
            == PopulateLookupTables(methods).aliasedMethods
  {
    FlattenLookupIsPermutation(NonAliased(methods), MethodName);
  }

  /** A canonical action answers to its method's own name. */
  function CreateActionDescriptor(m: MethodInfo): (r: Option<ActionDescriptor>)
    ensures r.Some? && r.value.methodInfo == m && r.value.actionName == m.name
  {
    Some(ActionDescriptor(m, m.name))
  }

  /** The canonical actions: one descriptor per listed method, in order. */
  function CanonicalActions(selector: Selector): seq<ActionDescriptor>
  {
    ConvertAll(GetAllActionMethodsFromSelector(selector), CreateActionDescriptor)
  }

  lemma CanonicalActionsFollowMethods(selector: Selector)
    ensures |CanonicalActions(selector)| == |GetAllActionMethodsFromSelector(selector)|
    ensures forall i :: 0 <= i < |CanonicalActions(selector)| ==>
              && CanonicalActions(selector)[i].methodInfo == GetAllActionMethodsFromSelector(selector)[i]
              && CanonicalActions(selector)[i].actionName == GetAllActionMethodsFromSelector(selector)[i].name
  {
    ConvertAllTotal(GetAllActionMethodsFromSelector(selector), CreateActionDescriptor);
  }

  /** The request-dependent part of a controller context: the selector attributes' verdicts. */
  datatype ControllerContext = ControllerContext(isValidName: NameValidity, isValidForRequest: RequestValidity)

  class ApiControllerDescriptor {
    const selector: Selector
    const canonicalActionsCache: CacheLocation<ActionDescriptor>

    /** The cache is empty or holds the canonical actions. */
    predicate Valid()
      reads canonicalActionsCache
    {
      canonicalActionsCache.value.Some? ==> canonicalActionsCache.value.value == CanonicalActions(selector)
    }

    constructor(methods: seq<MethodInfo>)
      ensures selector == PopulateLookupTables(methods)
      ensures fresh(canonicalActionsCache) && canonicalActionsCache.value == None
      ensures Valid()
    {
      selector := PopulateLookupTables(methods);
      canonicalActionsCache := new CacheLocation();
    }

    /** A fresh copy of the canonical actions, building and caching them on first use. */
    method GetCanonicalActions() returns (a: array<ActionDescriptor>)
      requires Valid()
      modifies canonicalActionsCache
      ensures Valid()
      ensures fresh(a)
      ensures a[..] == CanonicalActions(selector)
      ensures canonicalActionsCache.value == Some(CanonicalActions(selector))
    {
      var actions := LazilyFetchOrCreateDescriptors(canonicalActionsCache, GetAllActionMethodsFromSelector(selector), CreateActionDescriptor);
      a := new ActionDescriptor[|actions|](i requires 0 <= i < |actions| => actions[i]);
    }

    /**
     * The descriptor for an action name: a null context or a null or empty
     * name is an argument error; otherwise the method the selector finds,
     * wrapped with the requested name, or null when there is none.
     */
    method FindAction(controllerContext: Option<ControllerContext>, actionName: Option<string>)
      returns (r: Result<Option<ActionDescriptor>>)
      ensures controllerContext.None? ==> r == Err(ArgumentNull("controllerContext"))
      ensures controllerContext.Some? && IsNullOrEmpty(actionName) ==> r == Err(Argument("actionName"))
      ensures (controllerContext.Some? && !IsNullOrEmpty(actionName)) ==>
                var ctx := controllerContext.value;
                var survivors := SelectionFilters(Candidates(selector, actionName.value, ctx.isValidName), ctx.isValidForRequest);
                && (|survivors| == 0 ==> r == Ok(None))
                && (|survivors| == 1 ==> r == Ok(Some(ActionDescriptor(survivors[0], actionName.value))))
                && (|survivors| > 1 ==> r == Err(AmbiguousMatch))
    {
      if controllerContext.None? {
        return Err(ArgumentNull("controllerContext"));
      }
      if IsNullOrEmpty(actionName) {
        return Err(Argument("actionName"));
      }
      var ctx := controllerContext.value;
      var methodInfo := FindActionMethod(selector, actionName.value, ctx.isValidName, ctx.isValidForRequest);
      if methodInfo.Err? {
        return Err(methodInfo.error);
      }
      if methodInfo.value.None? {
        return Ok(None);
      }
      r := Ok(Some(ActionDescriptor(methodInfo.value.value, actionName.value)));
    }
  }
}
