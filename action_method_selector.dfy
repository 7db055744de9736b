/**
 * Finding the controller method for an action name: aliased methods (those
 * carrying an ActionNameSelectorAttribute) are matched by their attributes,
 * the others by name ignoring case, and the candidates are then narrowed by
 * their ActionMethodSelectorAttributes.
 */
module ActionMethodSelector {
  import opened Common
  import opened ActionDescriptors

  /** The lookup tables built once for a controller type. */
  datatype Selector = Selector(aliasedMethods: seq<MethodInfo>, nonAliasedMethods: seq<Grouping<MethodInfo>>)

  function MethodName(m: MethodInfo): string { m.name }

  /**
   * PopulateLookupTables over the controller's public instance methods:
   * the valid action methods with an aliasing attribute, in order, and the
   * remaining valid ones (without repeats) grouped by name ignoring case.
   */
  function PopulateLookupTables(methods: seq<MethodInfo>): (r: Selector)
    ensures forall i :: 0 <= i < |r.aliasedMethods| ==>
              r.aliasedMethods[i] in methods && IsValidActionMethod(r.aliasedMethods[i])
              && IsDecoratedWithAliasingAttribute(r.aliasedMethods[i])
    ensures forall i :: 0 <= i < |methods| && IsValidActionMethod(methods[i]) && IsDecoratedWithAliasingAttribute(methods[i])
                        ==> methods[i] in r.aliasedMethods
  {
    var valid := Filter(methods, IsValidActionMethod);
    var aliased := Filter(valid, IsDecoratedWithAliasingAttribute);
    Selector(aliased, ToLookup(NonAliased(methods), MethodName))
  }

  /** Except(valid, aliased): the valid methods without an aliasing attribute, without repeats. */
  function NonAliased(methods: seq<MethodInfo>): (r: seq<MethodInfo>)
    ensures forall i :: 0 <= i < |r| ==> r[i] in methods && IsValidActionMethod(r[i]) && !IsDecoratedWithAliasingAttribute(r[i])
  {
    var valid := Filter(methods, IsValidActionMethod);
    var aliased := Filter(valid, IsDecoratedWithAliasingAttribute);
    Distinct(Filter(valid, (m: MethodInfo) => m !in aliased))
  }

  /**
   * The non-aliased lookup answers a name with the valid, unaliased methods
   * of that name (ignoring case), each once, in declaration order.
   */
  lemma NonAliasedLookup(methods: seq<MethodInfo>, name: string)
    ensures forall m :: m in LookupGet(PopulateLookupTables(methods).nonAliasedMethods, name) ==>
              m in methods && IsValidActionMethod(m) && !IsDecoratedWithAliasingAttribute(m) && EqualsIgnoreCase(m.name, name)
  {
    var nonAliased := NonAliased(methods);
    LookupGetMembers(nonAliased, MethodName, name);
    var f := LookupGet(ToLookup(nonAliased, MethodName), name);
    forall m | m in f
      ensures m in methods && IsValidActionMethod(m) && !IsDecoratedWithAliasingAttribute(m) && EqualsIgnoreCase(m.name, name)
    {
      var j :| 0 <= j < |f| && f[j] == m;
      assert m in nonAliased;
      assert EqualsIgnoreCase(MethodName(m), name);
    }
  }

  /** The aliased methods all of whose name attributes accept the action name, in order. */
  function GetMatchingAliasedMethods(selector: Selector, actionName: string, isValidName: NameValidity): (r: seq<MethodInfo>)
    ensures forall i :: 0 <= i < |r| ==> r[i] in selector.aliasedMethods && NameSelectorsAccept(r[i], actionName, isValidName)
    ensures forall i :: 0 <= i < |selector.aliasedMethods| && NameSelectorsAccept(selector.aliasedMethods[i], actionName, isValidName)
                        ==> selector.aliasedMethods[i] in r
  {
    Filter(selector.aliasedMethods, (m: MethodInfo) => NameSelectorsAccept(m, actionName, isValidName))
  }

  /** The candidates for an action name: matching aliased methods, then the non-aliased ones of that name. */
  function Candidates(selector: Selector, actionName: string, isValidName: NameValidity): seq<MethodInfo>
  {
    GetMatchingAliasedMethods(selector, actionName, isValidName) + LookupGet(selector.nonAliasedMethods, actionName)
  }

  /** The method has selector attributes and all of them accept the request. */
  predicate AttributedAndAccepted(m: MethodInfo, isValidForRequest: RequestValidity)
  {
    |m.methodSelectors| > 0 && MethodSelectorsAccept(m, isValidForRequest)
  }

  predicate Unattributed(m: MethodInfo)
  {
    |m.methodSelectors| == 0
  }

  /**
   * The attributed methods whose attributes all accept the request when
   * there are any (they are more specific); otherwise the unattributed ones.
   */
  function SelectionFilters(methodInfos: seq<MethodInfo>, isValidForRequest: RequestValidity): seq<MethodInfo>
  {
    var withAttributes := Filter(methodInfos, (m: MethodInfo) => AttributedAndAccepted(m, isValidForRequest));
    if |withAttributes| > 0 then withAttributes else Filter(methodInfos, Unattributed)
  }

  /**
   * The survivors of the selection filters are candidates; they are either
   * all attributed and accepted (when any candidate is) or all unattributed,
   * and an attributed method whose attributes reject the request never survives.
   */
  lemma SelectionFiltersPreferAttributed(methodInfos: seq<MethodInfo>, isValidForRequest: RequestValidity)
    ensures forall m :: m in SelectionFilters(methodInfos, isValidForRequest) ==> m in methodInfos
    ensures (exists i :: 0 <= i < |methodInfos| && AttributedAndAccepted(methodInfos[i], isValidForRequest))
            ==> forall m :: m in SelectionFilters(methodInfos, isValidForRequest) ==> AttributedAndAccepted(m, isValidForRequest)
    ensures (forall i :: 0 <= i < |methodInfos| ==> !AttributedAndAccepted(methodInfos[i], isValidForRequest))
            ==> SelectionFilters(methodInfos, isValidForRequest) == Filter(methodInfos, Unattributed)
    ensures forall m :: m in SelectionFilters(methodInfos, isValidForRequest) && |m.methodSelectors| > 0
                        ==> MethodSelectorsAccept(m, isValidForRequest)
  {
    var withAttributes := Filter(methodInfos, (m: MethodInfo) => AttributedAndAccepted(m, isValidForRequest));
    if exists i :: 0 <= i < |methodInfos| && AttributedAndAccepted(methodInfos[i], isValidForRequest) {
      var i :| 0 <= i < |methodInfos| && AttributedAndAccepted(methodInfos[i], isValidForRequest);
      assert methodInfos[i] in withAttributes;
    }
    if |withAttributes| > 0 {
      assert withAttributes[0] in methodInfos && AttributedAndAccepted(withAttributes[0], isValidForRequest);
    }
  }

  /** Splits the candidates into the accepted attributed ones and the unattributed ones in one pass. */
  method RunSelectionFilters(methodInfos: seq<MethodInfo>, isValidForRequest: RequestValidity) returns (r: seq<MethodInfo>)
    ensures r == SelectionFilters(methodInfos, isValidForRequest)
  {
    var list: seq<MethodInfo> := [];
    var list2: seq<MethodInfo> := [];
    var i := 0;
    while i < |methodInfos|
      invariant 0 <= i <= |methodInfos|
      invariant list == Filter(methodInfos[..i], (m: MethodInfo) => AttributedAndAccepted(m, isValidForRequest))
      invariant list2 == Filter(methodInfos[..i], Unattributed)
    {
      var methodInfo := methodInfos[i];
      assert methodInfos[..i + 1][..i] == methodInfos[..i];
      if |methodInfo.methodSelectors| == 0 {
        list2 := list2 + [methodInfo];
      } else if MethodSelectorsAccept(methodInfo, isValidForRequest) {
        list := list + [methodInfo];
      }
      i := i + 1;
    }
    assert methodInfos[..i] == methodInfos;
    if |list| <= 0 {
      r := list2;
    } else {
      r := list;
    }
  }

  /**
   * The method for an action name: none when no candidate survives, the
   * survivor when there is one, and an AmbiguousMatchException otherwise.
   */
  method FindActionMethod(selector: Selector, actionName: string, isValidName: NameValidity, isValidForRequest: RequestValidity)
    returns (r: Result<Option<MethodInfo>>)
    ensures |SelectionFilters(Candidates(selector, actionName, isValidName), isValidForRequest)| == 0 ==> r == Ok(None)
    ensures |SelectionFilters(Candidates(selector, actionName, isValidName), isValidForRequest)| == 1
            ==> r == Ok(Some(SelectionFilters(Candidates(selector, actionName, isValidName), isValidForRequest)[0]))
    ensures |SelectionFilters(Candidates(selector, actionName, isValidName), isValidForRequest)| > 1 ==> r == Err(AmbiguousMatch)
  {
    var matchingAliasedMethods := GetMatchingAliasedMethods(selector, actionName, isValidName);
    matchingAliasedMethods := matchingAliasedMethods + LookupGet(selector.nonAliasedMethods, actionName);
    var ambiguousMethods := RunSelectionFilters(matchingAliasedMethods, isValidForRequest);
    if |ambiguousMethods| == 0 {
      r := Ok(None);
    } else if |ambiguousMethods| == 1 {
      r := Ok(Some(ambiguousMethods[0]));
    } else {
      r := Err(AmbiguousMatch);
    }
  }

  /**
   * A found method is a valid action method that either carries name
   * attributes that all accept the action name, or carries none and has the
   * action name (ignoring case); and its method selector attributes, if
   * any, accept the request.
   */
  lemma FoundMethodAnswersToName(methods: seq<MethodInfo>, actionName: string, isValidName: NameValidity,
                                 isValidForRequest: RequestValidity, m: MethodInfo)
    requires m in SelectionFilters(Candidates(PopulateLookupTables(methods), actionName, isValidName), isValidForRequest)
    ensures m in methods && IsValidActionMethod(m)
    ensures IsDecoratedWithAliasingAttribute(m) ==> NameSelectorsAccept(m, actionName, isValidName)
    ensures !IsDecoratedWithAliasingAttribute(m) ==> EqualsIgnoreCase(m.name, actionName)
    ensures |m.methodSelectors| > 0 ==> MethodSelectorsAccept(m, isValidForRequest)
  {
    var selector := PopulateLookupTables(methods);
    var candidates := Candidates(selector, actionName, isValidName);
    SelectionFiltersPreferAttributed(candidates, isValidForRequest);
    assert m in candidates;
    NonAliasedLookup(methods, actionName);
  }
}
