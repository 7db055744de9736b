/**
 * Controller action methods as the dispatch rules see them: reflection
 * data of a method, the action descriptor wrapping it, its selector
 * attributes, and the case-insensitive name lookup the selectors build.
 */
module ActionDescriptors {
  import opened Common
  import opened ClrTypes
  import TypeHelper

  /** A formal parameter of an action method. */
  datatype Parameter = Parameter(name: string, parameterType: ClrType, isOptional: bool)

  /**
   * A public instance method of a controller. `baseDeclaringType` is the
   * declaring type of its base definition; `nameSelectors` and
   * `methodSelectors` identify its ActionNameSelectorAttribute and
   * ActionMethodSelectorAttribute instances (inherited ones included).
   * `id` distinguishes overloads, which share a name.
   */
  datatype MethodInfo = MethodInfo(
    id: nat,
    name: string,
    isSpecialName: bool,
    baseDeclaringType: ClrType,
    returnType: ClrType,
    parameters: seq<Parameter>,
    nameSelectors: seq<nat>,
    methodSelectors: seq<nat>)

  /** An ApiActionDescriptor: a method and the action name it answers to. */
  datatype ActionDescriptor = ActionDescriptor(methodInfo: MethodInfo, actionName: string)

  const ControllerBaseType := Named("System.Web.Mvc.ControllerBase", false, false, [])
  const ControllerType := Named("System.Web.Mvc.Controller", false, false, [ControllerBaseType])
  const ActionResultType := Named("System.Web.Mvc.ActionResult", false, false, [])

  /** The HTTP methods ActionSelector conventions recognise. */
  const AllowedVerbs: seq<string> := ["GET", "POST", "PUT", "DELETE"]

  /**
   * ActionNameSelectorAttribute.IsValidName(context, actionName, method)
   * and ActionMethodSelectorAttribute.IsValidForRequest(context, method)
   * for the current request, by attribute.
   */
  type NameValidity = (nat, string, MethodInfo) -> bool
  type RequestValidity = (nat, MethodInfo) -> bool

  /** Every name selector attribute of m accepts the action name. */
  predicate NameSelectorsAccept(m: MethodInfo, actionName: string, isValidName: NameValidity)
  {
    forall i :: 0 <= i < |m.nameSelectors| ==> isValidName(m.nameSelectors[i], actionName, m)
  }

  /** Every method selector attribute of m accepts the request. */
  predicate MethodSelectorsAccept(m: MethodInfo, isValidForRequest: RequestValidity)
  {
    forall i :: 0 <= i < |m.methodSelectors| ==> isValidForRequest(m.methodSelectors[i], m)
  }

  /** The method carries an ActionNameSelectorAttribute (its name is aliased). */
  predicate IsDecoratedWithAliasingAttribute(m: MethodInfo)
  {
    |m.nameSelectors| > 0
  }

  /**
   * An action method: not special-named (property accessors, operators)
   * and not inherited from Controller or one of its bases.
   */
  predicate IsValidActionMethod(m: MethodInfo)
  {
    !m.isSpecialName && !IsAssignableFrom(m.baseDeclaringType, ControllerType)
  }

  /** A parameter that must come from a route or query value: of a simple type and not optional. */
  predicate IsRequiredParameter(p: Parameter)
  {
    TypeHelper.IsSimpleType(p.parameterType) && !p.isOptional
  }

  /** The names of the required parameters, in declaration order. */
  function RequiredNames(parameters: seq<Parameter>): (r: seq<string>)
    ensures |r| <= |parameters|
    ensures forall i :: 0 <= i < |parameters| && IsRequiredParameter(parameters[i]) ==> parameters[i].name in r
    ensures forall i :: 0 <= i < |r| ==> exists j :: 0 <= j < |parameters| && IsRequiredParameter(parameters[j]) && parameters[j].name == r[i]
  {
    if parameters == [] then []
    else
      var init := parameters[..|parameters| - 1];
      var last := parameters[|parameters| - 1];
      assert forall j :: 0 <= j < |init| ==> init[j] == parameters[j];
      RequiredNames(init) + (if IsRequiredParameter(last) then [last.name] else [])
  }

  /** The parameter names ActionSelectorCacheItem records for a method. */
  function RequiredParameterNames(m: MethodInfo): seq<string>
  {
    RequiredNames(m.parameters)
  }

  // ---------------------------------------------------------------------
  // ToLookup(name, StringComparer.OrdinalIgnoreCase)
  // ---------------------------------------------------------------------

  /** One group of a lookup: the key of its first element and every element with an equal key. */
  datatype Grouping<T> = Grouping(key: string, elements: seq<T>)

  /** Adds x to the group of its key, or opens a new group at the end. */
  function AddToLookup<T>(groups: seq<Grouping<T>>, x: T, key: T -> string): (r: seq<Grouping<T>>)
    ensures |r| >= |groups|
  {
    if groups == [] then [Grouping(key(x), [x])]
    else if EqualsIgnoreCase(groups[0].key, key(x)) then
      [Grouping(groups[0].key, groups[0].elements + [x])] + groups[1..]
    else [groups[0]] + AddToLookup(groups[1..], x, key)
  }

  /** The groups in order of first appearance, each holding its elements in sequence order. */
  function ToLookup<T>(s: seq<T>, key: T -> string): seq<Grouping<T>>
  {
    if s == [] then [] else AddToLookup(ToLookup(s[..|s| - 1], key), s[|s| - 1], key)
  }

  /** lookup[k]: the elements of the group whose key equals k ignoring case, or none. */
  function LookupGet<T>(groups: seq<Grouping<T>>, k: string): seq<T>
  {
    if groups == [] then []
    else if EqualsIgnoreCase(groups[0].key, k) then groups[0].elements
    else LookupGet(groups[1..], k)
  }

  /** The elements of every group, group by group (SelectMany over the lookup). */
  function Flatten<T>(groups: seq<Grouping<T>>): seq<T>
  {
    if groups == [] then [] else groups[0].elements + Flatten(groups[1..])
  }

  lemma {:induction false} LookupGetAdd<T>(groups: seq<Grouping<T>>, x: T, key: T -> string, k: string)
    ensures LookupGet(AddToLookup(groups, x, key), k)
            == LookupGet(groups, k) + (if EqualsIgnoreCase(key(x), k) then [x] else [])
  {
    if groups != [] && !EqualsIgnoreCase(groups[0].key, key(x)) && !EqualsIgnoreCase(groups[0].key, k) {
      LookupGetAdd(groups[1..], x, key, k);
    }
  }

  /** Looking a name up yields exactly the elements with that name, ignoring case, in order. */
  lemma {:induction false} LookupGetIsFilter<T>(s: seq<T>, key: T -> string, k: string)
    ensures LookupGet(ToLookup(s, key), k) == Filter(s, (x: T) => EqualsIgnoreCase(key(x), k))
  {
    if s != [] {
      LookupGetIsFilter(s[..|s| - 1], key, k);
      LookupGetAdd(ToLookup(s[..|s| - 1], key), s[|s| - 1], key, k);
    }
  }

  /** Every element a lookup returns for k is one of the sequence's elements whose key equals k. */
  lemma LookupGetMembers<T>(s: seq<T>, key: T -> string, k: string)
    ensures forall i :: 0 <= i < |LookupGet(ToLookup(s, key), k)| ==>
              LookupGet(ToLookup(s, key), k)[i] in s && EqualsIgnoreCase(key(LookupGet(ToLookup(s, key), k)[i]), k)
  {
    LookupGetIsFilter(s, key, k);
  }

  lemma {:induction false} FlattenAdd<T>(groups: seq<Grouping<T>>, x: T, key: T -> string)
    ensures multiset(Flatten(AddToLookup(groups, x, key))) == multiset(Flatten(groups)) + multiset{x}
  {
    if groups != [] && !EqualsIgnoreCase(groups[0].key, key(x)) {
      FlattenAdd(groups[1..], x, key);
    }
  }

  /**
   * Flattening the lookup gives back the same elements, regrouped so that
   * equal names (ignoring case) are adjacent.
   */
  lemma {:induction false} FlattenLookupIsPermutation<T>(s: seq<T>, key: T -> string)
    ensures multiset(Flatten(ToLookup(s, key))) == multiset(s)
  {
    if s != [] {
      FlattenLookupIsPermutation(s[..|s| - 1], key);
      FlattenAdd(ToLookup(s[..|s| - 1], key), s[|s| - 1], key);
      assert s == s[..|s| - 1] + [s[|s| - 1]];
    }
  }
}
