/**
 * Choosing the view that renders an action's result: every registered view
 * location that applies to the request earns points for how well it fits
 * the action (collection-ness, parameter names, return type), and the
 * earliest location with the most points names the view.
 */
module DefaultViewSelector {
  import opened Common
  import opened ClrTypes

  /**
   * A registered view location. Null properties are None; the action
   * parameters are the keys of its route value dictionary.
   */
  datatype ViewLocation = ViewLocation(
    actionName: Option<string>,
    isCollection: bool,
    verbs: Option<seq<string>>,
    actionParameters: Option<seq<string>>,
    locationType: Option<ClrType>,
    viewName: Option<string>)

  /** A scored location and its points. */
  datatype ViewLocationMatch = ViewLocationMatch(location: ViewLocation, pointsOfMatch: nat)

  /** The view result handed back to MVC: only its view name is set. */
  datatype ViewResult = ViewResult(viewName: Option<string>)

  /**
   * What the selector reads from the request: the HTTP method (after
   * overrides), the action name, whether the action descriptor is an
   * ApiActionDescriptor (then its return type applies, otherwise the
   * context's), the descriptor's parameter names, and the element type of
   * an IQueryable<T> return type (None when it is not one).
   */
  datatype ViewLocationContext = ViewLocationContext(
    httpMethod: string,
    actionName: string,
    isApiActionDescriptor: bool,
    descriptorReturnType: ClrType,
    contextReturnType: ClrType,
    parameterNames: seq<string>,
    queryableInnerType: ClrType -> Option<ClrType>)

  /** The location lists verbs, none of which is the request's (ignoring case). */
  predicate MatchsVerbMapping(context: ViewLocationContext, location: ViewLocation)
  {
    location.verbs.Some?
    && !(exists i :: 0 <= i < |location.verbs.value| && EqualsIgnoreCase(location.verbs.value[i], context.httpMethod))
  }

  /** The location names the action (ignoring case). */
  predicate MatchesActionName(context: ViewLocationContext, location: ViewLocation)
  {
    location.actionName.Some? && EqualsIgnoreCase(context.actionName, location.actionName.value)
  }

  /** A location is scored when its verb mapping or its action name matches. */
  predicate IsScored(context: ViewLocationContext, location: ViewLocation)
  {
    MatchsVerbMapping(context, location) || MatchesActionName(context, location)
  }

  /** The number of keys that are (ordinally) among the action's parameter names. */
  function KeysAmongParameters(keys: seq<string>, parameterNames: seq<string>): (r: nat)
    ensures r <= |keys|
    ensures r == |Filter(keys, (k: string) => k in parameterNames)|
  {
    if keys == [] then 0
    else
      var init := keys[..|keys| - 1];
      assert keys == init + [keys[|keys| - 1]];
      KeysAmongParameters(init, parameterNames) + (if keys[|keys| - 1] in parameterNames then 1 else 0)
  }

  /** The return type the location is compared against before unwrapping. */
  function ReturnType(context: ViewLocationContext): ClrType
  {
    if context.isApiActionDescriptor then context.descriptorReturnType else context.contextReturnType
  }

  /** The return type after unwrapping IQueryable<T> for a collection location. */
  function EffectiveReturnType(context: ViewLocationContext, location: ViewLocation): ClrType
  {
    var returnType := ReturnType(context);
    if location.isCollection && context.queryableInnerType(returnType).Some?
    then context.queryableInnerType(returnType).value
    else returnType
  }

  /**
   * The points of a scored location: one for a collection location whose
   * return type unwraps from IQueryable, one per parameter key the action
   * has, and one when the (unwrapped) return type is the location's type.
   */
  function Points(context: ViewLocationContext, location: ViewLocation): (r: nat)
    ensures r <= 2 + (if location.actionParameters.Some? then |location.actionParameters.value| else 0)
  {
    var collectionPoint := if location.isCollection && context.queryableInnerType(ReturnType(context)).Some? then 1 else 0;
    var parameterPoints := if location.actionParameters.Some? then KeysAmongParameters(location.actionParameters.value, context.parameterNames) else 0;
    var typePoint := if location.locationType == Some(EffectiveReturnType(context, location)) then 1 else 0;
    collectionPoint + parameterPoints + typePoint
  }

  /**
   * The points as the code computes them: the parameters are read through
   * the ApiActionDescriptor cast, which is null for any other descriptor,
   * and the location's parameter dictionary is enumerated even when it was
   * never set; either dereference throws.
   */
  function PointsAsWritten(context: ViewLocationContext, location: ViewLocation): (r: Result<nat>)
  {
    if !context.isApiActionDescriptor then Err(NullReference)
    else if location.actionParameters.None? then Err(NullReference)
    else Ok(Points(context, location))
  }

  /** Wherever the code does not throw, it scores the location as the corrected Points does. */
  lemma PointsAsWrittenAgrees(context: ViewLocationContext, location: ViewLocation)
    ensures PointsAsWritten(context, location).Ok? ==> PointsAsWritten(context, location).value == Points(context, location)
    ensures PointsAsWritten(context, location).Ok? <==> context.isApiActionDescriptor && location.actionParameters.Some?
  {
  }

  /** The match list as the code builds it: one entry per scored location, or the first dereference failure. */
  function ViewMatchesAsWritten(context: ViewLocationContext, locations: seq<ViewLocation>): Result<seq<ViewLocationMatch>>
  {
    if locations == [] then Ok([])
    else
      var location := locations[|locations| - 1];
      var prefix := ViewMatchesAsWritten(context, locations[..|locations| - 1]);
      if prefix.Err? then prefix
      else if !IsScored(context, location) then prefix
      else
        var points := PointsAsWritten(context, location);
        if points.Err? then Err(points.error)
        else Ok(prefix.value + [ViewLocationMatch(location, points.value)])
  }

  /** The corrected match list: one entry per scored location, in location order. */
  function ViewMatches(context: ViewLocationContext, locations: seq<ViewLocation>): seq<ViewLocationMatch>
  {
    if locations == [] then []
    else
      var location := locations[|locations| - 1];
      var prefix := ViewMatches(context, locations[..|locations| - 1]);
      if IsScored(context, location) then prefix + [ViewLocationMatch(location, Points(context, location))] else prefix
  }

  /** The matches name exactly the scored locations, in order, each with its points. */
  lemma {:induction false} ViewMatchesAreScoredLocations(context: ViewLocationContext, locations: seq<ViewLocation>)
    ensures |ViewMatches(context, locations)| == |Filter(locations, (l: ViewLocation) => IsScored(context, l))|
    ensures forall i :: 0 <= i < |ViewMatches(context, locations)| ==>
              && ViewMatches(context, locations)[i].location == Filter(locations, (l: ViewLocation) => IsScored(context, l))[i]
              && ViewMatches(context, locations)[i].pointsOfMatch == Points(context, ViewMatches(context, locations)[i].location)
    decreases |locations|
  {
    if locations != [] {
      ViewMatchesAreScoredLocations(context, locations[..|locations| - 1]);
    }
  }

  /** Whenever the code builds its match list without throwing, the list is the corrected one. */
  lemma {:induction false} ViewMatchesAsWrittenAgrees(context: ViewLocationContext, locations: seq<ViewLocation>)
    ensures ViewMatchesAsWritten(context, locations).Ok? ==> ViewMatchesAsWritten(context, locations).value == ViewMatches(context, locations)
    ensures ViewMatchesAsWritten(context, locations).Err? ==> ViewMatchesAsWritten(context, locations) == Err(NullReference)
    decreases |locations|
  {
    if locations != [] {
      ViewMatchesAsWrittenAgrees(context, locations[..|locations| - 1]);
    }
  }

  /** One more location: skipped when not scored, a failure when the code cannot score it, else one more match. */
  lemma ViewMatchesAsWrittenStep(context: ViewLocationContext, locations: seq<ViewLocation>, i: nat, matches: seq<ViewLocationMatch>)
    requires i < |locations| && ViewMatchesAsWritten(context, locations[..i]) == Ok(matches)
    ensures !IsScored(context, locations[i]) ==> ViewMatchesAsWritten(context, locations[..i + 1]) == Ok(matches)
    ensures IsScored(context, locations[i]) && (!context.isApiActionDescriptor || locations[i].actionParameters.None?) ==>
              ViewMatchesAsWritten(context, locations[..i + 1]) == Err(NullReference)
    ensures IsScored(context, locations[i]) && context.isApiActionDescriptor && locations[i].actionParameters.Some? ==>
              ViewMatchesAsWritten(context, locations[..i + 1]) == Ok(matches + [ViewLocationMatch(locations[i], Points(context, locations[i]))])
  {
    assert locations[..i + 1][..i] == locations[..i];
    assert locations[..i + 1][i] == locations[i];
  }

  /** A location the code cannot score fails every longer location list. */
  lemma {:induction false} ViewMatchesAsWrittenErrPersists(context: ViewLocationContext, locations: seq<ViewLocation>, n: nat)
    requires n <= |locations|
    requires ViewMatchesAsWritten(context, locations[..n]).Err?
    ensures ViewMatchesAsWritten(context, locations).Err?
    decreases |locations| - n
  {
    if n < |locations| {
      assert locations[..n + 1][..n] == locations[..n];
      ViewMatchesAsWrittenErrPersists(context, locations, n + 1);
    } else {
      assert locations[..n] == locations;
    }
  }

  /**
   * A location mapped by name only (no verbs, no parameter dictionary) is
   * scored for its action, and the code then throws, even for an
   * ApiActionDescriptor; the corrected list scores it by its type.
   */
  lemma MappedLocationThrows(context: ViewLocationContext, view: string, t: ClrType)
    requires context.isApiActionDescriptor
    requires context.actionName == "Index"
    ensures ViewMatchesAsWritten(context, [ViewLocation(Some("Index"), false, Some([]), None, Some(t), Some(view))]) == Err(NullReference)
    ensures ViewMatches(context, [ViewLocation(Some("Index"), false, Some([]), None, Some(t), Some(view))])
            == [ViewLocationMatch(ViewLocation(Some("Index"), false, Some([]), None, Some(t), Some(view)),
                                  if t == context.descriptorReturnType then 1 else 0)]
  {
    var location := ViewLocation(Some("Index"), false, Some([]), None, Some(t), Some(view));
    assert EqualsIgnoreCase(context.actionName, location.actionName.value);
    assert IsScored(context, location);
    assert [location][..0] == [];
  }

  /** A scored location with a plain (non-API) action descriptor makes the code throw. */
  lemma NonApiDescriptorThrows(context: ViewLocationContext, location: ViewLocation)
    requires !context.isApiActionDescriptor
    requires IsScored(context, location)
    ensures ViewMatchesAsWritten(context, [location]) == Err(NullReference)
  {
    assert [location][..0] == [];
  }

  // ---------------------------------------------------------------------
  // Selecting the best location
  // ---------------------------------------------------------------------

  /** The index of the earliest match with the most points (a stable descending order's first element). */
  function BestIndex(matches: seq<ViewLocationMatch>): (r: nat)
    requires matches != []
    ensures r < |matches|
    ensures forall j :: 0 <= j < |matches| ==> matches[j].pointsOfMatch <= matches[r].pointsOfMatch
    ensures forall j :: 0 <= j < r ==> matches[j].pointsOfMatch < matches[r].pointsOfMatch
  {
    if |matches| == 1 then 0
    else
      var rest := BestIndex(matches[1..]) + 1;
      assert forall j :: 1 <= j < |matches| ==> matches[j] == matches[1..][j - 1];
      if matches[0].pointsOfMatch >= matches[rest].pointsOfMatch then 0 else rest
  }

  /** The location of the earliest match with the most points, or none without matches. */
  function SelectBestLocation(matches: seq<ViewLocationMatch>): (r: Option<ViewLocation>)
    ensures r.None? <==> matches == []
    ensures r.Some? ==> exists i :: 0 <= i < |matches| && matches[i].location == r.value
                                    && (forall j :: 0 <= j < |matches| ==> matches[j].pointsOfMatch <= matches[i].pointsOfMatch)
                                    && (forall j :: 0 <= j < i ==> matches[j].pointsOfMatch < matches[i].pointsOfMatch)
  {
    if matches == [] then None else Some(matches[BestIndex(matches)].location)
  }

  /**
   * The selected location is a scored one, and no scored location earns
   * more points; with nothing scored there is no location.
   */
  lemma BestLocationIsScoredAndMaximal(context: ViewLocationContext, locations: seq<ViewLocation>)
    ensures SelectBestLocation(ViewMatches(context, locations)).None?
            <==> forall i :: 0 <= i < |locations| ==> !IsScored(context, locations[i])
    ensures SelectBestLocation(ViewMatches(context, locations)).Some? ==>
              var best := SelectBestLocation(ViewMatches(context, locations)).value;
              && best in locations && IsScored(context, best)
              && forall l :: l in locations && IsScored(context, l) ==> Points(context, l) <= Points(context, best)
  {
    var scored := (l: ViewLocation) => IsScored(context, l);
    var matches := ViewMatches(context, locations);
    ViewMatchesAreScoredLocations(context, locations);
    var kept := Filter(locations, scored);
    if exists i :: 0 <= i < |locations| && IsScored(context, locations[i]) {
      var i :| 0 <= i < |locations| && IsScored(context, locations[i]);
      FilterMembership(locations, scored, locations[i]);
    }
    if matches != [] {
      var b := BestIndex(matches);
      var best := matches[b].location;
      assert best == kept[b];
      FilterMembership(locations, scored, best);
      forall l | l in locations && IsScored(context, l) ensures Points(context, l) <= Points(context, best) {
        FilterMembership(locations, scored, l);
        var k :| 0 <= k < |kept| && kept[k] == l;
        assert matches[k].pointsOfMatch <= matches[b].pointsOfMatch;
      }
    }
  }

  /**
   * The view selector: its location collection defaults to the global view
   * locations the first time it is read.
   */
  class DefaultViewSelector {
    var locationCollection: Option<seq<ViewLocation>>

    constructor()
      ensures locationCollection == None
    {
      locationCollection := None;
    }

    /** The locations, falling back to (and remembering) the global collection. */
    method Locations(globalLocations: seq<ViewLocation>) returns (r: seq<ViewLocation>)
      modifies this
      ensures old(locationCollection).Some? ==> r == old(locationCollection).value && locationCollection == old(locationCollection)
      ensures old(locationCollection).None? ==> r == globalLocations && locationCollection == Some(globalLocations)
    {
      if locationCollection.None? {
        locationCollection := Some(globalLocations);
      }
      r := locationCollection.value;
    }

    method SetLocations(value: Option<seq<ViewLocation>>)
      modifies this
      ensures locationCollection == value
    {
      locationCollection := value;
    }

    /** One pass over the locations, scoring those that apply. */
    method ComputeViewMatches(context: ViewLocationContext, locations: seq<ViewLocation>) returns (r: Result<seq<ViewLocationMatch>>)
      ensures r == ViewMatchesAsWritten(context, locations)
    {
      var matches: seq<ViewLocationMatch> := [];
      for i := 0 to |locations|
        invariant ViewMatchesAsWritten(context, locations[..i]) == Ok(matches)
      {
        var location := locations[i];
        if !MatchsVerbMapping(context, location) && !MatchesActionName(context, location) {
          ViewMatchesAsWrittenStep(context, locations, i, matches);
          continue;
        }
        var points := 0;
        var returnType := if context.isApiActionDescriptor then context.descriptorReturnType else context.contextReturnType;
        if location.isCollection {
          var innerType := context.queryableInnerType(returnType);
          if innerType.Some? {
            returnType := innerType.value;
            points := points + 1;
          }
        }
        if !context.isApiActionDescriptor || location.actionParameters.None? {
          ViewMatchesAsWrittenStep(context, locations, i, matches);
          ViewMatchesAsWrittenErrPersists(context, locations, i + 1);
          ViewMatchesAsWrittenAgrees(context, locations);
          return Err(NullReference);
        }
        assert returnType == EffectiveReturnType(context, location);
        ghost var collectionPoint := points;
        var keys := location.actionParameters.value;
        for k := 0 to |keys|
          invariant points == collectionPoint + KeysAmongParameters(keys[..k], context.parameterNames)
        {
          assert keys[..k + 1][..k] == keys[..k];
          if keys[k] in context.parameterNames {
            points := points + 1;
          }
        }
        assert keys[..|keys|] == keys;
        if Some(returnType) == location.locationType {
          points := points + 1;
        }
        assert points == Points(context, location);
        ViewMatchesAsWrittenStep(context, locations, i, matches);
        matches := matches + [ViewLocationMatch(location, points)];
      }
      assert locations[..|locations|] == locations;
      r := Ok(matches);
    }

    /**
     * The view named by the best location; with no location scored the
     * code dereferences a null location.
     */
    method SelectView(context: ViewLocationContext, globalLocations: seq<ViewLocation>) returns (r: Result<ViewResult>)
      modifies this
      ensures var locations := if old(locationCollection).Some? then old(locationCollection).value else globalLocations;
              var matches := ViewMatchesAsWritten(context, locations);
              && (matches.Err? ==> r == Err(NullReference))
              && (matches.Ok? && matches.value == [] ==> r == Err(NullReference))
              && (matches.Ok? && matches.value != [] ==> r == Ok(ViewResult(SelectBestLocation(matches.value).value.viewName)))
    {
      var locations := Locations(globalLocations);
      var matches := ComputeViewMatches(context, locations);
      ViewMatchesAsWrittenAgrees(context, locations);
      if matches.Err? {
        return Err(matches.error);
      }
      var location := SelectBestLocation(matches.value);
      if location.None? {
        return Err(NullReference);
      }
      r := Ok(ViewResult(location.value.viewName));
    }
  }
}
