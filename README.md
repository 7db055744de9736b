# MvcApi core, modelled in Dafny

MvcApi adds Web-API style controllers to ASP.NET MVC. This project models its core in Dafny and proves properties of that model:

- **Query compiler.** The filter, orderby, skip and top system query options of the OData version 2 URI conventions (section 4) are compiled into query calls.
  - `QueryLexer` states the tokenizer of the hand-written `ExpressionParser`. `ExpressionScanner` models the scanner object itself and proves it produces those tokens.
  - `ExpressionGrammar` models the recursive-descent parser over those tokens.
  - `ExpressionConversions`, `QueryPromotion` and `QueryLiterals` model implicit conversions, type promotion, overload resolution and literal values.
  - `QueryExpressions` models the expression trees and queries the compiler builds.
  - `DynamicExpression`, `DynamicLambda` and `DynamicQueryable` model the lambda builder and the queryable operators.
  - `StructuredQueryParts`, `ODataQueryDeserializer` and `QueryComposer` model query-part extraction, application and rebasing.
  - `QueryFilter` and `QueryableFilter` model the paging, count and filter pipeline.
  - `UriQueryUtility` models the query-string splitter and the form-urlencoding codec (HTML 4.01 section 17.13.4; percent-encoding as in section 2.1 of RFC 3986, plus the non-standard `%uXXXX` form).
- **HTTP rules.**
  - `HttpRuleParser` models the token, quoted-string, comment, quoted-pair and whitespace rules of section 2.2 of RFC 2616.
  - `HttpStatusDescription` holds the reason phrases of section 6.1.1 of RFC 2616.
  - `HttpResponseMessage` models the guarded status fields.
  - The media-type comparer, the validated media-type collection and `DictionaryAdapterCollection` are modelled too.
- **Content negotiation.** `DefaultContentNegotiator` and the formatter, match and mapping types rank formatters. They use Accept quality values as in sections 3.9 and 14.1 of RFC 2616. Qualities are only compared, so they are modelled as reals.
- **Dispatch rules.**
  - `ApiControllerActionSelector` and `ActionMethodSelector` model verb, action-name and parameter matching.
  - `DefaultViewSelector` models view scoring.
  - `TypeHelper` models simple-type classification.
- **Small stateful containers.** These are the service registry (`DefaultServices`), the fetch-or-create cache (`ReaderWriterCache`), the lazy descriptor cache (`ApiControllerDescriptor`) and `ObjectContent` with its negotiation reset.

Code that computes values is modelled as datatypes, functions and lemmas. Code that changes objects step by step is modelled as classes whose methods state the new state. Loops become methods whose invariants prove them equal to a specifying function. The following are parameters of the model rather than parts of it:

- reflection (schema lookups, attribute tests, runtime types);
- floating-point, decimal, date and GUID text parsing;
- UTF-8 encoding;
- culture;
- the host's request and response objects.

## Model

| member | source | states |
|---|---|---|
| ActionDescriptors.RequiredNames | MvcApi/ApiControllerActionSelector.cs:50-55 | the recorded names are exactly those of the simple, non-optional parameters: each such parameter's name is listed and every listed name is one |
| ActionDescriptors.LookupGetIsFilter | MvcApi/ActionMethodSelector.cs:68-71 | a case-insensitive lookup answers a name with exactly the elements whose key equals it ignoring case, in their original order |
| ActionDescriptors.LookupGetMembers | MvcApi/ApiControllerActionSelector.cs:58 | every element the lookup returns for a name is an element of the source sequence whose key matches the name ignoring case |
| ActionDescriptors.FlattenLookupIsPermutation | MvcApi/ActionMethodSelector.cs:68-71 | grouping by name loses and adds nothing: the groups together hold the same multiset of elements |
| ActionMethodSelector.PopulateLookupTables | MvcApi/ActionMethodSelector.cs:64-72 | the aliased methods are exactly the valid action methods carrying a name-selector attribute, in order; the lookup holds the other valid ones |
| ActionMethodSelector.NonAliased | MvcApi/ActionMethodSelector.cs:66-68 | Except(valid, aliased): valid methods without a name-selector attribute, each at most once, and every such method is kept |
| ActionMethodSelector.NonAliasedLookup | MvcApi/ActionMethodSelector.cs:31-71 | looking a name up yields the valid, unaliased methods of that name ignoring case, each once, in declaration order |
| ActionMethodSelector.GetMatchingAliasedMethods | MvcApi/ActionMethodSelector.cs:44-61 | an aliased method is kept if and only if all its name-selector attributes accept the action name |
| ActionMethodSelector.SelectionFiltersPreferAttributed | MvcApi/ActionMethodSelector.cs:97-134 | survivors are candidates; if any attributed candidate is accepted the survivors are exactly the accepted attributed ones, otherwise the unattributed ones |
| ActionMethodSelector.RunSelectionFilters | MvcApi/ActionMethodSelector.cs:97-134 | the one-pass loop filling the two lists returns the selection-filter result |
| ActionMethodSelector.FindActionMethod | MvcApi/ActionMethodSelector.cs:28-42 | no survivor gives null, exactly one gives that method, more than one is an AmbiguousMatchException |
| ActionMethodSelector.FoundMethodAnswersToName | MvcApi/ActionMethodSelector.cs:28-72 | a found method is a valid action method answering to the name (by its name attributes if aliased, else by its name ignoring case) whose selector attributes accept the request |
| ApiControllerActionSelector.RouteParameterNames | MvcApi/ApiControllerActionSelector.cs:157-161 | the route parameter names are route keys other than "controller" and "action" ignoring case |
| ApiControllerActionSelector.MaxParameterCount | MvcApi/ApiControllerActionSelector.cs:185-191 | the largest group key: no action has more required parameters, and some action has exactly that many |
| ApiControllerActionSelector.FilterActionResult | MvcApi/ApiControllerActionSelector.cs:121-124 | keeps exactly the actions whose return type is not ActionResult |
| ApiControllerActionSelector.ParameterStepKeepsCandidates | MvcApi/ApiControllerActionSelector.cs:154-201 | the route/query parameter step only ever removes actions |
| ApiControllerActionSelector.ParameterStepCovers | MvcApi/ApiControllerActionSelector.cs:167-183 | with route or query parameters and several candidates, every survivor's required parameters are among the route and query names |
| ApiControllerActionSelector.ParameterStepWithoutParameters | MvcApi/ApiControllerActionSelector.cs:194-198 | with no route or query parameters, the survivors are exactly the parameterless candidates |
| ApiControllerActionSelector.LongestParameterMatchWins | MvcApi/ApiControllerActionSelector.cs:177-191 | when several actions are covered, the survivors are exactly the covered actions with the largest parameter count |
| ApiControllerActionSelector.Decide | MvcApi/ApiControllerActionSelector.cs:110-118 | zero candidates is 404, one is that action, several is 500, and nothing else |
| ApiControllerActionSelector.NarrowKeepsCandidates | MvcApi/ApiControllerActionSelector.cs:99-107 | narrowing by parameters and by ActionResult only removes candidates |
| ApiControllerActionSelector.ActionSelectorCacheItem.constructor | MvcApi/ApiControllerActionSelector.cs:36-60 | records each canonical action's required parameter names under its method, the aliased actions, the lookup of the others and the verb kinds GET, PUT, POST |
| ApiControllerActionSelector.ActionSelectorCacheItem.GetMatchingAliasedMethods | MvcApi/ApiControllerActionSelector.cs:203-209 | every returned action is aliased and all its name attributes accept the action name |
| ApiControllerActionSelector.ActionSelectorCacheItem.FindActionsForVerb | MvcApi/ApiControllerActionSelector.cs:126-152 | the foreach collects exactly the actions whose selector attributes accept, or whose name starts with a supported verb ignoring case, in order |
| ApiControllerActionSelector.ActionSelectorCacheItem.SelectAction | MvcApi/ApiControllerActionSelector.cs:74-119 | the imperative selection returns the same result or HTTP error as the selection specification |
| ApiControllerActionSelector.ActionSelectorCacheItem.ActionNameErrors | MvcApi/ApiControllerActionSelector.cs:80-98 | with an action route value: no candidate is 404, and candidates none of which is compatible with the verb is 405 |
| ApiControllerActionSelector.ActionSelectorCacheItem.ActionNameSelection | MvcApi/ApiControllerActionSelector.cs:249-267 | a selected action answers to the route's action name and is compatible with the verb (attributes accept, or its name is an allowed verb equal to the request's) |
| ApiControllerActionSelector.ActionSelectorCacheItem.LookupNamesMatch | MvcApi/ApiControllerActionSelector.cs:58 | the named lookup holds only non-aliased actions whose method name matches ignoring case |
| ApiControllerActionSelector.ActionSelectorCacheItem.VerbSelection | MvcApi/ApiControllerActionSelector.cs:126-152 | without an action route value: nothing qualifying is 405, and a selected action is one whose attributes accept or whose name starts with a supported verb |
| ApiControllerDescriptor.ConvertAllTotal | MvcApi/ApiControllerDescriptor.cs:103-113 | a converter that never yields null gives one descriptor per item, in order |
| ApiControllerDescriptor.LazilyFetchOrCreateDescriptors | MvcApi/ApiControllerDescriptor.cs:96-115 | a cached array is returned untouched without converting; otherwise the initializer's items are converted in order, nulls dropped, and the new array is stored and returned |
| ApiControllerDescriptor.AllActionMethodsArePermutation | MvcApi/ApiControllerDescriptor.cs:66-72 | the action methods are the aliased ones first, in order, then the non-aliased ones, together exactly the valid action methods |
| ApiControllerDescriptor.CreateActionDescriptor | MvcApi/ApiControllerDescriptor.cs:117-120 | a canonical action wraps its method and answers to the method's own name |
| ApiControllerDescriptor.CanonicalActionsFollowMethods | MvcApi/ApiControllerDescriptor.cs:74-77 | there is one canonical action per listed method, in the same order, named after it |
| ApiControllerDescriptor.ApiControllerDescriptor.GetCanonicalActions | MvcApi/ApiControllerDescriptor.cs:61-64 | returns a fresh copy of the canonical actions, building and caching them on first use |
| ApiControllerDescriptor.ApiControllerDescriptor.FindAction | MvcApi/ApiControllerDescriptor.cs:43-59 | null context and null or empty name are argument errors; otherwise null when the selector finds nothing, else the found method wrapped under the requested name |
| ClrTypes.GetNonNullableType | MvcApi/Query/ExpressionParser.cs:372-375 | Nullable<T> unwraps to T and every other type is itself |
| ClrTypes.EnumerableElementType | MvcApi/Query/ExpressionParser.cs:207-230 | the IEnumerable<T> element type of a sequence, a one-dimensional array or string (char), and none for a non-generic value type |
| ContentNegotiationResult.ContentNegotiationResult.SetFormatter | MvcApi/Formatting/ContentNegotiationResult.cs:22-36 | null is an ArgumentNullException that keeps the old formatter; any other value replaces it; the media type is untouched |
| ContentNegotiationResult.ContentNegotiationResult.SetMediaType | MvcApi/Formatting/ContentNegotiationResult.cs:38 | the media type is freely settable, null included, and the formatter is untouched |
| ContentNegotiationResult.New | MvcApi/Formatting/ContentNegotiationResult.cs:12-20 | a null formatter is an ArgumentNullException; otherwise a fresh result holding the formatter and media type |
| DefaultContentNegotiator.UpdateBestMatch | MvcApi/Formatting/DefaultContentNegotiator.cs:529-542 | the result is one of the two, absent only when both are, and its quality is at least that of each present argument |
| DefaultContentNegotiator.MatchMediaTypeMapping | MvcApi/Formatting/DefaultContentNegotiator.cs:339-360 | null request or formatter throw; otherwise the first mapping with a positive quality gives a mapping-ranked match with its media type and quality, and none matching gives null |
| DefaultContentNegotiator.AcceptRanking | MvcApi/Formatting/DefaultContentNegotiator.cs:387-401 | an all-types range, a subtype range and a literal Accept value get the three Accept rankings |
| DefaultContentNegotiator.MatchAcceptHeader | MvcApi/Formatting/DefaultContentNegotiator.cs:368-409 | null arguments throw; otherwise the match comes from the first Accept value, skipping quality 0, with a supported type inside it, carrying that value's quality and range ranking; null when nothing fits |
| DefaultContentNegotiator.AcceptMatchHasHighestQuality | MvcApi/Formatting/DefaultContentNegotiator.cs:379-406 | over Accept values sorted by quality, any fitting pair guarantees a match whose quality is at least that pair's |
| DefaultContentNegotiator.MatchRequestMediaType | MvcApi/Formatting/DefaultContentNegotiator.cs:418-442 | null arguments throw; the first supported type within the request content type gives a full-quality request-media-type match; no content type or none fitting gives null |
| DefaultContentNegotiator.MatchType | MvcApi/Formatting/DefaultContentNegotiator.cs:453-473 | null arguments throw; with ExcludeMatchOnTypeOnly the result is null, else a full-quality type match on the first supported type or application/octet-stream |
| DefaultContentNegotiator.SortedAccept | MvcApi/Formatting/DefaultContentNegotiator.cs:481-498 | the Accept values sorted by quality: sorted, a permutation of the request's values, and equally ranked values in header order |
| DefaultContentNegotiator.MatchFormatter | MvcApi/Formatting/DefaultContentNegotiator.cs:131-171 | a formatter that cannot write the type gives nothing; a mapping match wins, then Accept, then request media type, then type, each tried only when the earlier ones gave nothing |
| DefaultContentNegotiator.ComputeMatches | MvcApi/Formatting/DefaultContentNegotiator.cs:129-174 | at most one match per formatter, in formatter order, each the formatter's own match |
| DefaultContentNegotiator.ComputeMatchesStepFails | MvcApi/Formatting/DefaultContentNegotiator.cs:129-174 | a formatter whose matching throws ends the whole computation with that exception |
| DefaultContentNegotiator.ComputeMatchesErrorPersists | MvcApi/Formatting/DefaultContentNegotiator.cs:129-174 | once the formatters before a point have thrown, the whole list throws the same exception |
| DefaultContentNegotiator.MatchOneFormatter | MvcApi/Formatting/DefaultContentNegotiator.cs:131-171 | one loop body: the formatter's match, sorting the Accept values lazily on first need and keeping them sorted for later formatters |
| DefaultContentNegotiator.ComputeFormatterMatches | MvcApi/Formatting/DefaultContentNegotiator.cs:110-175 | null arguments throw in order type, request, formatters; otherwise the loop returns the matches of the specification, or the first exception |
| DefaultContentNegotiator.FirstOf | MvcApi/Formatting/DefaultContentNegotiator.cs:201-238 | the first match of the ranking, absent exactly when no match has it |
| DefaultContentNegotiator.BestOf | MvcApi/Formatting/DefaultContentNegotiator.cs:209-230 | a match of the ranking with the highest quality, absent exactly when none has it |
| DefaultContentNegotiator.BestAccept | MvcApi/Formatting/DefaultContentNegotiator.cs:266-273 | one of the three Accept winners with the highest quality, absent only when all are |
| DefaultContentNegotiator.ChooseMapping | MvcApi/Formatting/DefaultContentNegotiator.cs:246-265 | the mapping winner is kept when no Accept winner has strictly higher quality, else the best Accept winner is chosen |
| DefaultContentNegotiator.SelectResponseMediaTypeFormatter | MvcApi/Formatting/DefaultContentNegotiator.cs:182-284 | null throws; otherwise the one-pass loop over six best-match variables returns the selection specification |
| DefaultContentNegotiator.SelectedIsOneOfTheMatches | MvcApi/Formatting/DefaultContentNegotiator.cs:182-284 | the chosen match is one of the matches, and there is none exactly when no match has a ranking |
| DefaultContentNegotiator.MappingWinsTies | MvcApi/Formatting/DefaultContentNegotiator.cs:242-265 | the mapping match is chosen when at least as good as every Accept match; otherwise the chosen match is an Accept match no Accept match beats |
| DefaultContentNegotiator.CategoriesInPrecedenceOrder | MvcApi/Formatting/DefaultContentNegotiator.cs:258-283 | a request-media-type match is chosen only without mapping or Accept matches, a type match only without any other kind |
| DefaultContentNegotiator.Negotiation | MvcApi/Formatting/DefaultContentNegotiator.cs:70-98 | no formatters is null; otherwise the chosen match's per-request formatter with its media type, charset set to the encoding the formatter selects |
| DefaultContentNegotiator.Negotiate | MvcApi/Formatting/DefaultContentNegotiator.cs:55-99 | null arguments throw in order type, request, formatters; otherwise a new result equal to the negotiation specification |
| DefaultContentNegotiator.WritableFormatterAlwaysMatches | MvcApi/Formatting/DefaultContentNegotiator.cs:129-171 | unless matching on type alone is excluded, a formatter that can write the type always yields a match |
| DefaultContentNegotiator.NegotiatesWhenTypeMatchAllowed | MvcApi/Formatting/DefaultContentNegotiator.cs:55-99 | without the exclusion, negotiation over a formatter that can write the type never returns null |
| DefaultContentNegotiator.NothingMatchesWithoutHints | MvcApi/Formatting/DefaultContentNegotiator.cs:129-174 | with the exclusion, no Accept values, no content type and no mappings, no formatter matches |
| DefaultServices.InitialSingleServices | MvcApi/Services/DefaultServices.cs:77-89 | exactly six single service types are registered, each with a non-null default |
| DefaultServices.MultiResult | MvcApi/Services/DefaultServices.cs:179-232 | the resolver's non-null instances come first, followed by exactly the registered defaults |
| DefaultServices.DefaultServices.constructor | MvcApi/Services/DefaultServices.cs:63-96 | registers the six single services and no multi services, with empty caches |
| DefaultServices.DefaultServices.IsSingleService | MvcApi/Services/DefaultServices.cs:98-105 | a null type is an ArgumentNullException; otherwise whether the type is a registered single service |
| DefaultServices.DefaultServices.ResetCache | MvcApi/Services/DefaultServices.cs:265-279 | both caches are emptied and the configuration's current resolver is recorded |
| DefaultServices.DefaultServices.ResetCacheFor | MvcApi/Services/DefaultServices.cs:282-294 | only the given type's cache entries are removed; the recorded resolver is kept |
| DefaultServices.DefaultServices.GetService | MvcApi/Services/DefaultServices.cs:120-177 | null or unregistered types throw and change nothing; a changed resolver clears the caches; a miss stores the resolver's instance, else the default |
| DefaultServices.DefaultServices.GetServices | MvcApi/Services/DefaultServices.cs:179-234 | null or unregistered multi types throw and change nothing; otherwise the resolver's non-null instances then the defaults, cached |
| DefaultServices.DefaultServices.GetServiceInstances | MvcApi/Services/DefaultServices.cs:236-247 | the registered list of a multi type, and an ArgumentException for an unknown type |
| DefaultServices.DefaultServices.ClearSingle | MvcApi/Services/DefaultServices.cs:249-252 | the type's default becomes null and nothing else changes |
| DefaultServices.DefaultServices.ReplaceSingle | MvcApi/Services/DefaultServices.cs:254-261 | a null type is an ArgumentNullException that changes nothing; otherwise the type's default is replaced |
| DefaultServices.Create | MvcApi/Services/DefaultServices.cs:63-69 | a null configuration is an ArgumentNullException; otherwise a fresh, valid container over it |
| DefaultServices.GetServiceTwice | MvcApi/Services/DefaultServices.cs:139-165 | a repeated lookup under the same resolver returns the first answer and asks the resolver at most once |
| DefaultServices.GetServicesAlwaysThrows | MvcApi/Services/DefaultServices.cs:179-190 | with no multi service registered, every GetServices call throws |
| DefaultViewSelector.KeysAmongParameters | MvcApi/Views/DefaultViewSelector.cs:78-84 | one point per location parameter key that is ordinally among the action's parameter names |
| DefaultViewSelector.Points | MvcApi/Views/DefaultViewSelector.cs:61-90 | a location earns at most one point for the collection, one per parameter key and one for the type |
| DefaultViewSelector.PointsAsWrittenAgrees | MvcApi/Views/DefaultViewSelector.cs:58-90 | the code as written scores exactly when the descriptor is an ApiActionDescriptor and the location has parameters, and then as Points does |
| DefaultViewSelector.ViewMatchesAreScoredLocations | MvcApi/Views/DefaultViewSelector.cs:47-94 | one match per scored location, in location order, each carrying its points |
| DefaultViewSelector.ViewMatchesAsWrittenAgrees | MvcApi/Views/DefaultViewSelector.cs:45-95 | when the code builds its match list without throwing, the list is the corrected one; otherwise it is a NullReferenceException |
| DefaultViewSelector.ViewMatchesAsWrittenStep | MvcApi/Views/DefaultViewSelector.cs:49-93 | one more location is skipped when not scored, throws when it cannot be scored, and otherwise adds one match |
| DefaultViewSelector.ViewMatchesAsWrittenErrPersists | MvcApi/Views/DefaultViewSelector.cs:45-95 | a location the code cannot score makes every longer location list throw |
| DefaultViewSelector.MappedLocationThrows | MvcApi/Views/DefaultViewSelector.cs:74-78 | a location without a parameter dictionary makes the code throw even for an ApiActionDescriptor, where the corrected list scores it |
| DefaultViewSelector.NonApiDescriptorThrows | MvcApi/Views/DefaultViewSelector.cs:58-74 | with a plain action descriptor, any scored location makes the code throw |
| DefaultViewSelector.BestIndex | MvcApi/Views/DefaultViewSelector.cs:99 | the earliest match with the most points: no match has more, and every earlier one has fewer |
| DefaultViewSelector.SelectBestLocation | MvcApi/Views/DefaultViewSelector.cs:97-102 | null exactly when there are no matches, else the location of a match |
| DefaultViewSelector.BestLocationIsScoredAndMaximal | MvcApi/Views/DefaultViewSelector.cs:97-116 | the selected location is scored and no scored location earns more points; with nothing scored there is none |
| DefaultViewSelector.DefaultViewSelector.Locations | MvcApi/Views/DefaultViewSelector.cs:18-27 | the set collection, or else the global one, which is then remembered |
| DefaultViewSelector.DefaultViewSelector.SetLocations | MvcApi/Views/DefaultViewSelector.cs:28-31 | the setter stores the value |
| DefaultViewSelector.DefaultViewSelector.ComputeViewMatches | MvcApi/Views/DefaultViewSelector.cs:45-95 | the loop returns the as-written match list, or its exception |
| DefaultViewSelector.DefaultViewSelector.SelectView | MvcApi/Views/DefaultViewSelector.cs:34-43 | the view is named after the best location; with none scored the code dereferences null |
| DictionaryAdapterCollection.DictionaryAdapterCollection.ClearItems | MvcApi/Http/DictionaryAdapterCollection.cs:16-20 | both the dictionary and the list are empty afterwards |
| DictionaryAdapterCollection.DictionaryAdapterCollection.InsertItem | MvcApi/Http/DictionaryAdapterCollection.cs:22-26 | a name already in the dictionary throws before either changes; otherwise (Name, Value) is added and the item inserted at the index |
| DictionaryAdapterCollection.DictionaryAdapterCollection.RemoveItem | MvcApi/Http/DictionaryAdapterCollection.cs:28-33 | the removed item's name leaves the dictionary and the item leaves the list |
| DictionaryAdapterCollection.DictionaryAdapterCollection.SetItem | MvcApi/Http/DictionaryAdapterCollection.cs:35-39 | the new name maps to the new value and the slot is replaced; the replaced item's key stays in the dictionary |
| DynamicExpression.GetFuncType | MvcApi/Query/DynamicExpression.cs:12-19 | succeeds exactly for one to five type arguments, giving Func of them; otherwise an ArgumentException |
| DynamicExpression.ParameterTypeList | MvcApi/Query/DynamicExpression.cs:25-28 | the parameters' types, one per parameter, in order |
| DynamicExpression.Lambda | MvcApi/Query/DynamicExpression.cs:21-31 | a missing list is no parameters; at most four parameters give the lambda over them whose type is Func of their types then the body's type; more is an ArgumentException |
| DynamicExpression.FuncTypeArguments | MvcApi/Query/DynamicExpression.cs:23-29 | the filled array holds each parameter's type in order and then the body's type |
| DynamicExpression.OneParameterLambda | MvcApi/Query/DynamicExpression.cs:21-31 | a one-parameter lambda always has the delegate type Func<T, TResult> |
| DynamicLambda.ParseLambda | MvcApi/Query/DynamicExpression.cs:33-37 | succeeds exactly when the parser accepts the text and there are at most four parameters; the body is the parser's result, of the result type when one is given, wrapped as a lambda over the parameters |
| DynamicLambda.ParseItLambda | MvcApi/Query/DynamicExpression.cs:39-42 | one unnamed parameter of the it type; succeeds exactly when the body parses, giving a lambda of type Func<itType, TResult> |
| DynamicQueryable.OrderingCall | MvcApi/Query/DynamicQueryable.cs:28 | one ordering call is typed IOrderedQueryable of the element type |
| DynamicQueryable.OrderedSnoc | MvcApi/Query/DynamicQueryable.cs:26-31 | one more ordering wraps the chain so far in one more call, OrderBy only for the first |
| DynamicQueryable.OrderingsReadBack | MvcApi/Query/DynamicQueryable.cs:23-31 | reading the built chain back gives the source expression and the same orderings in order: OrderBy/OrderByDescending first, then ThenBy/ThenByDescending, each by its own direction, each over the call before |
| DynamicQueryable.ReadOrderingCall | MvcApi/Query/DynamicQueryable.cs:28-30 | reading back one more ordering call appends its ordering to what the chain under it reads as |
| DynamicQueryable.ParsedOrderings | MvcApi/Query/DynamicQueryable.cs:21-22 | a parsed ordering text has at least one ordering |
| DynamicQueryable.OrderedQuery | MvcApi/Query/DynamicQueryable.cs:11-33 | an ordered query keeps the source's provider and element type |
| DynamicQueryable.OrderBy | MvcApi/Query/DynamicQueryable.cs:11-33 | null source or ordering throw ArgumentNullException; otherwise the provider's query over the ordering chain of the parsed orderings on the source expression |
| DynamicQueryable.ChainOrderings | MvcApi/Query/DynamicQueryable.cs:23-31 | the foreach builds exactly the ordering chain over the orderings |
| DynamicQueryable.CountCall | MvcApi/Query/DynamicQueryable.cs:41-50 | a Skip or Take call stays IQueryable of the element type |
| DynamicQueryable.Skip | MvcApi/Query/DynamicQueryable.cs:35-42 | null source throws; otherwise the same provider and element type over exactly one Queryable.Skip call on the source expression and the constant count |
| DynamicQueryable.Take | MvcApi/Query/DynamicQueryable.cs:44-51 | null source throws; otherwise the same provider and element type over exactly one Queryable.Take call on the source expression and the constant count |
| DynamicQueryable.Page | MvcApi/Query/DynamicQueryable.cs:35-51 | Skip then Take keep the provider and the element type |
| DynamicQueryable.Where | MvcApi/Query/DynamicQueryable.cs:53-65 | null source or predicate throw; otherwise the predicate is parsed as a Boolean lambda over one unnamed parameter of the element type and the result is Where over the source expression and that quoted lambda |
| DynamicQueryable.WhereQuery | MvcApi/Query/DynamicQueryable.cs:64 | the new query keeps the provider and element type and is a Where call on the source expression and the quoted lambda |
| ExpressionConversions.GetNumericTypeKind | MvcApi/Query/ExpressionParser.cs:381-408 | kind 2 exactly for the signed integral types, 3 for the unsigned ones, 1 for char and the floating and decimal types, 0 otherwise, after unwrapping Nullable |
| ExpressionConversions.CompatibleIsReflexive | MvcApi/Query/ExpressionParser.cs:475-482 | every type converts to itself |
| ExpressionConversions.NullableNeverToNonNullableValue | MvcApi/Query/ExpressionParser.cs:485-488 | a nullable operand never converts to a non-nullable value type |
| ExpressionConversions.Int32Widening | MvcApi/Query/ExpressionParser.cs:527-537 | int converts to exactly int, long, float, double and decimal among the non-nullable primitive value types |
| ExpressionConversions.LiftedConversion | MvcApi/Query/ExpressionParser.cs:485-488 | a non-nullable operand converts to T? exactly when it converts to T |
| ExpressionConversions.NoRowMeansIdentity | MvcApi/Query/ExpressionParser.cs:489-617 | types without a widening row convert only to themselves |
| ExpressionConversions.CompareConversions | MvcApi/Query/ExpressionParser.cs:99-131 | equal targets tie; an exact match wins; the result is always -1, 0 or 1 |
| ExpressionConversions.CompareConversionsAntisymmetric | MvcApi/Query/ExpressionParser.cs:99-131 | swapping the two candidate types negates the comparison |
| ExpressionConversions.BaseInterfaces | MvcApi/Query/ExpressionParser.cs:2003-2122 | every interface a signature interface extends ranks below it, so the walk terminates |
| ExpressionConversions.AddInterface | MvcApi/Query/ExpressionParser.cs:55-65 | the walk keeps the list it started from as a prefix and ends up containing the interface |
| ExpressionConversions.AddInterfaces | MvcApi/Query/ExpressionParser.cs:60-64 | walking a list of interfaces keeps the list so far as a prefix |
| ExpressionConversions.SelfAndBaseInterfaces | MvcApi/Query/ExpressionParser.cs:1957-1966 | the interface walk starts with the interface itself |
| ExpressionConversions.InterfaceSearchOrder | MvcApi/Query/ExpressionParser.cs:1957-1966 | the search orders are ISubtract, IAdd, IArithmetic; IEquality, IRelational, IArithmetic; IAdd, IArithmetic; IRelational, IArithmetic |
| ExpressionConversions.WalkTwoBases | MvcApi/Query/ExpressionParser.cs:55-65 | an interface extending b1 and b2, where b1 extends b2, walks to [i, b1, b2] with b2 added once |
| ExpressionConversions.Signature | MvcApi/Query/ExpressionParser.cs:2003-2122 | a table signature is an instance method F whose parameter types are the operands, none of them out |
| ExpressionConversions.Aggregate | MvcApi/Query/ExpressionParser.cs:2035-2066 | an aggregate signature is an instance method of that name over the given operand types |
| ExpressionScanner.ExpressionParser.constructor | MvcApi/Query/ExpressionParser.cs:32-53 | the scanner starts at offset 0 over the text, with no token yet |
| ExpressionScanner.ExpressionParser.SetTextPos | MvcApi/Query/ExpressionParser.cs:1968-1972 | moves to the offset and loads its character, keeping the token |
| ExpressionScanner.ExpressionParser.NextChar | MvcApi/Query/ExpressionParser.cs:775-782 | advances one character, staying at the end once there |
| ExpressionScanner.ExpressionParser.SkipWhiteSpaces | MvcApi/Query/ExpressionParser.cs:788-791 | the loop stops at the first non-white-space offset |
| ExpressionScanner.ExpressionParser.SkipClass | MvcApi/Query/ExpressionParser.cs:897-904 | the loop stops at the first character outside the class |
| ExpressionScanner.ExpressionParser.ScanDigits | MvcApi/Query/ExpressionParser.cs:1979-1985 | a digit is required, then the run of digits is skipped; a missing digit is an error at that offset |
| ExpressionScanner.ExpressionParser.ScanFraction | MvcApi/Query/ExpressionParser.cs:914-924 | the '.' branch ends after the fraction digits or fails where a digit is missing |
| ExpressionScanner.ExpressionParser.ScanExponent | MvcApi/Query/ExpressionParser.cs:925-939 | the exponent branch takes an optional sign and then digits, or fails where a digit is missing |
| ExpressionScanner.ExpressionParser.ScanNumberHere | MvcApi/Query/ExpressionParser.cs:906-945 | the numeric branch yields an integer or real literal ending where the number specification says |
| ExpressionScanner.ExpressionParser.ScanQuoteBody | MvcApi/Query/ExpressionParser.cs:830-837 | the inner loop stops at the closing quote or the end, a backslash skipping the next character |
| ExpressionScanner.ExpressionParser.ScanQuoted | MvcApi/Query/ExpressionParser.cs:823-846 | a quoted literal ends after its closing quote, a doubled quote continuing it; an unterminated one is an error at the text length |
| ExpressionScanner.ExpressionParser.ScanHere | MvcApi/Query/ExpressionParser.cs:793-955 | the switch yields the token kind and end offset of the scanning specification, or its error |
| ExpressionScanner.ExpressionParser.NextToken | MvcApi/Query/ExpressionParser.cs:785-960 | skips white space and sets the current token (kind, source text, offset, reclassified) and offset as the scanning specification says |
| ExpressionGrammar.NextTok | MvcApi/Query/ExpressionParser.cs:785-960 | the next token is the scanner's token at the current offset, and the text left to read shrinks unless the current token is the end |
| ExpressionGrammar.KeywordOf | MvcApi/Query/ExpressionParser.cs:151-164 | the keyword table, ignoring case: true, false and null are constants, the rest are the type keywords binary, X, time, datetime, datetimeoffset and guid |
| ExpressionGrammar.MapFunction | MvcApi/Query/ExpressionParser.cs:650-773 | only substringof swaps its arguments, mapped to String.Contains; a static member is always a method |
| ExpressionGrammar.MappedArguments | MvcApi/Query/ExpressionParser.cs:1329-1345 | after the optional swap, a non-static member takes the first argument as its instance and the rest as arguments, a static one takes them all; too few arguments is an index error |
| ExpressionGrammar.SubstringOfSwapsArguments | MvcApi/Query/ExpressionParser.cs:740-751 | substringof(a, b) becomes b.Contains(a) |
| ExpressionGrammar.MemberNode | MvcApi/Query/ExpressionParser.cs:1380-1384 | a property or field access succeeds exactly when the instance suits the member, and has the member's type |
| ExpressionGrammar.CallNode | MvcApi/Query/ExpressionParser.cs:1362 | a call succeeds exactly when the instance suits the method, and has its return type |
| ExpressionGrammar.StringConcat | MvcApi/Query/ExpressionParser.cs:343-354 | String.Concat(object, object) of the operands, value types boxed to object |
| ExpressionGrammar.ArithmeticType | MvcApi/Query/ExpressionParser.cs:356-359 | a date minus a date is a time span; any other arithmetic keeps the left operand's type |
| ExpressionGrammar.AddNode | MvcApi/Query/ExpressionParser.cs:283-290 | two strings concatenate with String.Concat(string, string); anything else is an addition |
| ExpressionGrammar.AdditiveNode | MvcApi/Query/ExpressionParser.cs:979-1011 | + with a string operand and & concatenate; + otherwise adds and - subtracts after promotion to the add and subtract signatures |
| ExpressionGrammar.MultiplicativeOp | MvcApi/Query/ExpressionParser.cs:1430-1463 | *, / and % or mod map to multiply, divide and modulo |
| ExpressionGrammar.ComparisonOp | MvcApi/Query/ExpressionParser.cs:1075-1142 | a comparison token gives an equality operator exactly for =, ==, != and <> |
| ExpressionGrammar.ConvertEnum | MvcApi/Query/ExpressionParser.cs:133-149 | an enumeration operand becomes its underlying type, nullable when it is nullable or the other operand is the null constant; other operands are unchanged |
| ExpressionGrammar.ComparisonOperands | MvcApi/Query/ExpressionParser.cs:1075-1142 | for = and != on two reference types the more general type wins and incompatible types are an error; otherwise enumerations convert and operands are promoted |
| ExpressionGrammar.ComparisonNode | MvcApi/Query/ExpressionParser.cs:292-336 | every comparison is a Boolean node; string orderings compare String.Compare(left, right) with zero |
| ExpressionGrammar.AverageType | MvcApi/Query/ExpressionParser.cs:2035-2066 | Average over int, long or double is double, over their nullable forms double?, and otherwise keeps the selector type |
| ExpressionGrammar.AggregateCall | MvcApi/Query/ExpressionParser.cs:1029-1046 | an Enumerable call over the instance, with the lambda of the argument over the fresh parameter when there is one; Min and Max are also instantiated with the selector type |
| ExpressionGrammar.ParseIntegerLiteral | MvcApi/Query/ExpressionParser.cs:1242-1289 | an integer literal in range of its integral type, recorded with its text; the input shrinks |
| ExpressionGrammar.ParseRealLiteral | MvcApi/Query/ExpressionParser.cs:1649-1697 | a real literal typed float, decimal or double by its suffix; a non-real token is a syntax error |
| ExpressionGrammar.ParseStringLiteral | MvcApi/Query/ExpressionParser.cs:1699-1714 | the unescaped text between the quotes, recorded as the literal's text; a non-string token is a syntax error |
| ExpressionGrammar.TypedValue | MvcApi/Query/ExpressionParser.cs:1716-1766 | a string parses as every type but guid, datetimeoffset, time and binary, and as binary exactly when it is a binary literal |
| ExpressionGrammar.ParseTypeConstruction | MvcApi/Query/ExpressionParser.cs:1716-1766 | only datetime followed by a string yields a value, a DateTime constant |
| ExpressionGrammar.GetIdentifier | MvcApi/Query/ExpressionParser.cs:361-370 | the identifier's text with a leading @ dropped from a longer one; a non-identifier is an identifier-expected error |
| ExpressionGrammar.ResolveMember | MvcApi/Query/ExpressionParser.cs:1411-1421 | the resolver's member when there is a resolver and it answers, else an unknown-member error at the name |
| ExpressionGrammar.MappedMember | MvcApi/Query/ExpressionParser.cs:1346-1385 | a mapped method is the unique applicable, non-void method on the mapped type; a property or field is looked up by name, then asked of the resolver |
| ExpressionGrammar.ElementAccessNode | MvcApi/Query/ExpressionParser.cs:1153-1175 | a multi-dimensional array or several indices is an error; an array is indexed by an int index; otherwise the unique applicable indexer is called |
| ExpressionGrammar.ParseExpression | MvcApi/Query/ExpressionParser.cs:1200-1204 | a parsed expression leaves a valid state and consumes input |
| ExpressionGrammar.LogicalOrRest | MvcApi/Query/ExpressionParser.cs:1305-1318 | the loop stops at once unless the token is the or operator, in either spelling, and never grows the input left |
| ExpressionGrammar.LogicalAndRest | MvcApi/Query/ExpressionParser.cs:1291-1303 | the loop stops at once unless the token is && or and, and never grows the input left |
| ExpressionGrammar.ComparisonRest | MvcApi/Query/ExpressionParser.cs:1075-1142 | the loop stops at once unless the token is a comparison, and never grows the input left |
| ExpressionGrammar.AdditiveRest | MvcApi/Query/ExpressionParser.cs:974-1014 | the loop stops at once unless the token is +, - or &, and never grows the input left |
| ExpressionGrammar.MultiplicativeRest | MvcApi/Query/ExpressionParser.cs:1430-1463 | the loop stops at once unless the token is *, /, % or mod, and never grows the input left |
| ExpressionGrammar.ParseUnary | MvcApi/Query/ExpressionParser.cs:1769-1791 | a unary expression consumes input and leaves a valid state |
| ExpressionGrammar.PrimaryRest | MvcApi/Query/ExpressionParser.cs:1604-1624 | the loop stops at once unless the token is a dot or [, and never grows the input left |
| ExpressionGrammar.ParsePrimaryStart | MvcApi/Query/ExpressionParser.cs:1626-1647 | anything but an identifier, a literal or ( is an expression-expected error at the token |
| ExpressionGrammar.ParseIdentifier | MvcApi/Query/ExpressionParser.cs:1206-1240 | a parsed identifier consumes its token and leaves a valid state (the order of lookups is stated by the lemmas below) |
| ExpressionGrammar.ParseMappedFunction | MvcApi/Query/ExpressionParser.cs:1320-1386 | a mapped function call or member consumes its name and arguments and leaves a valid state |
| ExpressionGrammar.ParseMemberAccess | MvcApi/Query/ExpressionParser.cs:1388-1428 | a member access needs an identifier, else it is an identifier-expected error |
| ExpressionGrammar.ParseAggregate | MvcApi/Query/ExpressionParser.cs:1017-1047 | an aggregate is a call of an Enumerable method |
| ExpressionGrammar.ParseArgumentList | MvcApi/Query/ExpressionParser.cs:1049-1057 | an argument list must open with (, else it is an open-paren error |
| ExpressionGrammar.ParseArguments | MvcApi/Query/ExpressionParser.cs:1059-1072 | there is at least one argument |
| ExpressionGrammar.Parse | MvcApi/Query/ExpressionParser.cs:962-972 | success means the expression spans the whole text; with a result type it is that expression promoted exactly to it |
| ExpressionGrammar.PromoteToResult | MvcApi/Query/ExpressionParser.cs:964-970 | the result has the requested type; an expression that does not promote is a type mismatch |
| ExpressionGrammar.OrderingDirection | MvcApi/Query/ExpressionParser.cs:1566-1581 | asc or ascending keeps the key ascending, desc or descending makes it descending, no word leaves the state unchanged |
| ExpressionGrammar.ParseOrdering | MvcApi/Query/ExpressionParser.cs:1560-1592 | an ordering list has at least one key and fails exactly when its loop fails |
| ExpressionGrammar.OrderingTerms | MvcApi/Query/ExpressionParser.cs:1560-1592 | the orderings follow the text: each key with its direction, separated by commas, ending the text |
| ExpressionGrammar.ProcessParameters | MvcApi/Query/ExpressionParser.cs:1793-1807 | the named parameters become symbols in order with distinct names ignoring case, a repeat is a duplicate-identifier error; a single unnamed parameter becomes it |
| ExpressionGrammar.AddSymbols | MvcApi/Query/ExpressionParser.cs:67-74 | adding symbols appends the named parameters and keeps names distinct, or fails on a duplicate |
| ExpressionGrammar.NamedParameters | MvcApi/Query/ExpressionParser.cs:1797-1803 | exactly the parameters that have a name |
| ExpressionGrammar.StartParser | MvcApi/Query/ExpressionParser.cs:32-53 | a missing expression is an argument-null error; otherwise scanning starts at 0 with the first token read, and no parameters means no symbols and no it |
| ExpressionGrammar.XIsNeverAName | MvcApi/Query/ExpressionParser.cs:151-164 | the identifier x or X never parses, even when a parameter or member is named x |
| ExpressionGrammar.TypeKeywordFails | MvcApi/Query/ExpressionParser.cs:1716-1766 | a type keyword other than datetime never parses |
| ExpressionGrammar.KeywordOfX | MvcApi/Query/ExpressionParser.cs:158 | x in either case is the binary keyword |
| ExpressionGrammar.NameIsMemberOfIt | MvcApi/Query/ExpressionParser.cs:1229-1240 | a bare name that is no keyword, symbol or mapped function is the member of it of that name |
| ExpressionGrammar.PropertyOfIt | MvcApi/Query/ExpressionParser.cs:1229-1240 | a name of an instance property or field of the type of it is parsed as that member on it |
| ExpressionGrammar.BareNameIsMemberAccess | MvcApi/Query/ExpressionParser.cs:1206-1240 | a bare name that is no keyword, symbol or mapped function is a member access on it |
| ExpressionGrammar.PropertyAccess | MvcApi/Query/ExpressionParser.cs:1388-1428 | a name after an instance that names a property or field of its type is that member access |
| ExpressionGrammar.ParseLogicalOr | MvcApi/Query/ExpressionParser.cs:1305-1318 | consumes input and leaves a valid state |
| ExpressionGrammar.ParseLogicalAnd | MvcApi/Query/ExpressionParser.cs:1291-1303 | consumes input and leaves a valid state |
| ExpressionGrammar.ParseComparison | MvcApi/Query/ExpressionParser.cs:1075-1142 | consumes input and leaves a valid state |
| ExpressionGrammar.ParseAdditive | MvcApi/Query/ExpressionParser.cs:974-1014 | consumes input and leaves a valid state |
| ExpressionGrammar.ParseMultiplicative | MvcApi/Query/ExpressionParser.cs:1430-1463 | consumes input and leaves a valid state |
| ExpressionGrammar.ParsePrimary | MvcApi/Query/ExpressionParser.cs:1604-1624 | consumes input and leaves a valid state |
| ExpressionGrammar.ParseElementAccess | MvcApi/Query/ExpressionParser.cs:1144-1175 | consumes input and leaves a valid state |
| ExpressionGrammar.ParseParenExpression | MvcApi/Query/ExpressionParser.cs:1594-1602 | consumes input and leaves a valid state |
| ExpressionGrammar.ParseOrderingFrom | MvcApi/Query/ExpressionParser.cs:1562-1589 | the loop yields at least one key and ends at the end of the text |
| ExpressionGrammar.AddDistinctName | MvcApi/Query/ExpressionParser.cs:67-74 | adding a name no symbol has keeps the symbol names distinct |
| ExpressionGrammar.NoSymbolNamed | MvcApi/Query/ExpressionParser.cs:1219 | no symbol is found under a name no symbol has, ignoring case |
| QueryLexer.ReclassifyToken | MvcApi/Query/ExpressionParser.cs:1883-1945 | an identifier spelled exactly as an operator word becomes that operator; any other token keeps its kind |
| QueryLexer.ReclassificationIsCaseSensitive | MvcApi/Query/ExpressionParser.cs:1883-1945 | or, AND and Eq stay identifiers, while and and eq become operators |
| QueryLexer.Advance | MvcApi/Query/ExpressionParser.cs:775-782 | one position on, never past the end |
| QueryLexer.SkipWhiteSpace | MvcApi/Query/ExpressionParser.cs:788-791 | the first offset from the start that is not white space, every offset before it being white space |
| QueryLexer.SkipWhile | MvcApi/Query/ExpressionParser.cs:897-904 | the first offset from the start outside the character class, every offset before it inside |
| QueryLexer.QuoteBodyEnd | MvcApi/Query/ExpressionParser.cs:830-837 | stops at the next quote or the end, never inside a backslash escape |
| QueryLexer.QuotedLiteralEnd | MvcApi/Query/ExpressionParser.cs:823-846 | a quoted literal ends after its closing quote, a doubled quote continuing it; reaching the end first is an error at the end |
| QueryLexer.DigitRun | MvcApi/Query/ExpressionParser.cs:906-913 | a digit is required, and the run ends at the first non-digit |
| QueryLexer.FractionPart | MvcApi/Query/ExpressionParser.cs:914-924 | a '.' must be followed by digits, giving a real literal |
| QueryLexer.ExponentPart | MvcApi/Query/ExpressionParser.cs:925-939 | an E or e, an optional sign and digits give a real literal |
| QueryLexer.ScanNumber | MvcApi/Query/ExpressionParser.cs:906-945 | digits, then an optional fraction, exponent and F, M or D suffix; any of the last three makes it a real literal |
| QueryLexer.ScanFrom | MvcApi/Query/ExpressionParser.cs:793-955 | End exactly at the end of the text; an error for a character that starts no token |
| QueryLexer.ScanToken | MvcApi/Query/ExpressionParser.cs:785-960 | the token lies between the offset and its end, End exactly when only white space remains, every other token non-empty and reclassified |
| QueryLexer.ScanName | MvcApi/Query/ExpressionParser.cs:785-960 | in `Name eq 'x'` the first token is the identifier Name |
| QueryLexer.ScanEq | MvcApi/Query/ExpressionParser.cs:785-960 | the keyword eq is read as the equality token |
| QueryLexer.ScanQuoted | MvcApi/Query/ExpressionParser.cs:785-960 | a quoted text is read as one string-literal token |
| QueryLexer.ScannedKinds | MvcApi/Query/ExpressionParser.cs:793-955 | the scanner never yields Unknown, Equal or LessGreater |
| QueryLexer.SlashIsDot | MvcApi/Query/ExpressionParser.cs:886-889 | / scans as the member-access token |
| QueryLexer.InvalidCharacterIsReported | MvcApi/Query/ExpressionParser.cs:946-953 | a character that begins no token is an error at its own offset naming it |
| QueryLexer.SymbolsAreInvalidCharacters | MvcApi/Query/ExpressionParser.cs:793-955 | =, <, >, !, *, + and . begin no token |
| QueryLexer.UnterminatedLiteralFailsAtEnd | MvcApi/Query/ExpressionParser.cs:838-842 | an unclosed quoted literal is an error at the end of the text |
| QueryLexer.DoubledQuoteContinuesLiteral | MvcApi/Query/ExpressionParser.cs:823-846 | 'it''s' is one string literal |
| QueryLiterals.StringLiteralValue | MvcApi/Query/ExpressionParser.cs:1699-1714 | the text between the quotes, a doubled backslash unescaped first and then the literal's own escaped quote; a doubled quote is kept |
| QueryLiterals.EscapedQuote | MvcApi/Query/ExpressionParser.cs:1699-1714 | the literal `'it\'s'` has the value `it's` |
| QueryLiterals.EscapedBackslash | MvcApi/Query/ExpressionParser.cs:1699-1714 | the literal `"a\\b"` has the value `a\b` |
| QueryLiterals.LengthOfReplaceShrinks | MvcApi/Query/ExpressionParser.cs:1703-1711 | unescaping never lengthens the text |
| QueryLiterals.PlainStringLiteral | MvcApi/Query/ExpressionParser.cs:1699-1714 | a literal without backslashes is its body |
| QueryLiterals.EscapedStringLiterals | MvcApi/Query/ExpressionParser.cs:1699-1714 | `'it\'s'` has the value `it's` and `"a\\b"` the value `a\b` |
| QueryLiterals.EscapedQuoteBetween | MvcApi/Query/ExpressionParser.cs:1706 | in a single-quoted literal an escaped quote is a bare quote |
| QueryLiterals.EscapedBackslashBetween | MvcApi/Query/ExpressionParser.cs:1703 | in a double-quoted literal a doubled backslash is one backslash |
| QueryLiterals.DoubledQuoteIsKept | MvcApi/Query/ExpressionParser.cs:1699-1714 | a doubled quote stays doubled in the value |
| QueryLiterals.ParseIntegerTextOfIntegerText | MvcApi/Query/ExpressionParser.cs:1250 | reading back the invariant-culture text of an integer gives the integer |
| QueryLiterals.SignNeedsSignStyle | MvcApi/Query/ExpressionParser.cs:1471 | without the sign style a signed text is unreadable |
| QueryLiterals.IntegerLiteralValue | MvcApi/Query/ExpressionParser.cs:1242-1289 | the text read as an unsigned 64-bit number, or a signed one when it starts with -; unreadable or out-of-range text is an invalid-literal error at the token |
| QueryLiterals.ToInt64Unchecked | MvcApi/Query/ExpressionParser.cs:1257 | the unchecked cast to long: values above the long range wrap by 2 to the 64 |
| QueryLiterals.IntegerLiteralConstant | MvcApi/Query/ExpressionParser.cs:1253-1288 | with the L suffix a long; otherwise the first of int, uint, long and ulong that holds a non-negative value, int or long for a negative one |
| QueryLiterals.LiteralTypeIsSmallest | MvcApi/Query/ExpressionParser.cs:1260-1288 | the literal's type holds its value and no earlier type of that order does |
| QueryLiterals.IntegerLiteralOfIntegerText | MvcApi/Query/ExpressionParser.cs:1242-1289 | the text of a 64-bit value is a literal of that value |
| QueryLiterals.IntegerLiteralExamples | MvcApi/Query/ExpressionParser.cs:1260-1288 | 2147483648 is a uint, 4294967296 a long, 5L a long |
| QueryLiterals.ParseNumber | MvcApi/Query/ExpressionParser.cs:1465-1558 | text read as a value of the type or of T for T?, a sign allowed exactly for the signed integral types; other types read nothing |
| QueryLiterals.ParseNumberOfIntegerText | MvcApi/Query/ExpressionParser.cs:1465-1558 | the text of a value of an integral type parses back to that value, for the type and its nullable |
| QueryLiterals.IntegralCodeRoundTrip | MvcApi/Query/ExpressionParser.cs:1467 | an integral type and its nullable are keyed by that type's code |
| QueryLiterals.ParseIntegralNumber | MvcApi/Query/ExpressionParser.cs:1465-1558 | for an integral type, text read as a number in its range is that number |
| QueryLiterals.ParseNumberOfNonNumeric | MvcApi/Query/ExpressionParser.cs:1555-1557 | non-numeric types read nothing |
| QueryLiterals.RealLiteral | MvcApi/Query/ExpressionParser.cs:1649-1697 | a trailing F, M or D picks float, decimal or double and is dropped before parsing; otherwise a double; unreadable text is an error at the token |
| QueryLiterals.HexPair | MvcApi/Query/ExpressionParser.cs:1751 | two hex digits read as a byte, with number white space allowed around them |
| QueryLiterals.BinaryLiteral | MvcApi/Query/ExpressionParser.cs:1738-1755 | odd length is an invalid-hex-literal error; otherwise one byte per pair, a non-hex pair a format error |
| QueryLiterals.HexPairsShift | MvcApi/Query/ExpressionParser.cs:1746-1753 | the pairs after the first pair are those of the rest of the text |
| QueryLiterals.BinaryLiteralOfHexText | MvcApi/Query/ExpressionParser.cs:1738-1755 | the hex text of bytes reads back as those bytes |
| QueryLiterals.ConvertToInt32 | MvcApi/Query/ODataQueryDeserializer.cs:175 | null is 0; text with white space and a sign is read; other text is a format error and a number outside int an overflow |
| QueryLiterals.ConvertToInt32OfIntegerText | MvcApi/Query/ODataQueryDeserializer.cs:175 | the text of an int converts back to it, and a larger number overflows |
| QueryPromotion.EnumParse | MvcApi/Query/ExpressionParser.cs:1850 | the literal's number converted to the enumeration's underlying type, an overflow when it does not fit |
| QueryPromotion.ToChar | MvcApi/Query/ExpressionParser.cs:1842 | an integral value within the UTF-16 code units is that character, else an overflow |
| QueryPromotion.ParseEnum | MvcApi/Query/ExpressionParser.cs:1177-1188 | the first declared enumeration member whose name equals the text ignoring case; nothing for other types |
| QueryPromotion.LiteralValueFor | MvcApi/Query/ExpressionParser.cs:1826-1862 | an integer literal becomes an enumeration value, a char or another numeric type read from its text; a double literal a decimal; a string literal an enumeration member |
| QueryPromotion.PromoteExpression | MvcApi/Query/ExpressionParser.cs:1809-1881 | an expression of the type is kept; the null literal becomes a typed null for reference and nullable types; a literal may be re-read; otherwise the type must be compatible and the expression is converted |
| QueryPromotion.ExactPromotionHasTheType | MvcApi/Query/ExpressionParser.cs:1809-1881 | an exact promotion always has the requested type |
| QueryPromotion.NullLiteralPromotion | MvcApi/Query/ExpressionParser.cs:1818-1826 | the null literal promotes exactly to reference and nullable types |
| QueryPromotion.IntLiteralToLong | MvcApi/Query/ExpressionParser.cs:1826-1862 | an integer literal re-read as a long keeps its value |
| QueryPromotion.LargeLiteralToCharOverflows | MvcApi/Query/ExpressionParser.cs:1840-1844 | an integer literal outside the code units of char throws an overflow |
| QueryPromotion.PromoteArguments | MvcApi/Query/ExpressionParser.cs:431-454 | each argument promoted to its parameter's type in order; an out parameter or an unpromotable argument gives none |
| QueryPromotion.IsApplicable | MvcApi/Query/ExpressionParser.cs:431-454 | a method applies exactly when it has as many parameters as arguments and each argument promotes |
| QueryPromotion.ExactArgumentsApply | MvcApi/Query/ExpressionParser.cs:431-454 | a method whose parameter types are the argument types applies with the arguments unchanged |
| QueryPromotion.Comparisons | MvcApi/Query/ExpressionParser.cs:456-472 | one CompareConversions entry per argument |
| QueryPromotion.ComparisonsSwap | MvcApi/Query/ExpressionParser.cs:456-472 | swapping the candidates negates every comparison |
| QueryPromotion.BetterThanMeaning | MvcApi/Query/ExpressionParser.cs:456-472 | better means never a worse conversion and somewhere a better one |
| QueryPromotion.BetterIsAsymmetric | MvcApi/Query/ExpressionParser.cs:456-472 | no two candidates are each better than the other |
| QueryPromotion.Applicable | MvcApi/Query/ExpressionParser.cs:175-176 | the applicable candidates, in order |
| QueryPromotion.BetterMatrix | MvcApi/Query/ExpressionParser.cs:177-180 | entry i, j says whether candidate i is better than candidate j; the relation is asymmetric |
| QueryPromotion.BestFrom | MvcApi/Query/ExpressionParser.cs:177-180 | the candidates better than every other, in order |
| QueryPromotion.BestIsUnique | MvcApi/Query/ExpressionParser.cs:177-180 | under an asymmetric relation at most one candidate beats every other |
| QueryPromotion.BestFromAtMostOne | MvcApi/Query/ExpressionParser.cs:177-180 | narrowing keeps at most one candidate |
| QueryPromotion.Narrowed | MvcApi/Query/ExpressionParser.cs:175-181 | all applicable candidates, or when several apply those better than every other |
| QueryPromotion.FindBestMethod | MvcApi/Query/ExpressionParser.cs:173-205 | the count of candidates left; with exactly one, it is returned and the arguments become its promoted arguments, otherwise they are unchanged |
| QueryPromotion.SingleApplicableIsChosen | MvcApi/Query/ExpressionParser.cs:173-205 | one applicable method is chosen with its promoted arguments |
| QueryPromotion.ChosenIsBetterThanTheRest | MvcApi/Query/ExpressionParser.cs:173-205 | with several applicable, one is chosen exactly when it is better than every other |
| QueryPromotion.FindMethod | MvcApi/Query/ExpressionParser.cs:253-267 | the result of the first type in the walk whose search finds something, else a count of zero with the arguments unchanged |
| QueryPromotion.FindMethodMeaning | MvcApi/Query/ExpressionParser.cs:253-267 | the first group that throws or finds a method decides, every earlier group finding none; the count is at most one |
| QueryPromotion.FindMethodCount | MvcApi/Query/ExpressionParser.cs:253-267 | a successful search finds at most one method, with its promoted arguments |
| QueryPromotion.SignatureGroups | MvcApi/Query/ExpressionParser.cs:253-267 | the methods named on each interface of the signature walk, in walk order |
| QueryPromotion.TypeGroups | MvcApi/Query/ExpressionParser.cs:253-267 | the methods named, static or instance, on each type of the walk |
| QueryPromotion.IndexerGroups | MvcApi/Query/ExpressionParser.cs:231-251 | the indexer getters on each type of the walk |
| QueryPromotion.FindPropertyOrField | MvcApi/Query/ExpressionParser.cs:269-281 | the first member named so on the first type of the walk that declares one |
| QueryPromotion.PromoteOperands | MvcApi/Query/ExpressionParser.cs:76-97 | the operands promoted by the unique applicable signature of the first group with one, else none |
| QueryPromotion.CheckAndPromoteOperand | MvcApi/Query/ExpressionParser.cs:76-85 | the operand promoted by the unique applicable unary signature; otherwise an incompatible-operand error at the operator |
| QueryPromotion.CheckAndPromoteOperands | MvcApi/Query/ExpressionParser.cs:87-97 | both operands promoted by the unique applicable binary signature; otherwise an incompatible-operands error at the operator |
| QueryPromotion.ExactMatchIsBest | MvcApi/Query/ExpressionParser.cs:456-472 | a candidate whose parameter types are the argument types beats every other signature |
| StructuredQueryParts.NewStructuredQueryPart | MvcApi/Query/StructuredQueryPart.cs:26-40 | a null operator, then a null expression, is an argument-null error; otherwise the part holds both |
| StructuredQueryParts.PartText | MvcApi/Query/StructuredQueryPart.cs:117-120 | the text is the operator, '=' and the expression |
| StructuredQueryParts.PartTextSplits | MvcApi/Query/StructuredQueryPart.cs:117-120 | the text of a part whose operator has no '=' splits back into operator and expression at its first '=' |
| StructuredQueryParts.InClause | MvcApi/Query/StructuredQueryPart.cs:51-59 | a parse error is re-raised naming the query option; anything else passes through |
| StructuredQueryParts.OptionCount | MvcApi/Query/StructuredQueryPart.cs:72-108 | the count read as an Int32: a format error re-raised naming the option, an overflow passing through, a negative count a positive-integer-expected error |
| StructuredQueryParts.ApplyPart | MvcApi/Query/StructuredQueryPart.cs:46-111 | filter is Where, orderby OrderBy, skip and top Skip and Take by the count; any other operator leaves the query unchanged |
| StructuredQueryParts.NegativeSkipIsRejected | MvcApi/Query/StructuredQueryPart.cs:76-80 | a negative skip count is rejected naming the option and the text |
| StructuredQueryParts.NegativeCountText | MvcApi/Query/StructuredQueryPart.cs:76-80 | a negative count written in digits is a positive-integer-expected error |
| StructuredQueryParts.TopOfCount | MvcApi/Query/StructuredQueryPart.cs:90-100 | top with a count in digits is Take of that count |
| StructuredQueryParts.SkipOfCount | MvcApi/Query/StructuredQueryPart.cs:72-82 | skip with a count in digits is Skip of that count |
| StructuredQueryParts.CountTextReadsBack | MvcApi/Query/StructuredQueryPart.cs:75 | a count written in digits reads back as that count |
| ODataQueryDeserializer.OperatorRank | MvcApi/Query/ODataQueryDeserializer.cs:124-128 | the supported operators' alphabetical order is filter, orderby, skip, top |
| ODataQueryDeserializer.PartsOfValues | MvcApi/Query/ODataQueryDeserializer.cs:111-122 | one part per value, in order, for a supported operator; none otherwise |
| ODataQueryDeserializer.PartsOfKey | MvcApi/Query/ODataQueryDeserializer.cs:100-123 | a null key or one not starting with $ gives nothing; otherwise the parts of its values under the key without its $ |
| ODataQueryDeserializer.PartsOfKeys | MvcApi/Query/ODataQueryDeserializer.cs:99-123 | the parts of the keys in key order, or the first failing key's error |
| ODataQueryDeserializer.GetStructuredQuery | MvcApi/Query/ODataQueryDeserializer.cs:93-134 | a null collection is an argument-null error; otherwise the parts of every key, sorted by operator |
| ODataQueryDeserializer.PartsOfKeysStep | MvcApi/Query/ODataQueryDeserializer.cs:99-123 | one more key appends its parts |
| ODataQueryDeserializer.PrefixErrorStays | MvcApi/Query/ODataQueryDeserializer.cs:99-123 | once a key fails, the whole list fails with that error |
| ODataQueryDeserializer.AddKeyParts | MvcApi/Query/ODataQueryDeserializer.cs:100-122 | one key's parts are appended to those so far |
| ODataQueryDeserializer.SortedPartsAreSupported | MvcApi/Query/ODataQueryDeserializer.cs:93-134 | every part of a structured query is of a supported operator |
| ODataQueryDeserializer.SortPartsInOperatorOrder | MvcApi/Query/ODataQueryDeserializer.cs:124-128 | the sort puts the parts in the order filter, orderby, skip, top |
| ODataQueryDeserializer.SortPartsIsPermutation | MvcApi/Query/ODataQueryDeserializer.cs:128 | the sort loses and adds no part |
| ODataQueryDeserializer.StructuredQueryOrder | MvcApi/Query/ODataQueryDeserializer.cs:93-134 | the structured query is a permutation of the extracted parts, in operator order, each supported |
| ODataQueryDeserializer.OneKeyParts | MvcApi/Query/ODataQueryDeserializer.cs:100-122 | the only key of a one-entry collection gives the parts of its values |
| ODataQueryDeserializer.SortOneOperator | MvcApi/Query/ODataQueryDeserializer.cs:128 | parts of one operator are already sorted |
| ODataQueryDeserializer.RepeatedOption | MvcApi/Query/ODataQueryDeserializer.cs:93-134 | an option repeated with several values gives one part per value, in order |
| ODataQueryDeserializer.FilterOfOneOperator | MvcApi/Query/ODataQueryDeserializer.cs:128 | filtering parts of one operator keeps them all for that operator and none for another |
| ODataQueryDeserializer.ApplyTo | MvcApi/Query/ODataQueryDeserializer.cs:142-210 | an unsupported operator is an argument error; a supported one is applied as the structured part applies it |
| ODataQueryDeserializer.ApplyAllSingle | MvcApi/Query/ODataQueryDeserializer.cs:72-76 | a single supported part gives that part applied |
| ODataQueryDeserializer.ApplyAllPair | MvcApi/Query/ODataQueryDeserializer.cs:72-76 | two parts apply the second to the result of the first |
| ODataQueryDeserializer.ApplyAllKeepsElementType | MvcApi/Query/ODataQueryDeserializer.cs:60-79 | applying parts never changes the provider or element type |
| ODataQueryDeserializer.ApplyAllAppend | MvcApi/Query/ODataQueryDeserializer.cs:72-76 | applying a + b is applying a, then b |
| ODataQueryDeserializer.DeserializeParts | MvcApi/Query/ODataQueryDeserializer.cs:60-79 | a null query, then null parts, is an argument-null error; otherwise the parts applied left to right |
| ODataQueryDeserializer.GetStructuredQueryOfUri | MvcApi/Query/ODataQueryDeserializer.cs:81-91 | a null URI is an argument-null error; otherwise the structured query of its parsed query component |
| ODataQueryDeserializer.Deserialize | MvcApi/Query/ODataQueryDeserializer.cs:29-44 | null checks on the query then the URI, then the URI's structured query applied to the query |
| ODataQueryDeserializer.DeserializeOfType | MvcApi/Query/ODataQueryDeserializer.cs:46-58 | null checks on the type then the URI, then the parts applied to an empty array of the type; a result has that element type |
| QueryComposer.StaticCall | MvcApi/Query/QueryComposer.cs:37 | a static call with fitting arguments, or an argument error |
| QueryComposer.Rewrite | MvcApi/Query/QueryComposer.cs:32-41 | a call whose first argument is a constant queryable is made again on the root with the other arguments unvisited; other nodes are rebuilt from visited children |
| QueryComposer.RewriteOption | MvcApi/Query/QueryComposer.cs:32-41 | the visitor over an optional child |
| QueryComposer.RewriteList | MvcApi/Query/QueryComposer.cs:32-41 | children visited in order, the first failure stopping it |
| QueryComposer.Rebase | MvcApi/Query/QueryComposer.cs:17-21 | the placeholder's tree visited with the source's expression as root, made a query by the source's provider, keeping the element type |
| QueryComposer.Compose | MvcApi/Query/QueryComposer.cs:10-13 | composing is rebasing the query onto the source |
| QueryComposer.Graft | MvcApi/Query/QueryComposer.cs:32-41 | the chain with the root grafted in place of its placeholder |
| QueryComposer.RewriteOfChain | MvcApi/Query/QueryComposer.cs:32-41 | rebasing a chain over a constant placeholder grafts the root there and changes nothing else |
| QueryComposer.RebaseTwiceDiffers | MvcApi/Query/QueryComposer.cs:17-41 | rebasing is not idempotent: a source that is itself a call over a constant queryable is re-rooted again |
| QueryComposer.RebasedIntPage | MvcApi/Query/QueryComposer.cs:17-21 | a rebased int page is the query over that page on the source's provider |
| QueryComposer.RerootIntPage | MvcApi/Query/QueryComposer.cs:34-38 | Skip or Take of an int count over a constant queryable is re-rooted |
| QueryComposer.VisitIntPage | MvcApi/Query/QueryComposer.cs:40 | Skip or Take over anything else is rebuilt over its visited source |
| QueryComposer.PagingExtendsChain | MvcApi/Query/QueryComposer.cs:32-41 | Skip and Take over a placeholder chain extend it by one call |
| QueryComposer.ComposePaging | MvcApi/Query/QueryComposer.cs:10-41 | Skip then Take composed onto the source equals Skip then Take on the source directly |
| QueryFilter.CountExpression | MvcApi/Data/QueryFilterAttribute.cs:70-82 | the source of the outermost Take or Skip, and below it the source of one more Skip if there is one |
| QueryFilter.TryRemovePaging | MvcApi/Data/QueryFilterAttribute.cs:63-92 | no count query when the expression is not a Queryable Take or Skip; otherwise the provider's query over the expression under the paging |
| QueryFilter.CountQueryOfSkipTake | MvcApi/Data/QueryFilterAttribute.cs:63-92 | Skip then Take on any query counts that query |
| QueryFilter.RemovedPagingOf | MvcApi/Data/QueryFilterAttribute.cs:84-89 | a page over a valid query's expression counts that query |
| QueryFilter.CountQueryOfOnePage | MvcApi/Data/QueryFilterAttribute.cs:70-82 | a lone Take or Skip over a query that is not a Skip counts that query |
| QueryFilter.CountQueryStripsOneSkip | MvcApi/Data/QueryFilterAttribute.cs:76-81 | only one Skip is stripped below the outermost page |
| QueryFilter.GetTotalCount | MvcApi/Data/QueryFilterAttribute.cs:94-115 | -1 by default; the count of the count query when paging was stripped; else the full count under a positive result limit |
| QueryFilter.TotalCountOfPage | MvcApi/Data/QueryFilterAttribute.cs:94-115 | the total of a page is the count under the page, whatever the limit |
| QueryFilter.TotalCountWithoutPaging | MvcApi/Data/QueryFilterAttribute.cs:106-112 | without paging the total is the full count under a positive limit, -1 otherwise |
| QueryFilter.InlineCountValueIsExact | MvcApi/Data/QueryFilterAttribute.cs:122-130 | $inlinecount asks for the count only with the exact value allpages |
| QueryFilter.EmptyQueryStringNeverCounts | MvcApi/Data/QueryFilterAttribute.cs:124 | an empty query string never asks for the count |
| QueryableFilter.AsBadRequest | MvcApi/QueryableFilterAttribute.cs:107-110 | a parse error becomes HTTP 400; other outcomes pass through |
| QueryableFilter.QueryableFilterAttribute.constructor | MvcApi/QueryableFilterAttribute.cs:27-35 | the filter keeps the validator, with no limit and no own source or builder |
| QueryableFilter.QueryableFilterAttribute.ChosenQuerySource | MvcApi/QueryableFilterAttribute.cs:165-185 | the filter's own source, else the configuration's, else the default |
| QueryableFilter.QueryableFilterAttribute.ChosenQueryBuilder | MvcApi/QueryableFilterAttribute.cs:124-145 | with an own source, the own builder or the default; without one, the configuration's builder or the default |
| QueryableFilter.QueryableFilterAttribute.StructuredQueryFor | MvcApi/QueryableFilterAttribute.cs:165-185 | the chosen source's structured query of the URL; the default source never answers null |
| QueryableFilter.QueryableFilterAttribute.DeserializedQueryOf | MvcApi/QueryableFilterAttribute.cs:124-145 | the chosen builder's query over the base; the default builder never answers null |
| QueryableFilter.QueryableFilterAttribute.Validated | MvcApi/QueryableFilterAttribute.cs:101-104 | the validator runs only when there is one and a query; the shared instance accepts everything |
| QueryableFilter.QueryableFilterAttribute.Placeholder | MvcApi/QueryableFilterAttribute.cs:99 | an empty array of the element type, as a queryable |
| QueryableFilter.QueryableFilterAttribute.DeserializedFor | MvcApi/QueryableFilterAttribute.cs:90-111 | a query is built only for a non-empty query string with parts |
| QueryableFilter.QueryableFilterAttribute.Limited | MvcApi/QueryableFilterAttribute.cs:158-162 | Take of the limit when it is positive, else the query unchanged |
| QueryableFilter.QueryableFilterAttribute.LimitOutcome | MvcApi/Data/QueryFilterAttribute.cs:30-53 | the data filter asked for the count first adds the total under its key, a key already present being an error; then the limit |
| QueryableFilter.QueryableFilterAttribute.Pipeline | MvcApi/QueryableFilterAttribute.cs:88-121 | nothing unless the result holds a query; else the deserialized query composed onto it, then limited |
| QueryableFilter.QueryableFilterAttribute.OnActionExecuting | MvcApi/QueryableFilterAttribute.cs:63-73 | a null context is an error; a non-positive limit is not |
| QueryableFilter.QueryableFilterAttribute.GetStructuredQuery | MvcApi/QueryableFilterAttribute.cs:165-185 | the chosen source asked for the URL's structured query |
| QueryableFilter.QueryableFilterAttribute.GetDeserializedQuery | MvcApi/QueryableFilterAttribute.cs:124-145 | the chosen builder applies the parts to the base query |
| QueryableFilter.QueryableFilterAttribute.BuildQuery | MvcApi/QueryableFilterAttribute.cs:93-106 | the structured query, the built query over the placeholder and its validation |
| QueryableFilter.QueryableFilterAttribute.ApplyResultLimit | MvcApi/QueryableFilterAttribute.cs:147-163 | null checks on the context then the query, then the limit, with the inline count for the data filter |
| QueryableFilter.QueryableFilterAttribute.OnActionExecuted | MvcApi/QueryableFilterAttribute.cs:75-122 | a null context is an error; otherwise the result's query is deserialized, validated, composed and limited; on an error nothing has changed |
| QueryableFilter.UntouchedWithoutQueryString | MvcApi/QueryableFilterAttribute.cs:91 | without a query string the action's query is only limited |
| QueryableFilter.UntouchedWithoutParts | MvcApi/QueryableFilterAttribute.cs:97 | a query string without parts builds nothing |
| QueryableFilter.NothingDeserialized | MvcApi/QueryableFilterAttribute.cs:113-118 | when nothing is deserialized the query is only limited |
| QueryableFilter.ValidatorRejectionStops | MvcApi/QueryableFilterAttribute.cs:101-110 | a validator that throws stops the filter, a parse error as Bad Request |
| QueryableFilter.ParseErrorIsBadRequest | MvcApi/QueryableFilterAttribute.cs:107-110 | a part that fails to parse answers Bad Request |
| QueryableFilter.ComposedThenLimited | MvcApi/QueryableFilterAttribute.cs:113-118 | the deserialized query is composed onto the action's query and the limit goes on top |
| QueryableFilter.InlineCountStored | MvcApi/Data/QueryFilterAttribute.cs:40-51 | the data filter asked for the count stores the total before the limit; a total already stored is an error |
| QueryableFilter.NoCountUnlessAsked | MvcApi/Data/QueryFilterAttribute.cs:40-51 | without being asked, Items is left alone |
| QueryableFilter.OwnBuilderNeedsOwnSource | MvcApi/QueryableFilterAttribute.cs:129-143 | an own builder without an own source is never used, and an own source without an own builder never uses the configuration's |
| QueryableFilter.PagedRequest | MvcApi/QueryableFilterAttribute.cs:75-122 | $skip=a then $top=b give the action's query skipped by a, taken by b, then limited |
| QueryableFilter.BuiltFromParts | MvcApi/QueryableFilterAttribute.cs:93-106 | with the defaults the built query is the URL's parts applied to the placeholder |
| QueryableFilter.DeserializedAs | MvcApi/QueryableFilterAttribute.cs:91-100 | a non-empty query string deserializes to the query built from its URL |
| QueryableFilter.AppliedPage | MvcApi/QueryableFilterAttribute.cs:100 | applying $skip=a then $top=b is Skip(a) then Take(b) |
| UriQueryUtility.HexToInt | MvcApi/Query/UriQueryUtility.cs:259-274 | the value of a hex digit of either case, -1 for any other character |
| UriQueryUtility.IntToHex | MvcApi/Query/UriQueryUtility.cs:276-283 | the lower-case hex digit of a nibble, and HexToInt reads it back |
| UriQueryUtility.EncodeByte | MvcApi/Query/UriQueryUtility.cs:377-394 | a safe byte is itself, a space is '+', anything else '%' and two lower-case hex digits |
| UriQueryUtility.EncodeBytes | MvcApi/Query/UriQueryUtility.cs:375-396 | each byte's encoding in order, two extra bytes per escaped byte |
| UriQueryUtility.EncodeBytesAppend | MvcApi/Query/UriQueryUtility.cs:377-395 | encoding distributes over concatenation |
| UriQueryUtility.NothingToEncode | MvcApi/Query/UriQueryUtility.cs:371-374 | with no space and nothing to escape the encoding is the input |
| UriQueryUtility.EncodedBytesAreSafeAscii | MvcApi/Query/UriQueryUtility.cs:377-395 | every encoded byte is a URL-safe ASCII character, '+' or '%' |
| UriQueryUtility.UrlEncodeBytes | MvcApi/Query/UriQueryUtility.cs:351-418 | a null array with count 0 gives null and other bad arguments throw; an input needing no encoding is returned itself, else a new array of the encoding |
| UriQueryUtility.CountEncoding | MvcApi/Query/UriQueryUtility.cs:357-370 | the counts of spaces and of bytes to escape in the range |
| UriQueryUtility.WriteEncoding | MvcApi/Query/UriQueryUtility.cs:375-396 | a new array holding the encoding of the range |
| UriQueryUtility.PutEncoded | MvcApi/Query/UriQueryUtility.cs:381-394 | writes one byte's encoding at the position and nothing else |
| UriQueryUtility.EncodePrefixStep | MvcApi/Query/UriQueryUtility.cs:359-370 | one more byte adds its encoding and one escape if it is escaped |
| UriQueryUtility.EscapedCountMonotone | MvcApi/Query/UriQueryUtility.cs:359-370 | a prefix has at most the escapes of the whole |
| UriQueryUtility.UrlEncodeBytesCopying | MvcApi/Query/UriQueryUtility.cs:341-349 | when asked to, an unchanged input comes back as a copy, never the caller's array |
| UriQueryUtility.AsciiText | MvcApi/Query/UriQueryUtility.cs:236 | one character per byte |
| UriQueryUtility.AsciiTextAt | MvcApi/Query/UriQueryUtility.cs:236 | a byte above 0x7F becomes '?', every other byte its own character |
| UriQueryUtility.UrlEncode | MvcApi/Query/UriQueryUtility.cs:229-237 | null stays null; otherwise the ASCII text of the encoding of the UTF-8 bytes |
| UriQueryUtility.ScanPiece | MvcApi/Query/UriQueryUtility.cs:293-337 | '+' is a space byte, %uXXXX one character, %hh one byte; anything else, a malformed escape's '%' included, stands for itself |
| UriQueryUtility.UrlDecoder.constructor | MvcApi/Query/UriQueryUtility.cs:158-163 | an empty decoder with a character buffer of the given size and no byte buffer |
| UriQueryUtility.UrlDecoder.AddByte | MvcApi/Query/UriQueryUtility.cs:165-172 | the byte is appended to the waiting bytes, the buffer made on first use |
| UriQueryUtility.UrlDecoder.FlushBytes | MvcApi/Query/UriQueryUtility.cs:183-190 | the waiting bytes are decoded and appended to the characters |
| UriQueryUtility.UrlDecoder.AddChar | MvcApi/Query/UriQueryUtility.cs:174-181 | waiting bytes are flushed first, then the character appended |
| UriQueryUtility.UrlDecoder.GetString | MvcApi/Query/UriQueryUtility.cs:192-203 | the characters after a final flush |
| UriQueryUtility.UrlDecodeInternal | MvcApi/Query/UriQueryUtility.cs:285-339 | null stays null; otherwise the decoding of the text's pieces |
| UriQueryUtility.UrlDecode | MvcApi/Query/UriQueryUtility.cs:220-227 | null stays null; otherwise the UTF-8 decoding of the text |
| UriQueryUtility.ScanPieceShift | MvcApi/Query/UriQueryUtility.cs:293-337 | scanning inside a suffix does not depend on what precedes it |
| UriQueryUtility.DecodeEncodedBytes | MvcApi/Query/UriQueryUtility.cs:285-396 | decoding the ASCII text of encoded bytes yields exactly those bytes |
| UriQueryUtility.ScanEncodedByte | MvcApi/Query/UriQueryUtility.cs:293-337 | one byte's encoding scans back as that byte |
| UriQueryUtility.UrlDecodeOfUrlEncode | MvcApi/Query/UriQueryUtility.cs:220-237 | decoding the encoding of a string gives back the UTF-8 decoding of its UTF-8 bytes |
| UriQueryUtility.MalformedEscapeIsLiteral | MvcApi/Query/UriQueryUtility.cs:300-331 | a '%' that starts no well-formed escape is kept as '%' |
| UriQueryUtility.SegmentEnd | MvcApi/Query/UriQueryUtility.cs:45-60 | the first '&' at or after the position, or the end |
| UriQueryUtility.SplitAtAmpersand | MvcApi/Query/UriQueryUtility.cs:38-85 | the text split at every '&' |
| UriQueryUtility.FillFromIsSplit | MvcApi/Query/UriQueryUtility.cs:38-85 | the pairs are the key/value splits of the '&'-separated segments |
| UriQueryUtility.SegmentEndIsIndexOf | MvcApi/Query/UriQueryUtility.cs:45-60 | the segment ends at the first '&' of the rest |
| UriQueryUtility.PairsAreSegments | MvcApi/Query/UriQueryUtility.cs:38-85 | a non-empty query string gives one pair per segment, one more than it has '&'s, a trailing '&' adding an empty pair |
| UriQueryUtility.AddAllKeepsValid | MvcApi/Query/UriQueryUtility.cs:74 | adding pairs keeps the collection's keys distinct |
| UriQueryUtility.HttpValueCollection.constructor | MvcApi/Query/UriQueryUtility.cs:18-26 | a collection filled from the text with names and values decoded; null or empty text gives an empty one |
| UriQueryUtility.HttpValueCollection.FillFromString | MvcApi/Query/UriQueryUtility.cs:38-85 | one pair per '&'-separated segment, in order, plus an empty pair for a final '&'; decoded when asked |
| UriQueryUtility.HttpValueCollection.ToString | MvcApi/Query/UriQueryUtility.cs:33-36 | names and values encoded, pairs joined with '&' |
| UriQueryUtility.AppendValues | MvcApi/Query/UriQueryUtility.cs:127-140 | prefix and encoded value for each value, joined with '&' |
| UriQueryUtility.ScanSegment | MvcApi/Query/UriQueryUtility.cs:43-60 | the end of the segment and the position of its first '=', -1 when it has none |
| UriQueryUtility.KeyValueOfScan | MvcApi/Query/UriQueryUtility.cs:61-71 | what the scan finds is the segment's key and value |
| UriQueryUtility.EncodedValues | MvcApi/Query/UriQueryUtility.cs:111-140 | the url-encoded values |
| UriQueryUtility.SplitJoined | MvcApi/Query/UriQueryUtility.cs:107-110 | splitting a text joined by '&' splits each part |
| UriQueryUtility.EncodedHasNoSeparators | MvcApi/Query/UriQueryUtility.cs:239-257 | an encoded text has neither '&' nor '=' |
| UriQueryUtility.EncodedIsNonEmpty | MvcApi/Query/UriQueryUtility.cs:229-237 | a text with UTF-8 bytes has a non-empty encoding |
| UriQueryUtility.SplitEntryValues | MvcApi/Query/UriQueryUtility.cs:104-141 | the segments of one written entry split back apart |
| UriQueryUtility.SplitSerialized | MvcApi/Query/UriQueryUtility.cs:86-145 | written entries split at '&' into one segment per name/value pair |
| UriQueryUtility.SplitSerializedLast | MvcApi/Query/UriQueryUtility.cs:86-145 | the last entry's text splits into its pairs' segments after those before it |
| UriQueryUtility.SerializedLast | MvcApi/Query/UriQueryUtility.cs:94-143 | the entries before the last, then '&' if they wrote anything, then the last entry |
| UriQueryUtility.SplitEntryText | MvcApi/Query/UriQueryUtility.cs:104-141 | one written entry is non-empty and splits into its pairs' segments |
| UriQueryUtility.KeyValueOfSegment | MvcApi/Query/UriQueryUtility.cs:61-71 | a segment splits back at its '=' into the encoded name and value |
| UriQueryUtility.ParseOfSerialized | MvcApi/Query/UriQueryUtility.cs:33-145 | writing a collection out and parsing it back gives its pairs in order, for distinct non-empty names with values |
| UriQueryUtility.DecodeSegments | MvcApi/Query/UriQueryUtility.cs:61-75 | each segment decodes back into the pair it was written from |
| UriQueryUtility.AddValuesOfNewKey | MvcApi/Query/UriQueryUtility.cs:74 | adding a new key's values gives one new entry holding them all, at the end |
| UriQueryUtility.AddAllFlatPairs | MvcApi/Query/UriQueryUtility.cs:74 | adding the flattened pairs of distinct-keyed entries to an empty collection rebuilds it |
| UriQueryUtility.LastKeyIsNew | MvcApi/Query/UriQueryUtility.cs:74 | in a collection without duplicate keys the last key matches none before it |
| UriQueryUtility.ParseOfToString | MvcApi/Query/UriQueryUtility.cs:18-145 | parsing what ToString writes rebuilds the collection |
| UriQueryUtility.ParseQueryString | MvcApi/Query/UriQueryUtility.cs:207-218 | null is rejected, one leading '?' dropped, and the rest parsed and decoded |
| HandleNullPropagationOptionHelper.IsDefined | MvcApi.OData/Query/HandleNullPropagationOptionHelper.cs:8-15 | exactly Default, True and False, the values 0 to 2, are defined |
| HandleNullPropagationOptionHelper.Validate | MvcApi.OData/Query/HandleNullPropagationOptionHelper.cs:17-23 | an invalid-enum-argument error naming the parameter and value exactly when the value is not defined |
| StringComparisonHelper.IsDefined | MvcApi/Formatting/StringComparisonHelper.cs:15-22 | exactly the six named members, the values 0 to 5, are defined |
| StringComparisonHelper.Validate | MvcApi/Formatting/StringComparisonHelper.cs:24-30 | an invalid-enum-argument error naming the parameter and value exactly when the value is not defined |
| HttpHelper.ParseDecimal | MvcApi/HttpHelper.cs:186 | a value exactly for decimal text, and never negative |
| HttpHelper.QualityFactor | MvcApi/HttpHelper.cs:179-195 | between 0 and 1: the first q parameter that parses and is at most 1, else 1 |
| HttpHelper.NonQCountPositive | MvcApi/HttpHelper.cs:197-209 | the count of non-q parameters is positive exactly when there is one |
| HttpHelper.HasParameters | MvcApi/HttpHelper.cs:197-209 | true exactly when some parameter other than q is present |
| HttpHelper.Compare | MvcApi/HttpHelper.cs:125-177 | parameters break ties only within the same type and subtype; a wildcard sorts after a concrete type; otherwise higher quality first; the result is -1, 0 or 1 |
| HttpHelper.CompareAntisymmetric | MvcApi/HttpHelper.cs:125-177 | an element ties with itself, and swapping the arguments negates the result |
| HttpHelper.TenthsParse | MvcApi/HttpHelper.cs:186 | 0.d parses to d tenths |
| HttpHelper.CompareIsNotTransitive | MvcApi/HttpHelper.cs:125-177 | three Accept elements compare in a cycle, so the comparer is no total order |
| HttpHelper.Insert | MvcApi/HttpHelper.cs:81 | inserting adds exactly the element |
| HttpHelper.SortAccept | MvcApi/HttpHelper.cs:81 | the sort is a permutation of its input |
| HttpHelper.InsertKeepsLocallySorted | MvcApi/HttpHelper.cs:81 | inserting into a locally sorted list keeps it locally sorted |
| HttpHelper.SortAcceptIsLocallySorted | MvcApi/HttpHelper.cs:81 | the sorted list is a permutation in which no element compares greater than the next |
| HttpHelper.ParsedElements | MvcApi/HttpHelper.cs:68-80 | exactly the elements that parse, in header order; the others are dropped |
| HttpHelper.GetAcceptHeaderElements | MvcApi/HttpHelper.cs:66-83 | the parsed elements, sorted by the comparer |
| HttpHelper.GetRequestFormat | MvcApi/HttpHelper.cs:24-39 | the parsed Content-Type; 415 exactly when a present one does not parse; application/octet-stream when it is absent or empty |
| HttpHelper.TryGetFromUri | MvcApi/HttpHelper.cs:86-121 | a value exactly for a browser request whose non-empty format value parses; a failing browser test counts as not one |
| HttpHelper.GetResponseFormats | MvcApi/HttpHelper.cs:50-64 | the browser override alone; else the parsed Accept elements sorted; else the request's content type, whose failure is the only error |
| HttpHelper.AcceptFormatsAreLocallySorted | MvcApi/HttpHelper.cs:57-61 | Accept elements come out locally sorted |
| HttpHelper.UnparseableAcceptGivesNoFormats | MvcApi/HttpHelper.cs:57-61 | a present Accept header none of whose elements parse gives no formats and no fallback |
| HttpHelper.NothingParses | MvcApi/HttpHelper.cs:68-80 | no element parses, so nothing is kept |
| HttpResponseMessage.ContainsNewLineCharacter | MvcApi/Http/HttpResponseMessage.cs:107-119 | true exactly when the text holds a CR or LF |
| HttpResponseMessage.Response.constructor | MvcApi/Http/HttpResponseMessage.cs:21-23 | status code 0 and no description |
| HttpResponseMessage.Response.SetStatusCode | MvcApi/Http/HttpResponseMessage.cs:51-58 | values outside 0 to 999 are rejected, the old code kept; others are stored |
| HttpResponseMessage.Response.StatusDescription | MvcApi/Http/HttpResponseMessage.cs:63-70 | the explicit phrase, else the standard phrase of the code |
| HttpResponseMessage.Response.SetStatusDescription | MvcApi/Http/HttpResponseMessage.cs:71-78 | a phrase with CR or LF is a format error, the old one kept; others, null included, are stored |
| HttpResponseMessage.ClearingDescriptionRestoresFallback | MvcApi/Http/HttpResponseMessage.cs:61-79 | clearing the phrase makes the getter report the standard phrase again |
| HttpRuleParser.CreateTokenChars | MvcApi/Http/HttpRuleParser.cs:20-43 | entry i of the table is whether character i is a token character |
| HttpRuleParser.GetTokenLength | MvcApi/Http/HttpRuleParser.cs:230-244 | the longest run of token characters at the start index, 0 past the end |
| HttpRuleParser.GetWhitespaceLength | MvcApi/Http/HttpRuleParser.cs:246-278 | the longest run of spaces, tabs and folds at the start index |
| HttpRuleParser.GetNumberLength | MvcApi/Http/HttpRuleParser.cs:181-207 | digits with at most one '.', allowed only when asked; 0 when the input starts with '.' |
| HttpRuleParser.GetQuotedPairLength | MvcApi/Http/HttpRuleParser.cs:209-222 | a backslash followed by an ASCII character is a 2-character quoted pair; a backslash otherwise is invalid; anything else is not one |
| HttpRuleParser.ExpressionLengthAsWritten | MvcApi/Http/HttpRuleParser.cs:86-142 | the scanner as written: a parsed expression is at least 2 long and within the input |
| HttpRuleParser.SecondNestedCommentMisread | MvcApi/Http/HttpRuleParser.cs:112-138 | as written, ((a)(b)) is read as 7 characters, not 8 |
| HttpRuleParser.UnterminatedNestedCommentOverruns | MvcApi/Http/HttpRuleParser.cs:116-134 | as written, ((a) indexes past the end instead of being invalid |
| HttpRuleParser.ExpressionLength | MvcApi/Http/HttpRuleParser.cs:86-142 | corrected: a parsed expression runs from the open to the close character; not parsed exactly when it does not start with the open character |
| HttpRuleParser.ExpressionLoop | MvcApi/Http/HttpRuleParser.cs:94-141 | corrected loop: it ends at a close character or is invalid |
| HttpRuleParser.SecondNestedCommentRead | MvcApi/Http/HttpRuleParser.cs:86-142 | corrected, ((a)(b)) is one comment of 8 characters |
| HttpRuleParser.UnterminatedNestedCommentRejected | MvcApi/Http/HttpRuleParser.cs:86-142 | corrected, ((a) is invalid |
| HttpRuleParser.GetExpressionLength | MvcApi/Http/HttpRuleParser.cs:86-142 | the loop with recursive nesting computes the corrected scan, the nesting count restored on exit |
| HttpRuleParser.GetCommentLength | MvcApi/Http/HttpRuleParser.cs:80-84 | a comment is the corrected scan between ( and ) with nesting |
| HttpRuleParser.GetQuotedStringLength | MvcApi/Http/HttpRuleParser.cs:224-228 | a quoted string is the corrected scan between quotes without nesting |
| HttpRuleParser.QuotedStringEndsAtFirstUnescapedQuote | MvcApi/Http/HttpRuleParser.cs:94-141 | a quoted string ends at the first quote that is not part of a quoted pair |
| HttpRuleParser.ContainsInvalidNewLine | MvcApi/Http/HttpRuleParser.cs:50-73 | true exactly when some CR LF from the start index ends the value or is followed by neither space nor tab |
| HttpRuleParser.GetHostLength | MvcApi/Http/HttpRuleParser.cs:144-179 | the run up to space, tab, CR or ','; a '/', an empty run, or a run that is neither an allowed token nor a valid host gives 0 and no host |
| HttpStatusDescription.Get | MvcApi/Http/HttpStatusDescription.cs:59-71 | no phrase outside 100 to 599, and a phrase only within the row's length |
| HttpStatusDescription.GetAgreesWithPhrases | MvcApi/Http/HttpStatusDescription.cs:10-71 | the table lookup agrees with the list of standard phrases for every code |
| ReaderWriterCache.Fetched | MvcApi/Infrastructure/ReaderWriterCache.cs:31-67 | the existing entry for a present key, else the created one |
| ReaderWriterCache.AfterFetch | MvcApi/Infrastructure/ReaderWriterCache.cs:31-67 | the key maps to the fetched entry; other entries are unchanged and no other key is added |
| ReaderWriterCache.FetchIsIdempotent | MvcApi/Infrastructure/ReaderWriterCache.cs:31-67 | a second fetch of a key returns the first entry and changes nothing |
| ReaderWriterCache.ReaderWriterCache.constructor | MvcApi/Infrastructure/ReaderWriterCache.cs:15-18 | the cache starts empty |
| ReaderWriterCache.ReaderWriterCache.FetchOrCreateItem | MvcApi/Infrastructure/ReaderWriterCache.cs:31-67 | the entry for the key; an absent key runs the creator once and stores its value; nothing else changes |
| TypeHelper.SimpleTypesAreBuiltInScalars | MvcApi/TypeHelper.cs:25-34 | simple types are value types or string; enumerations, object, arrays, sequences, delegates, user types and Nullable are not |
| TypeHelper.TypeCodeCharacterisation | MvcApi/TypeHelper.cs:25-34 | every non-enumeration type with a specific type code is simple; only IntPtr, UIntPtr, Guid, DateTimeOffset and TimeSpan are simple without one |
| TypeHelper.NullableSimpleUnwrapsOnce | MvcApi/TypeHelper.cs:15-39 | nullable-simple is simple after unwrapping one Nullable, and extends simple |
| TypeHelper.InstancesOf | MvcApi/TypeHelper.cs:46-54 | exactly the elements that are instances of the type |
| TypeHelper.InstancesOfAppend | MvcApi/TypeHelper.cs:46-54 | the instances of a concatenation are the concatenation of the instances |
| TypeHelper.InstancesOfIsOrderedSubsequence | MvcApi/TypeHelper.cs:46-54 | the instances keep their relative order |
| TypeHelper.OfType | MvcApi/TypeHelper.cs:41-57 | the loop collects exactly the instances of the reference type, in order |
| NameValues.IndexOfKey | MvcApi/HttpHelper.cs:100 | the first entry whose key matches ignoring case, or -1 when none does |
| NameValues.Add | MvcApi/Query/UriQueryUtility.cs:74 | a new key adds one entry at the end; an existing key adds no entry; distinct keys stay distinct |
| NameValues.AllKeys | MvcApi/Query/ODataQueryDeserializer.cs:99 | the keys in insertion order |
| NameValues.Join | MvcApi/HttpHelper.cs:100 | a single value is itself |
| NameValues.Get | MvcApi/HttpHelper.cs:100 | a missing key gives null |
| NameValues.GetValues | MvcApi/Query/ODataQueryDeserializer.cs:106 | a key's values, never an empty list |
| NameValues.AddThenGetValues | MvcApi/Query/UriQueryUtility.cs:74 | a value added under a key is the last value read back under any spelling of it |
| NameValues.FirstMatchAt | MvcApi/Query/ODataQueryDeserializer.cs:106 | the first entry whose key matches is the one found |
| MediaRangeMapping.New | MvcApi/Formatting/MediaRangeMapping.cs:14-45 | a null media type is rejected first, then a null range; otherwise the mapping holds both as given |
| MediaRangeMapping.NewFromString | MvcApi/Formatting/MediaRangeMapping.cs:23-31 | a blank media type is rejected by the base, then a blank range; a successful mapping holds the parsed range |
| MediaRangeMapping.OnTryMatchRequest | MvcApi/Formatting/MediaRangeMapping.cs:47-50 | a request alone never matches a range: quality 0.0 |
| MediaRangeMapping.FirstEqual | MvcApi/Formatting/MediaRangeMapping.cs:57-63 | the index found is the first Accept value the media type comparer equates with the range; none means no value is equal |
| MediaRangeMapping.OnTryMatchResponse | MvcApi/Formatting/MediaRangeMapping.cs:52-66 | the quality of the first Accept value equal to the range, 1.0 when it carries none, and 0.0 when no value is equal |
| MediaRangeMapping.RangeListedFirstDecides | MvcApi/Formatting/MediaRangeMapping.cs:57-61 | an Accept list that starts with the range itself is decided by that entry's quality |
| MediaTypeFormatter.New | MvcApi/Formatting/MediaTypeFormatter.cs:32-37 | a new formatter has no supported media types, encodings or mappings |
| MediaTypeFormatter.GetPerRequestFormatterInstance | MvcApi/Formatting/MediaTypeFormatter.cs:73-85 | a null type, then a null request, is an argument-null error; otherwise the formatter itself is returned |
| MediaTypeFormatter.FirstEncodingNamed | MvcApi/Formatting/MediaTypeFormatter.cs:102-104 | the result is the first supported encoding whose name equals the charset ignoring case; none exactly when no encoding is so named |
| MediaTypeFormatter.RequestedCharSet | MvcApi/Formatting/MediaTypeFormatter.cs:96-101 | a charset is read only from a request with a content type, and only a non-blank one counts |
| MediaTypeFormatter.SelectCharacterEncoding | MvcApi/Formatting/MediaTypeFormatter.cs:93-122 | the encoding named by the request's charset when supported, else the first supported one; an invalid-operation error exactly when no encoding is supported |
| MediaTypeFormatter.FirstMappingMatch | MvcApi/Formatting/MediaTypeFormatter.cs:172-182 | the match found is the first non-null mapping with a quality above 0.0, every earlier one scoring no more; none exactly when no mapping scores above 0.0; an error is the one the first failing test raised |
| MediaTypeFormatter.ShiftFirstMappingMatch | MvcApi/Formatting/MediaTypeFormatter.cs:172-182 | a first match in the tail is the first match of the whole list when the head does not match |
| MediaTypeFormatter.TryMatchMediaTypeMappingRequest | MvcApi/Formatting/MediaTypeFormatter.cs:170-183 | a found mapping yields a match of its media type with its quality; no match, or the mapping's error, otherwise |
| MediaTypeFormatter.TryMatchMediaTypeMappingResponse | MvcApi/Formatting/MediaTypeFormatter.cs:185-198 | the same for a response |
| MediaTypeFormatter.NullMappingsNeverMatch | MvcApi/Formatting/MediaTypeFormatter.cs:172-182 | a formatter whose mappings are all null matches no request |
| MediaTypeFormatter.NullRequestRejected | MvcApi/Formatting/MediaTypeMapping.cs:32-39 | a null request is rejected with an argument-null error by the first non-null mapping |
| MediaTypeFormatterCollection.CreateDefaultFormatters | MvcApi/Formatting/MediaTypeFormatterCollection.cs:30-38 | three formatters: view, JSON, XML, in that order |
| MediaTypeFormatterCollection.FirstNull | MvcApi/Formatting/MediaTypeFormatterCollection.cs:46-51 | the position of the first null formatter, every earlier one being non-null, or the length when there is none |
| MediaTypeFormatterCollection.Values | MvcApi/Formatting/MediaTypeFormatterCollection.cs:46-53 | the formatters of a null-free prefix, unchanged and in order |
| MediaTypeFormatterCollection.FirstOfKind | MvcApi/Formatting/MediaTypeFormatterCollection.cs:57-72 | the first item of the kind, every earlier item being of another kind; none exactly when no item is of that kind |
| MediaTypeFormatterCollection.MediaTypeFormatterCollection.constructor | MvcApi/Formatting/MediaTypeFormatterCollection.cs:18-28 | the parameterless collection holds the default formatters; the sequence constructor starts empty |
| MediaTypeFormatterCollection.MediaTypeFormatterCollection.VerifyAndSetFormatters | MvcApi/Formatting/MediaTypeFormatterCollection.cs:40-54 | a null sequence is rejected with nothing added; otherwise the formatters before the first null are appended in order and a null one is an argument error |
| MediaTypeFormatterCollection.MediaTypeFormatterCollection.ViewFormatter | MvcApi/Formatting/MediaTypeFormatterCollection.cs:57-60 | the first view formatter in the collection |
| MediaTypeFormatterCollection.MediaTypeFormatterCollection.JsonFormatter | MvcApi/Formatting/MediaTypeFormatterCollection.cs:63-66 | the first JSON formatter in the collection |
| MediaTypeFormatterCollection.MediaTypeFormatterCollection.XmlFormatter | MvcApi/Formatting/MediaTypeFormatterCollection.cs:69-72 | the first XML formatter in the collection |
| MediaTypeFormatterCollection.NoNullsMeansFullLength | MvcApi/Formatting/MediaTypeFormatterCollection.cs:46-53 | a sequence without nulls is appended in full |
| MediaTypeFormatterCollection.FromSequenceKeepsOrder | MvcApi/Formatting/MediaTypeFormatterCollection.cs:25-28 | a collection built from a null-free sequence holds exactly that sequence, in order |
| MediaTypeFormatterCollection.DefaultAccessors | MvcApi/Formatting/MediaTypeFormatterCollection.cs:18-72 | the default collection's accessors return the built-in view, JSON and XML formatters, and no formatter of another kind is found |
| MediaTypeFormatterMatch.WithQuality | MvcApi/Formatting/MediaTypeFormatterMatch.cs:17-21 | no formatter and no ranking; the media type (null included) and the quality as given |
| MediaTypeFormatterMatch.Full | MvcApi/Formatting/MediaTypeFormatterMatch.cs:12-15 | a match with the full quality 1.0 |
| MediaTypeFormatterMatch.WithFormatter | MvcApi/Formatting/MediaTypeFormatterMatch.cs:30-41 | an argument-null error exactly when the formatter is null; otherwise a missing media type becomes application/octet-stream and a missing quality 1.0 |
| MediaTypeHeaderValueCollection.ValidateMediaType | MvcApi/Http/MediaTypeHeaderValueCollection.cs:31-42 | null is an argument-null error, a media range an argument error; only a literal media type passes |
| MediaTypeHeaderValueCollection.MediaTypeHeaderValueCollection.constructor | MvcApi/Http/MediaTypeHeaderValueCollection.cs:13-15 | an empty collection, which holds no media range |
| MediaTypeHeaderValueCollection.MediaTypeHeaderValueCollection.InsertItem | MvcApi/Http/MediaTypeHeaderValueCollection.cs:17-21 | a valid item is inserted at the index with the rest shifted; an invalid one leaves the collection unchanged; no media range ever enters |
| MediaTypeHeaderValueCollection.MediaTypeHeaderValueCollection.SetItem | MvcApi/Http/MediaTypeHeaderValueCollection.cs:23-27 | a valid item replaces the one at the index; an invalid one changes nothing; no media range ever enters |
| MediaTypeHeaderValueEqualityComparer.FirstEqualParameter | MvcApi/Http/MediaTypeHeaderValueEqualityComparer.cs:28 | the parameter found has the same name and value ignoring case; none exactly when no parameter does |
| MediaTypeHeaderValueEqualityComparer.AllParametersFound | MvcApi/Http/MediaTypeHeaderValueEqualityComparer.cs:26-33 | true exactly when every parameter of the first value has an equal parameter in the second |
| MediaTypeHeaderValueEqualityComparer.Equals | MvcApi/Http/MediaTypeHeaderValueEqualityComparer.cs:20-34 | equal exactly when the media types are equal ignoring case and every parameter of the first is found in the second |
| MediaTypeHeaderValueEqualityComparer.EqualsIsReflexive | MvcApi/Http/MediaTypeHeaderValueEqualityComparer.cs:20-34 | every value equals itself |
| MediaTypeHeaderValueEqualityComparer.EqualValuesHashEqually | MvcApi/Http/MediaTypeHeaderValueEqualityComparer.cs:36-39 | values the comparer equates get the same hash code, whatever the string hash |
| MediaTypeHeaderValueEqualityComparer.EqualsIsNotSymmetric | MvcApi/Http/MediaTypeHeaderValueEqualityComparer.cs:26-33 | a plain media type equals the same type with a parameter, but not the other way round |
| MediaTypeMapping.MediaTypeArgument | MvcApi/Formatting/MediaTypeMapping.cs:11-18 | an argument-null error exactly for a null media type; otherwise the value given |
| MediaTypeMapping.MediaTypeStringArgument | MvcApi/Formatting/MediaTypeMapping.cs:20-27 | null or blank is an argument-null error; anything else goes to the string constructor, which accepts exactly a bare token/token media type and keeps the string as its media type |
| MediaTypeMappings.OnTryMatchRequest | MvcApi/Formatting/MediaTypeMapping.cs:54-56 | a range mapping never matches a request; only a URI-extension mapping can fail, with an invalid-operation error |
| MediaTypeMappings.OnTryMatchResponse | MvcApi/Formatting/MediaTypeMapping.cs:54-56 | every mapping other than a range tests the request the response answers; only a URI-extension mapping can fail |
| MediaTypeMappings.TryMatchMediaTypeRequest | MvcApi/Formatting/MediaTypeMapping.cs:32-39 | an argument-null error exactly for a null request; otherwise the mapping's own test |
| MediaTypeMappings.TryMatchMediaTypeResponse | MvcApi/Formatting/MediaTypeMapping.cs:41-52 | an argument-null error exactly for a null response, an invalid-operation error for a response without its request; otherwise the mapping's own test |
| MediaTypeQualityOrder.Compare | MvcApi/Formatting/DefaultContentNegotiator.cs:492 | the comparer gives -1, 0 or 1 |
| MediaTypeQualityOrder.Specificity | MvcApi/Formatting/DefaultContentNegotiator.cs:492 | the specificity is 0, 1 or 2 |
| MediaTypeQualityOrder.StarIgnoringCase | MvcApi/Formatting/DefaultContentNegotiator.cs:492 | only "*" equals "*" ignoring case |
| MediaTypeQualityOrder.CompareIsKeyOrder | MvcApi/Formatting/DefaultContentNegotiator.cs:492 | the comparer orders by quality, then by specificity |
| MediaTypeQualityOrder.CompareIsTotalPreorder | MvcApi/Formatting/DefaultContentNegotiator.cs:492 | the comparer is antisymmetric and transitive |
| MediaTypeQualityOrder.Insert | MvcApi/Formatting/DefaultContentNegotiator.cs:492 | insertion adds exactly the one value |
| MediaTypeQualityOrder.InsertKeepsOrder | MvcApi/Formatting/DefaultContentNegotiator.cs:492 | inserting into a descending list keeps it descending, and holds only the value and the old ones |
| MediaTypeQualityOrder.PrependKeepsOrder | MvcApi/Formatting/DefaultContentNegotiator.cs:492 | a value ranking above the head of a descending list can go first |
| MediaTypeQualityOrder.InsertAfterHeadKeepsOrder | MvcApi/Formatting/DefaultContentNegotiator.cs:492 | a head that ranks with or above the inserted value stays first |
| MediaTypeQualityOrder.InsertAfterHeadMembers | MvcApi/Formatting/DefaultContentNegotiator.cs:492 | the head plus the tail insertion holds only the value and the old ones |
| MediaTypeQualityOrder.HeadRanksAboveRest | MvcApi/Formatting/DefaultContentNegotiator.cs:492 | the head of a descending list ranks with or above every later value |
| MediaTypeQualityOrder.SortDescending | MvcApi/Formatting/DefaultContentNegotiator.cs:492 | the sort is a permutation of its input |
| MediaTypeQualityOrder.SortDescendingIsSorted | MvcApi/Formatting/DefaultContentNegotiator.cs:492 | the sort's result is descending |
| MediaTypeQualityOrder.SortByQFactor | MvcApi/Formatting/DefaultContentNegotiator.cs:481-498 | an argument-null error exactly for a null list; otherwise a descending permutation of the Accept values in which equally ranked values keep their header order |
| MediaTypeQualityOrder.InsertIsStable | MvcApi/Formatting/DefaultContentNegotiator.cs:492 | insertion puts the value after every value already ranking with it and keeps their order |
| MediaTypeQualityOrder.SortDescendingIsStable | MvcApi/Formatting/DefaultContentNegotiator.cs:492 | the sort is stable, as OrderByDescending is: for every value, the values ranking with it come out in input order |
| MediaTypeQualityOrder.NothingRanksWith | MvcApi/Formatting/DefaultContentNegotiator.cs:492 | a descending list whose head ranks below a value holds nothing ranking with it |
| MediaTypeQualityOrder.SortedMeansQualityDescending | MvcApi/Formatting/DefaultContentNegotiator.cs:492 | in a sorted list an earlier value never has a lower quality, and at equal quality never a lower specificity |
| MediaTypes.SplitIsFirstSlash | MvcApi/Formatting/MediaTypeMapping.cs:26 | a split point of a "type/subtype" string is its first '/' |
| MediaTypes.ParseMediaType | MvcApi/Formatting/MediaTypeMapping.cs:26 | succeeds exactly for a token, '/' and a token with nothing around them (no white space, no parameters), giving that media type with no parameters or quality; anything else is a format error |
| MediaTypes.NonTokenCharacterRejected | MvcApi/Formatting/MediaTypeMapping.cs:26 | a character other than a token character or the '/' (such as ';', white space or '@') makes the string constructor fail with a format error |
| MediaTypes.CharSet | MvcApi/Formatting/MediaTypeFormatter.cs:99 | a charset is found only when a parameter is named charset, ignoring case |
| MediaTypes.CharSetIn | MvcApi/Formatting/MediaTypeFormatter.cs:99 | a charset is found only in a list with a parameter named charset |
| MediaTypes.WithCharSet | MvcApi/Formatting/DefaultContentNegotiator.cs:90 | setting the charset keeps the media type and quality, and the charset then read back is the one set |
| MediaTypes.CharSetAfterOthers | MvcApi/Formatting/DefaultContentNegotiator.cs:90 | a charset parameter placed after parameters with other names is the one read back |
| MediaTypes.FilterNotCharSet | MvcApi/Formatting/DefaultContentNegotiator.cs:90 | the charset parameters are dropped, so none is left to read back |
| ObjectContent.HeaderText | MvcApi/ObjectContent.cs:93 | the string form of a media type header value begins with its media type |
| ObjectContent.BuildHeaderValue | MvcApi/ObjectContent.cs:106-109 | null gives no header value, the empty name an argument error, and a built value carries the name |
| ObjectContent.BuiltHeaderTextIsNonEmpty | MvcApi/ObjectContent.cs:93-109 | a header value built from a name has a non-empty string form |
| ObjectContent.ResponseContentType | MvcApi/ObjectContent.cs:93 | the media type's non-empty string form; otherwise the formatter's content type, or a null-reference error without a formatter |
| ObjectContent.ObjectContent.constructor | MvcApi/ObjectContent.cs:31-40 | value, formatter and media type as given; no formatter collection and nothing set explicitly |
| ObjectContent.ObjectContent.ObjectType | MvcApi/ObjectContent.cs:54 | the value's runtime type; a null-reference error exactly when there is no value |
| ObjectContent.ObjectContent.Formatters | MvcApi/ObjectContent.cs:65-72 | an existing collection is returned unchanged; otherwise a fresh default collection is created and kept |
| ObjectContent.ObjectContent.ResetContentNegotiationResults | MvcApi/ObjectContent.cs:97-104 | the formatter is cleared, and the media type too unless it was set explicitly; nothing else changes |
| ObjectContent.ObjectContent.SetFormatters | MvcApi/ObjectContent.cs:73-78 | the collection is installed and marked explicit, and the negotiation results are reset |
| ObjectContent.ObjectContent.ExecuteResultContentType | MvcApi/ObjectContent.cs:88-95 | the content type set on the response: the media type's string form when non-empty, else the formatter's content type, and an error with neither |
| ObjectContent.New | MvcApi/ObjectContent.cs:26-40 | a media-type error comes first, then a null value is rejected; otherwise the content holds the built header value |
| ObjectContent.NewWithHeaderValue | MvcApi/ObjectContent.cs:31-40 | an argument-null error exactly for a null value; otherwise fresh content |
| ObjectContent.SetFormattersClearsNegotiation | MvcApi/ObjectContent.cs:73-104 | after the formatters of fresh content are replaced, no response content type can be chosen until negotiation runs again |
| QueryStringMapping.Initialize | MvcApi/Formatting/QueryStringMapping.cs:52-64 | a null or blank name, then value, is an argument-null error; both are stored trimmed |
| QueryStringMapping.New | MvcApi/Formatting/QueryStringMapping.cs:17-21 | the base's null check comes first, then Initialize |
| QueryStringMapping.NewFromString | MvcApi/Formatting/QueryStringMapping.cs:27-31 | the base's string check comes first; a mapping built holds what Initialize stores |
| QueryStringMapping.AnyKeyMatches | MvcApi/Formatting/QueryStringMapping.cs:37-47 | true exactly when some key equals the name ignoring case and its value equals the value ignoring case |
| QueryStringMapping.DoesQueryStringMatch | MvcApi/Formatting/QueryStringMapping.cs:33-50 | false for a null query string; otherwise whether some key matches |
| QueryStringMapping.OnTryMatchRequest | MvcApi/Formatting/QueryStringMapping.cs:66-74 | 1.0 exactly when the request's query string matches, else 0.0 |
| QueryStringMapping.OnTryMatchResponse | MvcApi/Formatting/QueryStringMapping.cs:76-84 | the response is judged by the query string of its request |
| QueryStringMapping.AddedParameterMatches | MvcApi/Formatting/QueryStringMapping.cs:37-45 | adding the parameter with the value, in any case, makes the mapping match |
| RequestHeaderMapping.Initialize | MvcApi/Formatting/RequestHeaderMapping.cs:54-69 | a blank name, then value, is an argument-null error, then an undefined comparison is rejected; it succeeds exactly when all three are valid |
| RequestHeaderMapping.New | MvcApi/Formatting/RequestHeaderMapping.cs:12-16 | the base's null check comes first, then Initialize |
| RequestHeaderMapping.NewFromString | MvcApi/Formatting/RequestHeaderMapping.cs:18-22 | a blank media type is rejected first; a mapping built is valid and carries the parsed media type |
| RequestHeaderMapping.MatchValues | MvcApi/Formatting/RequestHeaderMapping.cs:76-91 | 1.0 exactly when some value contains, or equals, the header value under the comparison; else 0.0 |
| RequestHeaderMapping.MatchHeaderValueAsWritten | MvcApi/Formatting/RequestHeaderMapping.cs:71-92 | a key-not-found error exactly when the request lacks the header; otherwise the intended result |
| RequestHeaderMapping.MatchHeaderValue | MvcApi/Formatting/RequestHeaderMapping.cs:71-92 | 1.0 exactly when the request has the header with a non-null value list holding a matching value; else 0.0 |
| RequestHeaderMapping.MissingHeaderThrows | MvcApi/Formatting/RequestHeaderMapping.cs:73-74 | for a request without the header, the code as written throws and the intended reading gives 0.0 |
| RequestHeaderMapping.AddedHeaderMatches | MvcApi/Formatting/RequestHeaderMapping.cs:71-92 | a request given the header with a matching value matches with 1.0 |
| RequestHeaderMapping.OnTryMatchRequest | MvcApi/Formatting/RequestHeaderMapping.cs:32-39 | corrected: 1.0 exactly when the corrected header test (Findings row 3) matches, else 0.0, so a missing header scores 0.0 instead of throwing |
| RequestHeaderMapping.OnTryMatchResponse | MvcApi/Formatting/RequestHeaderMapping.cs:41-52 | corrected: 0.0 for a response without its request; otherwise the request's corrected header test |
| UriPathExtensionMapping.GetUriPathExtensionOrNull | MvcApi/Formatting/UriPathExtensionMapping.cs:37-55 | an invalid-operation error exactly for a null URI; otherwise the text after the first '.' of the last segment, or null when there is no segment, no '.', or the '.' ends it |
| UriPathExtensionMapping.FirstDotIsUsed | MvcApi/Formatting/UriPathExtensionMapping.cs:48-51 | "a.tar.gz" has the extension "tar.gz" |
| UriPathExtensionMapping.Initialize | MvcApi/Formatting/UriPathExtensionMapping.cs:57-64 | an argument-null error exactly for a null or blank extension; the stored one is trimmed, with its leading dots removed |
| UriPathExtensionMapping.New | MvcApi/Formatting/UriPathExtensionMapping.cs:21-25 | the base's null check comes first, then Initialize |
| UriPathExtensionMapping.NewFromString | MvcApi/Formatting/UriPathExtensionMapping.cs:31-35 | the base's string check comes first; a mapping built holds what Initialize stores |
| UriPathExtensionMapping.OnTryMatchRequest | MvcApi/Formatting/UriPathExtensionMapping.cs:66-73 | an error for a null URI; otherwise 1.0 exactly when the URI's extension equals the stored one ordinally, else 0.0 |
| UriPathExtensionMapping.OnTryMatchResponse | MvcApi/Formatting/UriPathExtensionMapping.cs:75-82 | the response is judged by the URI of its request |
| XhrRequestHeaderMapping.MappingIsValid | MvcApi/Formatting/XHRRequestHeaderMapping.cs:10-13 | the fixed header name, value and comparison pass the base constructor's checks |
| XhrRequestHeaderMapping.OnTryMatchRequest | MvcApi/Formatting/XHRRequestHeaderMapping.cs:15-27 | corrected: 1.0 exactly when the one Accept value is "*/*" and the x-requested-with header contains "xmlhttprequest" ignoring case; else 0.0 |
| XhrRequestHeaderMapping.SecondAcceptValueDisablesMatch | MvcApi/Formatting/XHRRequestHeaderMapping.cs:22-25 | a request with more than one Accept value never matches |
| XhrRequestHeaderMapping.OnTryMatchResponse | MvcApi/Formatting/XHRRequestHeaderMapping.cs:29-40 | corrected: 0.0 for a response without its request; otherwise the request's corrected test |
| XhrRequestHeaderMapping.AnyAcceptWithoutHeaderThrows | MvcApi/Formatting/XHRRequestHeaderMapping.cs:15-27 | a request whose sole Accept value is */* and that lacks the x-requested-with header throws as written, and scores 0.0 under the corrected test |

## Left out

- Concurrency: the reader-writer locks and `Interlocked` operations of `DefaultServices`, `ReaderWriterCache` and `ApiControllerDescriptor` are dropped; only the sequential behaviour is modelled.
- The outer cache of `ApiControllerActionSelector.SelectAction` (one cache item per controller descriptor) is not modelled; its behaviour is that of the cache item.
- Exceptions are modelled as error values carrying their kind and parameter name; their messages, which come from resources, are left out. The empty parameter name `Argument("")` stands for argument errors the source raises without one.
- Floating-point, decimal, date, time and GUID text parsing and formatting are parameters of the model; so are the culture and the UTF-8 encoder and decoder of `UriQueryUtility`.
- Reflection and the host framework are parameters: schema lookups, attribute tests, runtime types, the IQueryable tests, the ASP.NET request, response and configuration objects. The model's `Environment` records collect them.
- `ObjectContent.ExecuteResult` writes the value through the formatter; only the content type it sets is modelled, by `ObjectContent.ObjectContent.ExecuteResultContentType`. The formatter's own content type is a parameter.
- `DefaultContentNegotiator.SelectResponseCharacterEncoding` is unused by the negotiator (it calls `MediaTypeFormatter.SelectCharacterEncoding`) and is not modelled; neither are the stream, JSON, XML and view formatters.
- The `ContentType` and `ContentHeaders` properties and the `AppendContentHeader` method of `HttpResponseMessage` are lazy wrappers over the host's response object; they are not modelled.
- HttpRuleParser.DateToString and TryStringToDate: date formatting and parsing in RFC 1123 form, left out with the other date handling. Host-name validation inside GetHostLength is a parameter.
- ODataQueryDeserializer.Deserialize<T>: the generic overload is DeserializeOfType followed by a cast, so only the typed overload is modelled.
- Case-insensitive comparison (`StringComparison.OrdinalIgnoreCase`) is modelled as ASCII upper-case folding; non-ASCII case pairs are not folded.
- Strings are sequences of Dafny characters; UTF-16 surrogate code units are not represented, and characters the decoder cannot form become U+FFFD.
- Integers are unbounded. The overflow the source checks or relies on is written out: the 32-bit range of `Convert.ToInt32` (skip and top counts), the range typing of integer literals, the unchecked cast to `long`, and the range checks of enumeration and `char` conversions. Arithmetic inside the expressions the query compiler builds is never evaluated, so its overflow is not modelled.
- The lexer is the class `ExpressionScanner.ExpressionParser`, whose methods update its position, current character and token in place. The recursive-descent grammar above it (`ExpressionGrammar`) is modelled on values instead: each parse function takes the parser state (position and token) and returns the new one, so updates in place and the reference identity of expression nodes are not modelled there. The dead ambiguity errors of overload resolution (`AmbiguousMethodInvocation`, `AmbiguousIndexerInvocation`) are not modelled: at most one candidate can be better than all others, so a group with no best member always moves the search to the next group.
- ExpressionGrammar.ParseExpression: the function's contract states only that it consumes input and keeps the parser valid; the tree it builds is stated by the step functions (for example `ComparisonNode`, `AdditiveNode`) and the lemmas about them.
- ExpressionGrammar.ParseLogicalOr: states only progress and validity, as above.
- ExpressionGrammar.ParseLogicalAnd: states only progress and validity, as above.
- ExpressionGrammar.ParseComparison: states only progress and validity, as above.
- ExpressionGrammar.ParseAdditive: states only progress and validity, as above.
- ExpressionGrammar.ParseMultiplicative: states only progress and validity, as above.
- ExpressionGrammar.ParseUnary: states only progress and validity, as above.
- ExpressionGrammar.ParsePrimary: states only progress and validity, as above.
- ExpressionGrammar.ParseElementAccess: states only progress and validity, as above.
- ExpressionGrammar.ParseParenExpression: states only progress and validity, as above.
- ExpressionGrammar.ParseIdentifier: states only progress and validity, as above.
- ExpressionGrammar.ParseMappedFunction: states only progress and validity, as above.
- ApiControllerActionSelector.ActionSelectorCacheItem.FindActionsForVerb: the source builds its attribute predicate once, for the first descriptor with selector attributes (ApiControllerActionSelector.cs:135-138). Since C# 5 the foreach variable is fresh per iteration, so every later descriptor's attributes are asked about that first descriptor's method. The model asks each descriptor's attributes about its own method.
- `DictionaryAdapterCollection` relies on the list's own index checks; those preconditions are stated as requires rather than modelled as errors.
- `QueryableFilterAttribute.GetDeserializedQuery` tests the query source but then reads the query builder. The model keeps that guard as written; `QueryableFilter.OwnBuilderNeedsOwnSource` states its effect.
- `HttpHelper` sorts Accept values with `List<T>.Sort`, an unstable introspective sort, and a comparer that is not transitive (`HttpHelper.CompareIsNotTransitive`). The model sorts by insertion instead. It proves the result a permutation whose neighbours are in order, not the exact order the framework's sort would give.
- The .NET `NameValueCollection` is modelled only as far as the code uses it: ordered keys, each with a list of values.
- RequestHeaderMapping.OnTryMatchRequest: the mappings and the negotiator use the corrected header test (`RequestHeaderMapping.MatchHeaderValue`), so a request without the header scores 0.0 where the source throws `KeyNotFoundException` (Findings row 3). The same holds for `RequestHeaderMapping.OnTryMatchResponse`, `XhrRequestHeaderMapping.OnTryMatchRequest` and `XhrRequestHeaderMapping.OnTryMatchResponse`, and so `DefaultContentNegotiator.Negotiate` carries on where the source would throw.
- `StringComparisonHelper.StringEquals` and `StringComparisonHelper.StringContains` compare the culture-sensitive modes (`CurrentCulture`, `InvariantCulture` and their ignore-case forms) as ordinal or ASCII case-folded; only `OrdinalIgnoreCase` is used by the code modelled.
- `XhrRequestHeaderMapping`: the request's Accept list is never null in the model, so the source's null dereference on a missing list is not represented.

## Findings

| source | as written | input that shows it | evidently intended | confidence | as-written member | corrected member |
|---|---|---|---|---|---|---|
| MvcApi/Views/DefaultViewSelector.cs:74-78 | the descriptor is cast to `ApiActionDescriptor` and then dereferenced without a null test; the parameter dictionary of the location is enumerated without a null test | a plain action descriptor with any scored location; or a location made by `MapLocation`, which sets no parameters | a plain descriptor scores no parameters, and a location without parameters earns no parameter points | high, not executed | DefaultViewSelector.MappedLocationThrows, DefaultViewSelector.NonApiDescriptorThrows | DefaultViewSelector.ViewMatchesAreScoredLocations |
| MvcApi/Http/HttpRuleParser.cs:112-138 | after a nested comment, the next character is tested only against the closing character and otherwise skipped, so an opening character after a nested comment is not read as a new nested comment, and an unterminated nested comment reads past the end | `((a)(b))` gives length 7 instead of 8; `((a)` indexes past the end of the input | each nested comment is parsed in turn, and an unterminated one is rejected | medium, not executed | HttpRuleParser.SecondNestedCommentMisread, HttpRuleParser.UnterminatedNestedCommentOverruns | HttpRuleParser.SecondNestedCommentRead, HttpRuleParser.UnterminatedNestedCommentRejected |
| MvcApi/Formatting/RequestHeaderMapping.cs:73-74 | the request headers are a dictionary whose indexer throws for a missing key, yet the result is then tested for null | a request without the mapping's header; the request headers are never filled, so any request whose sole Accept value is `*/*` reaches the JSON formatter's XHR mapping and throws during content negotiation | a missing header matches nothing (quality 0.0) | high, not executed | RequestHeaderMapping.MissingHeaderThrows, XhrRequestHeaderMapping.AnyAcceptWithoutHeaderThrows | RequestHeaderMapping.MatchHeaderValue |
