/**
 * The container of the framework's single-instance services. Each known
 * service type has a default instance; a lookup asks the configuration's
 * dependency resolver first, falls back to the default, and caches the
 * answer until the resolver changes or the type's defaults are edited.
 * Multi-instance services are supported by the code but none is registered.
 */
module DefaultServices {
  import opened Common

  /** A service type, by its full name. */
  type ServiceType = string

  /** A service instance, by identity. */
  datatype Service = Service(id: nat)

  const IContentNegotiator: ServiceType := "MvcApi.Formatting.IContentNegotiator"
  const IActionInvoker: ServiceType := "System.Web.Mvc.IActionInvoker"
  const IActionSelector: ServiceType := "MvcApi.IActionSelector"
  const IStructuredQuerySource: ServiceType := "MvcApi.Query.IStructuredQuerySource"
  const IStructuredQueryBuilder: ServiceType := "MvcApi.Query.IStructuredQueryBuilder"
  const QueryValidator: ServiceType := "MvcApi.Query.QueryValidator"

  /** The default instances registered by the constructor, one per known type. */
  const DefaultContentNegotiator := Service(1)
  const ApiControllerActionInvoker := Service(2)
  const ApiControllerActionSelector := Service(3)
  const DefaultStructuredQuerySource := Service(4)
  const DefaultStructuredQueryBuilder := Service(5)
  const QueryValidatorInstance := Service(6)

  /** The single services the constructor registers. */
  function InitialSingleServices(): (r: map<ServiceType, Option<Service>>)
    ensures |r.Keys| == 6
    ensures forall t :: t in r ==> r[t].Some?
  {
    var m := map[IContentNegotiator := Some(DefaultContentNegotiator),
                 IActionInvoker := Some(ApiControllerActionInvoker),
                 IActionSelector := Some(ApiControllerActionSelector),
                 IStructuredQuerySource := Some(DefaultStructuredQuerySource),
                 IStructuredQueryBuilder := Some(DefaultStructuredQueryBuilder),
                 QueryValidator := Some(QueryValidatorInstance)];
    assert m.Keys == {IContentNegotiator, IActionInvoker, IActionSelector, IStructuredQuerySource, IStructuredQueryBuilder, QueryValidator};
    m
  }

  /** The non-null instances of a resolver's answer, followed by the registered defaults. */
  function MultiResult(dependencyServices: seq<Option<Service>>, defaults: seq<Option<Service>>): (r: seq<Option<Service>>)
    ensures |defaults| <= |r| <= |dependencyServices| + |defaults|
    ensures r[|r| - |defaults|..] == defaults
    ensures forall i :: 0 <= i < |r| - |defaults| ==> r[i].Some? && r[i] in dependencyServices
  {
    Filter(dependencyServices, (s: Option<Service>) => s.Some?) + defaults
  }

  /** A dependency resolver: what it answers for each service type. Identity matters, so it is a class. */
  class DependencyResolver {
    const getService: ServiceType -> Option<Service>
    const getServices: ServiceType -> seq<Option<Service>>

    constructor(getService: ServiceType -> Option<Service>, getServices: ServiceType -> seq<Option<Service>>)
      ensures this.getService == getService && this.getServices == getServices
    {
      this.getService := getService;
      this.getServices := getServices;
    }
  }

  /** The configuration's current dependency resolver, which callers may replace. */
  class Configuration {
    var dependencyResolver: DependencyResolver

    constructor(resolver: DependencyResolver)
      ensures dependencyResolver == resolver
    {
      dependencyResolver := resolver;
    }
  }

  class DefaultServices {
    const configuration: Configuration
    var cacheSingle: map<ServiceType, Option<Service>>
    var cacheMulti: map<ServiceType, seq<Option<Service>>>
    var defaultServicesSingle: map<ServiceType, Option<Service>>
    var defaultServicesMulti: map<ServiceType, seq<Option<Service>>>
    var lastKnownDependencyResolver: DependencyResolver
    const serviceTypesSingle: set<ServiceType>
    const serviceTypesMulti: set<ServiceType>
    /** How many times the dependency resolver has been consulted. */
    ghost var resolverQueries: nat

    /**
     * Every known type has a default registered, and only known types are
     * cached.
     */
    predicate Valid()
      reads this
    {
      && serviceTypesSingle <= defaultServicesSingle.Keys
      && serviceTypesMulti <= defaultServicesMulti.Keys
      && cacheSingle.Keys <= serviceTypesSingle
      && cacheMulti.Keys <= serviceTypesMulti
    }

    /** Registers the six single services, no multi services, and starts with empty caches. */
    constructor(configuration: Configuration)
      ensures this.configuration == configuration
      ensures defaultServicesSingle == InitialSingleServices() && defaultServicesMulti == map[]
      ensures serviceTypesSingle == InitialSingleServices().Keys && serviceTypesMulti == {}
      ensures cacheSingle == map[] && cacheMulti == map[]
      ensures lastKnownDependencyResolver == configuration.dependencyResolver
      ensures resolverQueries == 0
      ensures Valid()
    {
      this.configuration := configuration;
      defaultServicesSingle := InitialSingleServices();
      defaultServicesMulti := map[];
      serviceTypesSingle := InitialSingleServices().Keys;
      serviceTypesMulti := {};
      cacheSingle := map[];
      cacheMulti := map[];
      lastKnownDependencyResolver := configuration.dependencyResolver;
      resolverQueries := 0;
    }

    /** Whether the type is a known single service; a null type is an error. */
    method IsSingleService(serviceType: Option<ServiceType>) returns (r: Result<bool>)
      ensures serviceType.None? ==> r == Err(ArgumentNull("serviceType"))
      ensures serviceType.Some? ==> r == Ok(serviceType.value in serviceTypesSingle)
    {
      if serviceType.None? {
        return Err(ArgumentNull("serviceType"));
      }
      r := Ok(serviceType.value in serviceTypesSingle);
    }

    /** Empties both caches and records the configuration's current resolver. */
    method ResetCache()
      requires Valid()
      modifies this
      ensures Valid()
      ensures cacheSingle == map[] && cacheMulti == map[]
      ensures lastKnownDependencyResolver == configuration.dependencyResolver
      ensures defaultServicesSingle == old(defaultServicesSingle) && defaultServicesMulti == old(defaultServicesMulti)
      ensures resolverQueries == old(resolverQueries)
    {
      cacheSingle := map[];
      cacheMulti := map[];
      lastKnownDependencyResolver := configuration.dependencyResolver;
    }

    /** Removes one type's cached values and no other. */
    method ResetCacheFor(serviceType: ServiceType)
      requires Valid()
      modifies this
      ensures Valid()
      ensures cacheSingle == old(cacheSingle) - {serviceType} && cacheMulti == old(cacheMulti) - {serviceType}
      ensures lastKnownDependencyResolver == old(lastKnownDependencyResolver)
      ensures defaultServicesSingle == old(defaultServicesSingle) && defaultServicesMulti == old(defaultServicesMulti)
      ensures resolverQueries == old(resolverQueries)
    {
      cacheSingle := cacheSingle - {serviceType};
      cacheMulti := cacheMulti - {serviceType};
    }

    /**
     * The single service of a known type: the cached answer when the
     * resolver has not changed, else the resolver's instance or, when it
     * has none, the registered default, which is then cached.
     */
    method GetService(serviceType: Option<ServiceType>) returns (r: Result<Option<Service>>)
      requires Valid()
      modifies this
      ensures Valid()
      ensures serviceType.None? ==> r == Err(ArgumentNull("serviceType")) && unchanged(this)
      ensures serviceType.Some? && serviceType.value !in serviceTypesSingle ==> r == Err(Argument("serviceType")) && unchanged(this)
      ensures serviceType.Some? && serviceType.value in serviceTypesSingle ==>
                var t := serviceType.value;
                var resolver := configuration.dependencyResolver;
                var cache := if old(lastKnownDependencyResolver) == resolver then old(cacheSingle) else map[];
                && lastKnownDependencyResolver == resolver
                && (t in cache ==> r == Ok(cache[t]) && cacheSingle == cache && resolverQueries == old(resolverQueries))
                && (t !in cache ==>
                      var result := if resolver.getService(t).Some? then resolver.getService(t) else defaultServicesSingle[t];
                      && r == Ok(result)
                      && cacheSingle == cache[t := result]
                      && resolverQueries == old(resolverQueries) + 1)
                && (old(lastKnownDependencyResolver) == resolver ==> cacheMulti == old(cacheMulti))
                && (old(lastKnownDependencyResolver) != resolver ==> cacheMulti == map[])
      ensures defaultServicesSingle == old(defaultServicesSingle) && defaultServicesMulti == old(defaultServicesMulti)
    {
      if serviceType.None? {
        return Err(ArgumentNull("serviceType"));
      }
      var t := serviceType.value;
      if t !in serviceTypesSingle {
        return Err(Argument("serviceType"));
      }
      if lastKnownDependencyResolver != configuration.dependencyResolver {
        ResetCache();
      }
      if t in cacheSingle {
        return Ok(cacheSingle[t]);
      }
      var dependencyService := configuration.dependencyResolver.getService(t);
      resolverQueries := resolverQueries + 1;
      var result := if dependencyService.Some? then dependencyService else defaultServicesSingle[t];
      cacheSingle := cacheSingle[t := result];
      r := Ok(result);
    }

    /**
     * The services of a known multi type: the resolver's non-null instances
     * followed by the registered ones, cached like single services.
     */
    method GetServices(serviceType: Option<ServiceType>) returns (r: Result<seq<Option<Service>>>)
      requires Valid()
      modifies this
      ensures Valid()
      ensures serviceType.None? ==> r == Err(ArgumentNull("serviceType")) && unchanged(this)
      ensures serviceType.Some? && serviceType.value !in serviceTypesMulti ==> r == Err(Argument("serviceType")) && unchanged(this)
      ensures serviceType.Some? && serviceType.value in serviceTypesMulti ==>
                var t := serviceType.value;
                var resolver := configuration.dependencyResolver;
                var cache := if old(lastKnownDependencyResolver) == resolver then old(cacheMulti) else map[];
                && lastKnownDependencyResolver == resolver
                && (t in cache ==> r == Ok(cache[t]) && cacheMulti == cache && resolverQueries == old(resolverQueries))
                && (t !in cache ==>
                      var result := MultiResult(resolver.getServices(t), defaultServicesMulti[t]);
                      && r == Ok(result)
                      && cacheMulti == cache[t := result]
                      && resolverQueries == old(resolverQueries) + 1)
      ensures defaultServicesSingle == old(defaultServicesSingle) && defaultServicesMulti == old(defaultServicesMulti)
    {
      if serviceType.None? {
        return Err(ArgumentNull("serviceType"));
      }
      var t := serviceType.value;
      if t !in serviceTypesMulti {
        return Err(Argument("serviceType"));
      }
      if lastKnownDependencyResolver != configuration.dependencyResolver {
        ResetCache();
      }
      if t in cacheMulti {
        return Ok(cacheMulti[t]);
      }
      var dependencyServices := configuration.dependencyResolver.getServices(t);
      resolverQueries := resolverQueries + 1;
      var result := MultiResult(dependencyServices, defaultServicesMulti[t]);
      cacheMulti := cacheMulti[t := result];
      r := Ok(result);
    }

    /** The registered list of a multi type; an unknown type is an error. */
    method GetServiceInstances(serviceType: ServiceType) returns (r: Result<seq<Option<Service>>>)
      ensures serviceType in defaultServicesMulti ==> r == Ok(defaultServicesMulti[serviceType])
      ensures serviceType !in defaultServicesMulti ==> r == Err(Argument("serviceType"))
    {
      if serviceType !in defaultServicesMulti {
        return Err(Argument("serviceType"));
      }
      r := Ok(defaultServicesMulti[serviceType]);
    }

    /** Sets the type's default to null. */
    method ClearSingle(serviceType: ServiceType)
      requires Valid()
      modifies this
      ensures Valid()
      ensures defaultServicesSingle == old(defaultServicesSingle)[serviceType := None]
      ensures cacheSingle == old(cacheSingle) && cacheMulti == old(cacheMulti) && defaultServicesMulti == old(defaultServicesMulti)
      ensures lastKnownDependencyResolver == old(lastKnownDependencyResolver) && resolverQueries == old(resolverQueries)
    {
      defaultServicesSingle := defaultServicesSingle[serviceType := None];
    }

    /** Replaces the type's default; a null type is an error. */
    method ReplaceSingle(serviceType: Option<ServiceType>, service: Option<Service>) returns (r: Result<()>)
      requires Valid()
      modifies this
      ensures Valid()
      ensures serviceType.None? ==> r == Err(ArgumentNull("serviceType")) && unchanged(this)
      ensures serviceType.Some? ==> r == Ok(()) && defaultServicesSingle == old(defaultServicesSingle)[serviceType.value := service]
      ensures cacheSingle == old(cacheSingle) && cacheMulti == old(cacheMulti) && defaultServicesMulti == old(defaultServicesMulti)
      ensures lastKnownDependencyResolver == old(lastKnownDependencyResolver) && resolverQueries == old(resolverQueries)
    {
      if serviceType.None? {
        return Err(ArgumentNull("serviceType"));
      }
      defaultServicesSingle := defaultServicesSingle[serviceType.value := service];
      r := Ok(());
    }
  }

  /** The public constructor's argument check: a null configuration is an error. */
  method Create(configuration: Option<Configuration>) returns (r: Result<DefaultServices>)
    ensures configuration.None? ==> r == Err(ArgumentNull("configuration"))
    ensures configuration.Some? ==> r.Ok? && fresh(r.value) && r.value.Valid() && r.value.configuration == configuration.value
                                    && r.value.serviceTypesMulti == {} && r.value.defaultServicesSingle == InitialSingleServices()
  {
    if configuration.None? {
      return Err(ArgumentNull("configuration"));
    }
    var services := new DefaultServices(configuration.value);
    r := Ok(services);
  }

  /**
   * Two lookups of a known type under the same resolver: both succeed with
   * the same answer, and the resolver is asked at most once between them.
   */
  method GetServiceTwice(services: DefaultServices, t: ServiceType) returns (first: Result<Option<Service>>, second: Result<Option<Service>>)
    requires services.Valid() && t in services.serviceTypesSingle
    modifies services
    ensures first == second && first.Ok?
    ensures services.resolverQueries <= old(services.resolverQueries) + 1
  {
    first := services.GetService(Some(t));
    ghost var queries := services.resolverQueries;
    second := services.GetService(Some(t));
    assert services.resolverQueries == queries;
  }

  /** With no multi service registered, a fresh container rejects every GetServices request. */
  method GetServicesAlwaysThrows(configuration: Configuration, t: Option<ServiceType>) returns (r: Result<seq<Option<Service>>>)
    ensures r.Err?
  {
    var services := new DefaultServices(configuration);
    r := services.GetServices(t);
  }
}
