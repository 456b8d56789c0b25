/** From the hooks that tag routes and clusters to the filters that run: the references of both agree, so
    every inserted filter reaches a cluster, and a route runs the filter of the very pool in its resources. */
module EndToEnd {
  import opened Text
  import opened InferencePools
  import opened FilterChains
  import opened Rewrite
  import opened Translate
  import opened RewriteTheorems
  import opened PostTranslate
  import opened Hooks

  /** What the hooks made of the route and the cluster of one backend: the metadata the translation then
      carries. */
  datatype Backend = Backend(pool: InferencePool, route: Option<FilterMetadata>, cluster: Option<FilterMetadata>)

  predicate SamePoolOnBoth(b: Backend) {
    Carries(b.route, b.pool) && Carries(b.cluster, b.pool)
  }

  /** Both hooks of one backend.  When its resources hold one pool and both objects have metadata, both end up
      with the reference of that pool. */
  method TagBackend(route: XdsRoute, cluster: XdsCluster, resources: seq<Resource>)
    returns (ok: bool, ghost backend: Backend)
    requires route.metadata == null || route.metadata != cluster.metadata
    modifies route, route.metadata, cluster, cluster.metadata
    ensures ok <==> |PoolsIn(resources)| <= 1
    ensures backend.route == Read(route.metadata) && backend.cluster == Read(cluster.metadata)
    ensures |PoolsIn(resources)| == 1 && route.metadata != null && cluster.metadata != null ==>
              backend.pool == PoolsIn(resources)[0] && SamePoolOnBoth(backend)
  {
    var r := PostRouteModify(route, Some(resources));
    var c := PostClusterModify(cluster, Some(resources));
    ok := r.Ok? && c.Ok?;
    ghost var pool := if PoolsIn(resources) == [] then InferencePool("", "", map[], "", None) else PoolsIn(resources)[0];
    backend := Backend(pool, Read(route.metadata), Read(cluster.metadata));
  }

  /** The translated configuration carries the backends: each route with a pool has the metadata of one of
      them, and each backend's cluster is there. */
  ghost predicate CarriesBackends(
    configs: seq<RouteConfiguration>, clusters: seq<Cluster>, backends: seq<Backend>)
  {
    && (forall r :: r in AllRoutes(configs) && r.Pool().Some? ==> exists b :: b in backends && r.metadata == b.route)
    && (forall b :: b in backends ==> exists cl :: cl in clusters && cl.metadata == b.cluster)
  }

  /** So every reference on a route is on a cluster, which is what referential integrity needs. */
  lemma BackendsGiveRefs(configs: seq<RouteConfiguration>, clusters: seq<Cluster>, backends: seq<Backend>)
    requires CarriesBackends(configs, clusters, backends) && forall b :: b in backends ==> SamePoolOnBoth(b)
    ensures RefsOnClusters(configs, clusters)
  {
    forall r | r in AllRoutes(configs) && r.Pool().Some?
      ensures exists cl :: cl in clusters && RefOf(cl.metadata) == RefOf(r.metadata)
    {
      var b :| b in backends && r.metadata == b.route;
      var cl :| cl in clusters && cl.metadata == b.cluster;
    }
  }

  /** The filter of the pool a tagged route is read back with is the filter of the pool it was tagged with. */
  lemma TaggedRouteKeepsFilter(r: Route, pool: InferencePool)
    requires Carries(r.metadata, pool)
    ensures r.Pool().Some? <==> SlashFree(pool)
    ensures OwnFilter(r) == if SlashFree(pool) then {PoolFilter(pool)} else {}
  {
    RefRoundTrip(pool);
  }

  /** End to end: after tagging, translation and rewrite, every route of a backend runs, in every chain that
      leads to it, exactly the filter of the InferencePool in its resources (none if a field holds a slash), and
      every filter that was inserted reaches a cluster. */
  lemma BackendsRunTheirPools(
    listeners: seq<Listener>, configs: seq<RouteConfiguration>, served: map<string, seq<InferencePool>>,
    clusters: seq<Cluster>, backends: seq<Backend>, before: Snapshot, after: Snapshot)
    requires WellFormed(listeners, before.chains) && WellNamed(listeners, configs)
    requires before.routes.Keys == AllRoutes(configs) && Rewritten(listeners, configs, served, before, after)
    requires CleanStart(listeners, configs, before) && ListenersAgree(listeners, configs, before.chains)
    requires CarriesBackends(configs, clusters, backends) && forall b :: b in backends ==> SamePoolOnBoth(b)
    ensures InsertedFiltersDial(clusters + EppClusters(clusters), before.chains, after.chains)
    ensures forall l, c, g, r, b ::
              l in listeners && c in after.chains && g in configs && r in after.routes
              && b in backends && r.metadata == b.route && Reaches(listeners, configs, after.chains, l, c, g, r)
              ==> Running(after, c, r) == if SlashFree(b.pool) then {PoolFilter(b.pool)} else {}
  {
    BackendsGiveRefs(configs, clusters, backends);
    InsertedFiltersReachClusters(listeners, configs, served, before, after, clusters);
    OwnFiltersOnlyAfterRewrite(listeners, configs, served, before, after);
    forall l, c, g, r, b |
      l in listeners && c in after.chains && g in configs && r in after.routes
      && b in backends && r.metadata == b.route && Reaches(listeners, configs, after.chains, l, c, g, r)
      ensures Running(after, c, r) == if SlashFree(b.pool) then {PoolFilter(b.pool)} else {}
    {
      assert SamePoolOnBoth(b);
      TaggedRouteKeepsFilter(r, b.pool);
    }
  }
}
