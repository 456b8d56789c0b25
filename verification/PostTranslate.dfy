/** PostTranslateModify as a whole: endpoint-picker clusters are added, then listeners and routes are
    rewritten; every inserted filter can reach the cluster it names. */
module PostTranslate {
  import opened Text
  import opened InferencePools
  import opened FilterChains
  import opened Rewrite
  import opened Translate
  import opened RewriteTheorems

  datatype Endpoint = Endpoint(address: string, port: nat)

  datatype Cluster = Cluster(name: string, metadata: Option<FilterMetadata>, endpoint: Option<Endpoint>)

  function EppCluster(pool: InferencePool): Cluster {
    Cluster(ClusterName(pool), None, Some(Endpoint(DnsName(pool), Port(pool))))
  }

  /** One endpoint-picker cluster for every cluster whose metadata names a pool, in order. */
  function EppClusters(clusters: seq<Cluster>): seq<Cluster> {
    if clusters == [] then []
    else
      EppClusters(clusters[..|clusters| - 1])
      + match PoolByMetadata(clusters[|clusters| - 1].metadata) case None => [] case Some(p) => [EppCluster(p)]
  }

  lemma {:induction false} EppClustersComplete(clusters: seq<Cluster>, cluster: Cluster)
    requires cluster in clusters && PoolByMetadata(cluster.metadata).Some?
    ensures EppCluster(PoolByMetadata(cluster.metadata).value) in EppClusters(clusters)
  {
    var init, last := clusters[..|clusters| - 1], clusters[|clusters| - 1];
    assert clusters == init + [last];
    if cluster in init {
      EppClustersComplete(init, cluster);
    }
  }

  /** at lists, in ascending order, the places of all clusters whose metadata names a pool, and added what the
      clusters there give. */
  ghost predicate PicksClusters(clusters: seq<Cluster>, added: seq<Cluster>, at: seq<nat>) {
    && Increasing(at) && |added| == |at|
    && (forall j :: j in at <==> 0 <= j < |clusters| && PoolByMetadata(clusters[j].metadata).Some?)
    && forall i :: 0 <= i < |at| ==>
         at[i] < |clusters| && PoolByMetadata(clusters[at[i]].metadata).Some?
         && added[i] == EppCluster(PoolByMetadata(clusters[at[i]].metadata).value)
  }

  lemma PicksNext(clusters: seq<Cluster>, added: seq<Cluster>, at: seq<nat>, next: Cluster, pool: InferencePool)
    requires PicksClusters(clusters, added, at) && PoolByMetadata(next.metadata) == Some(pool)
    ensures PicksClusters(clusters + [next], added + [EppCluster(pool)], at + [|clusters|])
  {
    var more, at' := clusters + [next], at + [|clusters|];
    forall j ensures j in at' <==> 0 <= j < |more| && PoolByMetadata(more[j].metadata).Some? {
      assert j in at' <==> j in at || j == |clusters|;
    }
    assert forall i :: 0 <= i < |at| ==> at[i] in at;
  }

  /** One endpoint-picker cluster per cluster that names a pool, in order, and no other. */
  lemma {:induction false} EppClustersInOrder(clusters: seq<Cluster>) returns (at: seq<nat>)
    ensures PicksClusters(clusters, EppClusters(clusters), at)
  {
    if clusters == [] {
      at := [];
    } else {
      var init, last := clusters[..|clusters| - 1], clusters[|clusters| - 1];
      at := EppClustersInOrder(init);
      assert clusters == init + [last];
      if PoolByMetadata(last.metadata).Some? {
        PicksNext(init, EppClusters(init), at, last, PoolByMetadata(last.metadata).value);
        at := at + [|init|];
      } else {
        PicksNone(init, EppClusters(init), at, last);
      }
    }
  }

  lemma PicksNone(clusters: seq<Cluster>, added: seq<Cluster>, at: seq<nat>, next: Cluster)
    requires PicksClusters(clusters, added, at) && PoolByMetadata(next.metadata).None?
    ensures PicksClusters(clusters + [next], added, at)
  {
    assert forall i :: 0 <= i < |at| ==> at[i] in at;
  }

  method BuildClusters(clusters: seq<Cluster>) returns (result: seq<Cluster>)
    ensures result == EppClusters(clusters)
  {
    result := [];
    for i := 0 to |clusters|
      invariant result == EppClusters(clusters[..i])
    {
      assert clusters[..i + 1][..i] == clusters[..i];
      var pool := PoolByMetadata(clusters[i].metadata);
      if pool.Some? {
        result := result + [EppCluster(pool.value)];
      }
    }
    assert clusters[..|clusters|] == clusters;
  }

  /** Every pool reference on a route is also on some cluster. */
  ghost predicate RefsOnClusters(configs: seq<RouteConfiguration>, clusters: seq<Cluster>) {
    forall r :: r in AllRoutes(configs) && r.Pool().Some? ==>
      exists cl :: cl in clusters && RefOf(cl.metadata) == RefOf(r.metadata)
  }

  /** The filter is an external processor whose cluster is in the list, at the authority it dials. */
  ghost predicate Dials(filter: HttpFilter, clusters: seq<Cluster>) {
    filter.config.ExtProc?
    && exists cl ::
         && cl in clusters && cl.name == filter.config.processor.clusterName && cl.endpoint.Some?
         && filter.config.processor.authority == cl.endpoint.value.address + ":" + Decimal(cl.endpoint.value.port)
  }

  /** Every filter a rewrite inserts, in any chain of any listener, dials a cluster of the result. */
  ghost predicate InsertedFiltersDial(clusters: seq<Cluster>, chains: ChainState, chains': ChainState) {
    forall c :: c in chains && c in chains' && HcmIn(chains'[c]).Some? ==>
      HcmIn(chains[c]).Some?
      && forall f :: f in HcmIn(chains'[c]).value.httpFilters && f !in HcmIn(chains[c]).value.httpFilters ==>
           Dials(f, clusters)
  }

  lemma PoolFilterDials(pool: InferencePool, clusters: seq<Cluster>)
    requires exists cl :: cl in clusters && PoolByMetadata(cl.metadata) == Some(pool)
    ensures Dials(PoolFilter(pool), clusters + EppClusters(clusters))
  {
    var cl :| cl in clusters && PoolByMetadata(cl.metadata) == Some(pool);
    EppClustersComplete(clusters, cl);
    AuthorityIsDnsAndPort(pool);
    assert EppCluster(pool) in clusters + EppClusters(clusters);
  }

  lemma ServedPoolOnCluster(
    listeners: seq<Listener>, configs: seq<RouteConfiguration>, served: map<string, seq<InferencePool>>,
    chains: ChainState, clusters: seq<Cluster>, n: string, p: InferencePool)
    requires AllChains(listeners) <= chains.Keys && Serves(served, BuildMatrix(listeners, configs, chains))
    requires RefsOnClusters(configs, clusters)
    requires n in ListenersByName(listeners) && p in PoolsFor(served, n)
    ensures exists cl :: cl in clusters && PoolByMetadata(cl.metadata) == Some(p)
  {
    var m := BuildMatrix(listeners, configs, chains);
    ServedElements(served, m, n);
    assert p in Elements(PoolsFor(served, n));
    var k :| k in m.routeNames[n] && k in m.pools && p in m.pools[k].Values;
    PoolsByRouteSound(Entries(configs), k, p);
    var e :| e in Entries(configs) && e.config == k && e.route.Pool() == Some(p);
    EntriesComplete(configs);
    assert e.route in AllRoutes(configs);
    var cl :| cl in clusters && RefOf(cl.metadata) == RefOf(e.route.metadata);
    assert PoolByMetadata(cl.metadata) == Some(p);
  }

  /** Referential integrity of the rewritten configuration. */
  lemma InsertedFiltersReachClusters(
    listeners: seq<Listener>, configs: seq<RouteConfiguration>, served: map<string, seq<InferencePool>>,
    before: Snapshot, after: Snapshot, clusters: seq<Cluster>)
    requires WellFormed(listeners, before.chains) && Rewritten(listeners, configs, served, before, after)
    requires RefsOnClusters(configs, clusters)
    ensures InsertedFiltersDial(clusters + EppClusters(clusters), before.chains, after.chains)
  {
    var byName := ListenersByName(listeners);
    forall c | c in before.chains && HcmIn(after.chains[c]).Some?
      ensures HcmIn(before.chains[c]).Some?
      ensures forall f ::
                f in HttpFilters(after.chains, c) && f !in HttpFilters(before.chains, c) ==>
                Dials(f, clusters + EppClusters(clusters))
    {
      ChainKept(listeners, configs, served, before, after, c);
      if c in NamedChains(byName) {
        var n :| n in byName && c in ChainsOf(byName[n]);
        var pools := PoolsDone(served, served.Keys, n);
        assert ListenerPatched(byName[n], pools, before.chains, after.chains);
        PatchedHcm(before.chains[c], pools);
        InsertionAddsPoolFilters(HttpFilters(before.chains, c), pools);
        forall p | p in pools ensures Dials(PoolFilter(p), clusters + EppClusters(clusters)) {
          ServedPoolOnCluster(listeners, configs, served, before.chains, clusters, n, p);
          PoolFilterDials(p, clusters);
        }
      }
    }
  }

  /** Everything the hook promises about the state it leaves. */
  ghost predicate Delivered(
    listeners: seq<Listener>, configs: seq<RouteConfiguration>, clusters: seq<Cluster>, result: seq<Cluster>,
    before: Snapshot, after: Snapshot)
  {
    && (RefsOnClusters(configs, clusters) ==> InsertedFiltersDial(result, before.chains, after.chains))
    && ((WellNamed(listeners, configs) && CleanStart(listeners, configs, before)
         && ListenersAgree(listeners, configs, before.chains)) ==> OwnFiltersOnly(listeners, configs, after))
  }

  lemma RewriteDelivers(
    listeners: seq<Listener>, configs: seq<RouteConfiguration>, served: map<string, seq<InferencePool>>,
    clusters: seq<Cluster>, before: Snapshot, after: Snapshot)
    requires WellFormed(listeners, before.chains) && before.routes.Keys == AllRoutes(configs)
    requires Rewritten(listeners, configs, served, before, after)
    ensures Delivered(listeners, configs, clusters, clusters + EppClusters(clusters), before, after)
  {
    if RefsOnClusters(configs, clusters) {
      InsertedFiltersReachClusters(listeners, configs, served, before, after, clusters);
    }
    if WellNamed(listeners, configs) && CleanStart(listeners, configs, before)
       && ListenersAgree(listeners, configs, before.chains) {
      OwnFiltersOnlyAfterRewrite(listeners, configs, served, before, after);
    }
  }

  method PostTranslateModify(clusters: seq<Cluster>, listeners: seq<Listener>, configs: seq<RouteConfiguration>)
    returns (result: seq<Cluster>, ghost served: map<string, seq<InferencePool>>)
    requires WellFormed(listeners, ChainStateOf(AllChains(listeners)))
    modifies NamedChains(ListenersByName(listeners))`filters
    modifies NamedRoutes(ConfigsByName(configs))`typedPerFilterConfig
    ensures result == clusters + EppClusters(clusters)
    ensures Rewritten(listeners, configs, served,
              old(Snapshot(ChainStateOf(AllChains(listeners)), RouteStateOf(AllRoutes(configs)))),
              Snapshot(ChainStateOf(AllChains(listeners)), RouteStateOf(AllRoutes(configs))))
    ensures Delivered(listeners, configs, clusters, result,
              old(Snapshot(ChainStateOf(AllChains(listeners)), RouteStateOf(AllRoutes(configs)))),
              Snapshot(ChainStateOf(AllChains(listeners)), RouteStateOf(AllRoutes(configs))))
  {
    ghost var before := Snapshot(ChainStateOf(AllChains(listeners)), RouteStateOf(AllRoutes(configs)));
    var added := BuildClusters(clusters);
    result := clusters + added;
    served := MaybeModifyListenersAndRoutes(listeners, configs);
    RewriteDelivers(listeners, configs, served, clusters, before,
      Snapshot(ChainStateOf(AllChains(listeners)), RouteStateOf(AllRoutes(configs))));
  }

  /** Two rewrites in a row: the second finds nothing to do. */
  method RewriteTwice(listeners: seq<Listener>, configs: seq<RouteConfiguration>)
    returns (ghost served: map<string, seq<InferencePool>>, ghost once: Snapshot)
    requires WellFormed(listeners, ChainStateOf(AllChains(listeners)))
    modifies NamedChains(ListenersByName(listeners))`filters
    modifies NamedRoutes(ConfigsByName(configs))`typedPerFilterConfig
    ensures Rewritten(listeners, configs, served,
              old(Snapshot(ChainStateOf(AllChains(listeners)), RouteStateOf(AllRoutes(configs)))), once)
    ensures Snapshot(ChainStateOf(AllChains(listeners)), RouteStateOf(AllRoutes(configs))) == once
  {
    ghost var before := Snapshot(ChainStateOf(AllChains(listeners)), RouteStateOf(AllRoutes(configs)));
    served := MaybeModifyListenersAndRoutes(listeners, configs);
    once := Snapshot(ChainStateOf(AllChains(listeners)), RouteStateOf(AllRoutes(configs)));
    RouteNamesKept(listeners, configs, served, before, once);
    ghost var again := MaybeModifyListenersAndRoutes(listeners, configs);
    SecondRewriteChangesNothing(listeners, configs, served, again, before, once,
      Snapshot(ChainStateOf(AllChains(listeners)), RouteStateOf(AllRoutes(configs))));
  }
}
