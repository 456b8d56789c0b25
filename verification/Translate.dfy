/** The rewrite itself: gathers which pools every listener serves, then patches listeners and virtual hosts
    in place. */
module Translate {
  import opened Text
  import opened InferencePools
  import opened FilterChains
  import opened Rewrite

  // ---------- Pools per listener ----------

  /** pools is before with the pools of the keys in added behind it, added listing every key once. */
  ghost predicate Appended(
    byRoute: map<string, InferencePool>, before: seq<InferencePool>, pools: seq<InferencePool>, added: seq<string>)
  {
    && |pools| == |before| + |added| && before <= pools
    && (forall i, j :: 0 <= i < j < |added| ==> added[i] != added[j])
    && forall i :: 0 <= i < |added| ==> added[i] in byRoute && pools[|before| + i] == byRoute[added[i]]
  }

  /** Appends the pools of one route config, in whatever order the map is enumerated. */
  method AppendPools(byRoute: map<string, InferencePool>, before: seq<InferencePool>)
    returns (pools: seq<InferencePool>, ghost added: seq<string>)
    ensures Appended(byRoute, before, pools, added)
    ensures forall k :: k in added <==> k in byRoute
  {
    pools, added := before, [];
    var left := byRoute.Keys;
    while left != {}
      invariant left <= byRoute.Keys && Appended(byRoute, before, pools, added)
      invariant forall k :: k in added <==> k in byRoute.Keys - left
    {
      var k :| k in left;
      assert k !in added;
      left := left - {k};
      pools, added := pools + [byRoute[k]], added + [k];
    }
  }

  /** A config without routes of a pool, or that does not exist, adds no mention. */
  lemma ListsSkip(m: Matrix, listener: string, i: nat, pools: seq<InferencePool>, mentions: seq<Mention>)
    requires Lists(m, listener, i, pools, mentions) && listener in m.routeNames && i < |m.routeNames[listener]|
    requires m.routeNames[listener][i] !in m.configs || m.routeNames[listener][i] !in m.pools
    ensures Lists(m, listener, i + 1, pools, mentions)
  {
    forall t ensures IsMention(m, listener, i, t) <==> IsMention(m, listener, i + 1, t) {}
  }

  ghost function MentionsAt(at: nat, routes: seq<string>): seq<Mention> {
    seq(|routes|, j requires 0 <= j < |routes| => Mention(at, routes[j]))
  }

  /** The i-th config adds one mention for each of its routes with a pool. */
  lemma ListsAppend(
    m: Matrix, listener: string, i: nat, before: seq<InferencePool>, mentions: seq<Mention>,
    pools: seq<InferencePool>, added: seq<string>)
    requires Lists(m, listener, i, before, mentions) && listener in m.routeNames && i < |m.routeNames[listener]|
    requires m.routeNames[listener][i] in m.configs && m.routeNames[listener][i] in m.pools
    requires Appended(m.pools[m.routeNames[listener][i]], before, pools, added)
    requires forall k :: k in added <==> k in m.pools[m.routeNames[listener][i]]
    ensures Lists(m, listener, i + 1, pools, mentions + MentionsAt(i, added))
  {
    var more := mentions + MentionsAt(i, added);
    assert forall t :: t in mentions ==> t.at < i;
    MentionsExtend(m, listener, i, mentions, added);
    forall j | 0 <= j < |more|
      ensures IsMention(m, listener, i + 1, more[j]) && pools[j] == PoolAt(m, listener, i + 1, more[j])
    {
      if j < |mentions| {
        assert IsMention(m, listener, i, mentions[j]) && pools[j] == before[j];
      } else {
        assert more[j] == Mention(i, added[j - |mentions|]);
      }
    }
  }

  lemma MentionsExtend(m: Matrix, listener: string, i: nat, mentions: seq<Mention>, added: seq<string>)
    requires listener in m.routeNames && i < |m.routeNames[listener]|
    requires m.routeNames[listener][i] in m.configs && m.routeNames[listener][i] in m.pools
    requires forall t :: t in mentions <==> IsMention(m, listener, i, t)
    requires forall k :: k in added <==> k in m.pools[m.routeNames[listener][i]]
    ensures forall t :: t in mentions + MentionsAt(i, added) <==> IsMention(m, listener, i + 1, t)
  {
    forall t ensures t in MentionsAt(i, added) <==> t.at == i && t.route in added {
      if t.at == i && t.route in added {
        var j :| 0 <= j < |added| && added[j] == t.route;
        assert MentionsAt(i, added)[j] == t;
      }
    }
    forall t ensures IsMention(m, listener, i + 1, t) <==> IsMention(m, listener, i, t) || (t.at == i && t.route in added) {}
  }

  method PoolsOfConfigs(m: Matrix, listener: string) returns (pools: seq<InferencePool>)
    requires listener in m.routeNames
    ensures ListsAll(m, listener, pools)
  {
    pools := [];
    ghost var mentions: seq<Mention> := [];
    var names := m.routeNames[listener];
    for i := 0 to |names|
      invariant Lists(m, listener, i, pools, mentions)
    {
      if names[i] !in m.configs || names[i] !in m.pools {
        ListsSkip(m, listener, i, pools, mentions);
        continue;
      }
      ghost var before, added := pools, [];
      pools, added := AppendPools(m.pools[names[i]], pools);
      ListsAppend(m, listener, i, before, mentions, pools, added);
      mentions := mentions + MentionsAt(i, added);
    }
  }

  /** The listener-to-pools matrix, for every order in which maps may be enumerated. */
  method CollectServed(m: Matrix) returns (served: map<string, seq<InferencePool>>)
    ensures Serves(served, m)
  {
    served := map[];
    var todo := m.routeNames.Keys;
    while todo != {}
      invariant todo <= m.routeNames.Keys && served.Keys <= m.routeNames.Keys - todo
      invariant forall l {:trigger PoolsFor(served, l)} :: l in m.routeNames.Keys - todo ==> ListsAll(m, l, PoolsFor(served, l))
    {
      var l :| l in todo;
      var pools := PoolsOfConfigs(m, l);
      ghost var before := served;
      if pools != [] {
        served := served[l := pools];
      }
      assert forall k :: k != l ==> PoolsFor(served, k) == PoolsFor(before, k);
      assert PoolsFor(served, l) == pools;
      todo := todo - {l};
    }
  }

  // ---------- Patching in place ----------

  method PatchFilterChain(chain: FilterChain, pools: seq<InferencePool>)
    requires HasRouter(chain.filters)
    modifies chain`filters
    ensures chain.filters == PatchedChain(old(chain.filters), pools)
    ensures HcmIn(chain.filters).Some? <==> HcmIn(old(chain.filters)).Some?
    ensures HcmIn(old(chain.filters)).Some? ==>
              InsertedBeforeRouter(HcmIn(old(chain.filters)).value.httpFilters,
                HcmIn(chain.filters).value.httpFilters, pools)
  {
    PatchedOrder(chain.filters, pools);
    var at := FindHcm(chain.filters);
    if at.None? {
      return;
    }
    var hcm := chain.filters[at.value].config.hcm;
    ghost var original := hcm;
    var poolFilters: seq<HttpFilter> := [];
    for i := 0 to |pools|
      invariant poolFilters == MissingFilters(hcm.httpFilters, pools[..i])
    {
      assert pools[..i + 1][..i] == pools[..i];
      match SearchPool(pools[i], hcm.httpFilters)
      case Missing => poolFilters := poolFilters + [PoolFilter(pools[i])];
      case Found(_) =>
      case WrongType =>
    }
    assert pools[..|pools|] == pools;
    if |poolFilters| != 0 {
      var length := |hcm.httpFilters|;
      var router := hcm.httpFilters[length - 1];
      hcm := hcm.(httpFilters := hcm.httpFilters[..length - 1]);
      hcm := hcm.(httpFilters := hcm.httpFilters + poolFilters);
      hcm := hcm.(httpFilters := hcm.httpFilters + [router]);
    }
    assert hcm == original.(httpFilters := InsertPools(original.httpFilters, pools));
    chain.filters := chain.filters[at.value := chain.filters[at.value].(config := HcmConfig(hcm))];
  }

  /** Patches a chain that may have been patched with the same pools already. */
  method PatchOnce(chain: FilterChain, pools: seq<InferencePool>, ghost original: seq<NetworkFilter>)
    requires HasRouter(original)
    requires chain.filters == original || chain.filters == PatchedChain(original, pools)
    modifies chain`filters
    ensures chain.filters == PatchedChain(original, pools)
  {
    PatchIdempotent(original, pools, pools);
    PatchFilterChain(chain, pools);
  }

  /** Chain contents once the chains in done are patched. */
  ghost function PatchedSoFar(
    originals: ChainState, pools: seq<InferencePool>, done: set<FilterChain>, c: FilterChain): seq<NetworkFilter>
    requires c in originals && HasRouter(originals[c])
  {
    if c in done then PatchedChain(originals[c], pools) else originals[c]
  }

  /** Patches the chains one after the other; a chain listed twice is patched once in effect. */
  method PatchChains(chains: seq<FilterChain>, pools: seq<InferencePool>, ghost originals: ChainState)
    requires forall c :: c in chains ==> c in originals && HasRouter(originals[c]) && c.filters == originals[c]
    modifies (set c | c in chains)`filters
    ensures forall c :: c in chains ==> c.filters == PatchedChain(originals[c], pools)
  {
    ghost var done: set<FilterChain> := {};
    for i := 0 to |chains|
      invariant forall k :: 0 <= k < i ==> chains[k] in done
      invariant forall c :: c in chains ==> c.filters == PatchedSoFar(originals, pools, done, c)
    {
      PatchOnce(chains[i], pools, originals[chains[i]]);
      done := done + {chains[i]};
    }
  }

  /** Patches every chain of the listener, the default chain included. */
  method PatchListener(listener: Listener, pools: seq<InferencePool>)
    requires forall c :: c in ChainsOf(listener) ==> HasRouter(c.filters)
    modifies ChainsOf(listener)`filters
    ensures forall c :: c in ChainsOf(listener) ==> c.filters == PatchedChain(old(c.filters), pools)
  {
    var chains := listener.filterChains;
    if listener.defaultFilterChain != null {
      chains := chains + [listener.defaultFilterChain];
    }
    assert chains == ChainList(listener);
    PatchChains(chains, pools, ChainStateOf(ChainsOf(listener)));
  }

  method PatchRoute(route: Route, names: set<string>)
    modifies route`typedPerFilterConfig
    ensures route.typedPerFilterConfig == Disable(old(route.typedPerFilterConfig), names - route.OwnName())
  {
    var own := route.Pool();
    var left := names;
    ghost var done: set<string> := {};
    assert Disable(route.typedPerFilterConfig, {}) == route.typedPerFilterConfig;
    while left != {}
      invariant left <= names && done == names - left - route.OwnName()
      invariant route.typedPerFilterConfig == Disable(old(route.typedPerFilterConfig), done)
    {
      var key :| key in left;
      left := left - {key};
      if own.None? || key != FilterName(own.value) {
        DisableOne(old(route.typedPerFilterConfig), done, key);
        route.typedPerFilterConfig := route.typedPerFilterConfig[key := ExtProcDisabled];
        done := done + {key};
      }
    }
    assert done == names - route.OwnName();
  }

  /** Disables, on every route of the host, the filters of all listed pools but the route's own. */
  method PatchVirtualHost(host: VirtualHost, pools: seq<InferencePool>)
    modifies (set r | r in host.routes)`typedPerFilterConfig
    ensures forall r :: r in host.routes ==>
              r.typedPerFilterConfig == Disable(old(r.typedPerFilterConfig), PoolNames(pools) - r.OwnName())
  {
    var matrix: map<string, InferencePool> := map[];
    for i := 0 to |pools|
      invariant matrix.Keys == PoolNames(pools[..i])
      modifies {}
    {
      assert pools[..i + 1] == pools[..i] + [pools[i]];
      PoolNamesAppend(pools[..i], pools[i]);
      matrix := matrix[FilterName(pools[i]) := pools[i]];
    }
    assert pools[..|pools|] == pools;
    var routes := host.routes;
    assert routes[..0] == [];
    for i := 0 to |routes|
      invariant forall r :: r in routes ==>
                  r.typedPerFilterConfig
                  == if r in routes[..i] then Disable(old(r.typedPerFilterConfig), PoolNames(pools) - r.OwnName())
                     else old(r.typedPerFilterConfig)
    {
      assert routes[..i + 1] == routes[..i] + [routes[i]];
      PatchRoute(routes[i], matrix.Keys);
    }
  }

  method PatchConfig(config: RouteConfiguration, pools: seq<InferencePool>)
    modifies RoutesIn(config)`typedPerFilterConfig
    ensures forall r :: r in RoutesIn(config) ==>
              r.typedPerFilterConfig == Disable(old(r.typedPerFilterConfig), PoolNames(pools) - r.OwnName())
  {
    var hosts := config.virtualHosts;
    ghost var done: set<Route> := {};
    for i := 0 to |hosts|
      invariant done == set v, r | v in hosts[..i] && r in v.routes :: r
      invariant forall r :: r in RoutesIn(config) && r in done ==>
                  r.typedPerFilterConfig == Disable(old(r.typedPerFilterConfig), PoolNames(pools) - r.OwnName())
      invariant forall r :: r in RoutesIn(config) && r !in done ==>
                  r.typedPerFilterConfig == old(r.typedPerFilterConfig)
    {
      assert hosts[..i + 1] == hosts[..i] + [hosts[i]];
      PatchVirtualHost(hosts[i], pools);
      forall r | r in hosts[i].routes
        ensures r.typedPerFilterConfig == Disable(old(r.typedPerFilterConfig), PoolNames(pools) - r.OwnName())
      {
        var names := PoolNames(pools) - r.OwnName();
        DisableMore(old(r.typedPerFilterConfig), names, names);
        assert names + names == names;
      }
      done := done + set r | r in hosts[i].routes;
    }
    assert hosts[..|hosts|] == hosts;
  }

  /** The route lies in a config the listener names. */
  ghost predicate Named(m: Matrix, listener: string, r: Route) {
    listener in m.routeNames
    && exists n :: n in m.routeNames[listener] && n in m.configs && r in RoutesIn(m.configs[n])
  }

  ghost function NamedRoutes(configs: map<string, RouteConfiguration>): set<Route> {
    set n, r | n in configs && r in RoutesIn(configs[n]) :: r
  }

  method PatchConfigs(m: Matrix, listener: string, pools: seq<InferencePool>)
    requires listener in m.routeNames
    modifies NamedRoutes(m.configs)`typedPerFilterConfig
    ensures forall r :: r in NamedRoutes(m.configs) && Named(m, listener, r) ==>
              r.typedPerFilterConfig == Disable(old(r.typedPerFilterConfig), PoolNames(pools) - r.OwnName())
    ensures forall r :: r in NamedRoutes(m.configs) && !Named(m, listener, r) ==>
              r.typedPerFilterConfig == old(r.typedPerFilterConfig)
  {
    var names := m.routeNames[listener];
    ghost var done: set<Route> := {};
    for i := 0 to |names|
      invariant done == set n, r | n in names[..i] && n in m.configs && r in RoutesIn(m.configs[n]) :: r
      invariant forall r :: r in NamedRoutes(m.configs) && r in done ==>
                  r.typedPerFilterConfig == Disable(old(r.typedPerFilterConfig), PoolNames(pools) - r.OwnName())
      invariant forall r :: r in NamedRoutes(m.configs) && r !in done ==>
                  r.typedPerFilterConfig == old(r.typedPerFilterConfig)
    {
      assert names[..i + 1] == names[..i] + [names[i]];
      if names[i] !in m.configs {
        continue;
      }
      ghost var config := m.configs[names[i]];
      PatchConfig(m.configs[names[i]], pools);
      forall r | r in RoutesIn(config)
        ensures r.typedPerFilterConfig == Disable(old(r.typedPerFilterConfig), PoolNames(pools) - r.OwnName())
      {
        var foreign := PoolNames(pools) - r.OwnName();
        DisableMore(old(r.typedPerFilterConfig), foreign, foreign);
        assert foreign + foreign == foreign;
      }
      done := done + RoutesIn(config);
    }
    assert names[..|names|] == names;
    assert forall r :: r in done <==> Named(m, listener, r);
  }

  // ---------- The whole rewrite ----------

  /** The filters that the listeners in done, which name the route's config, switch off on the route. */
  ghost function Foreign(m: Matrix, served: map<string, seq<InferencePool>>, done: set<string>, r: Route): set<string> {
    set l, k | l in done && l in served && Named(m, l, r) && k in PoolNames(served[l]) && k !in r.OwnName() :: k
  }

  lemma ForeignMore(m: Matrix, served: map<string, seq<InferencePool>>, done: set<string>, l: string, r: Route)
    requires l in served
    ensures Foreign(m, served, done + {l}, r)
            == Foreign(m, served, done, r) + if Named(m, l, r) then PoolNames(served[l]) - r.OwnName() else {}
  {
  }

  /** Disabling one more listener's foreign filters on a route it names. */
  lemma DisableForeign(
    m: Matrix, served: map<string, seq<InferencePool>>, done: set<string>, l: string, r: Route,
    overrides: map<string, PerRouteConfig>)
    requires l in served
    ensures Named(m, l, r) ==>
              Disable(Disable(overrides, Foreign(m, served, done, r)), PoolNames(served[l]) - r.OwnName())
              == Disable(overrides, Foreign(m, served, done + {l}, r))
    ensures !Named(m, l, r) ==> Foreign(m, served, done + {l}, r) == Foreign(m, served, done, r)
  {
    ForeignMore(m, served, done, l, r);
    DisableMore(overrides, Foreign(m, served, done, r), PoolNames(served[l]) - r.OwnName());
  }

  ghost function NamedChains(byName: map<string, Listener>): set<FilterChain> {
    set n, c | n in byName && c in ChainsOf(byName[n]) :: c
  }

  ghost predicate SeparateChains(byName: map<string, Listener>) {
    forall a, b :: a in byName && b in byName && a != b ==> ChainsOf(byName[a]) !! ChainsOf(byName[b])
  }

  /** The listener's chains hold what they held before, patched with the pools. */
  ghost predicate ListenerPatched(listener: Listener, pools: seq<InferencePool>, before: ChainState, after: ChainState) {
    forall c :: c in ChainsOf(listener) ==>
      c in before && c in after && HasRouter(before[c]) && after[c] == PatchedChain(before[c], pools)
  }

  /** Chain contents after the listeners in done have been patched. */
  ghost predicate ChainsPatched(
    byName: map<string, Listener>, served: map<string, seq<InferencePool>>, done: set<string>,
    before: ChainState, after: ChainState)
  {
    forall n {:trigger PoolsDone(served, done, n)} ::
      n in byName ==> ListenerPatched(byName[n], PoolsDone(served, done, n), before, after)
  }

  /** The pools a listener has been patched with once the listeners in done are finished. */
  ghost function PoolsDone(served: map<string, seq<InferencePool>>, done: set<string>, n: string): seq<InferencePool> {
    if n in done then PoolsFor(served, n) else []
  }

  /** Route overrides after the listeners in done have been patched. */
  ghost predicate RoutesPatched(
    m: Matrix, served: map<string, seq<InferencePool>>, done: set<string>, before: RouteState, after: RouteState)
  {
    forall r {:trigger RoutePatched(m, served, done, before, after, r)} ::
      r in NamedRoutes(m.configs) ==> RoutePatched(m, served, done, before, after, r)
  }

  ghost predicate RoutePatched(
    m: Matrix, served: map<string, seq<InferencePool>>, done: set<string>, before: RouteState, after: RouteState, r: Route)
  {
    r in before && r in after && after[r] == Disable(before[r], Foreign(m, served, done, r))
  }

  lemma NothingPatched(
    m: Matrix, byName: map<string, Listener>, served: map<string, seq<InferencePool>>,
    chains: ChainState, routes: RouteState)
    requires NamedChains(byName) <= chains.Keys && NamedRoutes(m.configs) <= routes.Keys
    requires forall c :: c in chains ==> HasRouter(chains[c])
    ensures ChainsPatched(byName, served, {}, chains, chains) && RoutesPatched(m, served, {}, routes, routes)
  {
    forall n | n in byName ensures ListenerPatched(byName[n], PoolsDone(served, {}, n), chains, chains) {
      forall c | c in ChainsOf(byName[n]) ensures c in chains && chains[c] == PatchedChain(chains[c], []) {
        assert c in NamedChains(byName);
        PatchNothing(chains[c]);
      }
    }
    forall r | r in NamedRoutes(m.configs)
      ensures RoutePatched(m, served, {}, routes, routes, r)
    {
      assert Foreign(m, served, {}, r) == {};
    }
  }

  lemma ListenerPatchedKept(
    listener: Listener, pools: seq<InferencePool>, before: ChainState, reached: ChainState, after: ChainState)
    requires ListenerPatched(listener, pools, before, reached)
    requires forall c :: c in ChainsOf(listener) ==> c in reached && c in after && after[c] == reached[c]
    ensures ListenerPatched(listener, pools, before, after)
  {
  }

  lemma ListenerPatchedNow(
    listener: Listener, pools: seq<InferencePool>, before: ChainState, reached: ChainState, after: ChainState)
    requires ListenerPatched(listener, [], before, reached)
    requires forall c :: c in ChainsOf(listener) ==>
               c in reached && c in after && HasRouter(reached[c]) && after[c] == PatchedChain(reached[c], pools)
    ensures ListenerPatched(listener, pools, before, after)
  {
    forall c | c in ChainsOf(listener) ensures after[c] == PatchedChain(before[c], pools) {
      PatchNothing(before[c]);
    }
  }

  lemma ChainsStep(
    byName: map<string, Listener>, served: map<string, seq<InferencePool>>, done: set<string>, l: string,
    before: ChainState, reached: ChainState, after: ChainState)
    requires SeparateChains(byName) && l in byName && l in served && l !in done
    requires ChainsPatched(byName, served, done, before, reached)
    requires reached.Keys == after.Keys == NamedChains(byName)
    requires forall c :: c in ChainsOf(byName[l]) ==>
               c in reached && HasRouter(reached[c]) && after[c] == PatchedChain(reached[c], served[l])
    requires forall c :: c in reached && c !in ChainsOf(byName[l]) ==> after[c] == reached[c]
    ensures ChainsPatched(byName, served, done + {l}, before, after)
  {
    forall n | n in byName
      ensures ListenerPatched(byName[n], PoolsDone(served, done + {l}, n), before, after)
    {
      assert ListenerPatched(byName[n], PoolsDone(served, done, n), before, reached);
      if n == l {
        ListenerPatchedNow(byName[l], served[l], before, reached, after);
      } else {
        assert forall c :: c in ChainsOf(byName[n]) ==> c in NamedChains(byName) && c !in ChainsOf(byName[l]);
        ListenerPatchedKept(byName[n], PoolsDone(served, done, n), before, reached, after);
      }
    }
  }

  lemma PatchableListener(
    byName: map<string, Listener>, served: map<string, seq<InferencePool>>, done: set<string>, l: string,
    before: ChainState, reached: ChainState)
    requires l in byName && l !in done && ChainsPatched(byName, served, done, before, reached)
    ensures forall c :: c in ChainsOf(byName[l]) ==> c in reached && HasRouter(reached[c])
  {
    assert ListenerPatched(byName[l], PoolsDone(served, done, l), before, reached);
    forall c | c in ChainsOf(byName[l]) ensures HasRouter(reached[c]) {
      PatchNothing(before[c]);
    }
  }

  /** How far the rewrite is once the listeners in done are patched. */
  ghost predicate Progress(
    m: Matrix, byName: map<string, Listener>, served: map<string, seq<InferencePool>>, done: set<string>,
    before: Snapshot, after: Snapshot)
  {
    && ChainsPatched(byName, served, done, before.chains, after.chains) && after.chains.Keys == NamedChains(byName)
    && RoutesPatched(m, served, done, before.routes, after.routes) && after.routes.Keys == NamedRoutes(m.configs)
  }

  ghost predicate ChainsHold(chains: ChainState)
    reads chains.Keys
  {
    forall c :: c in chains ==> c.filters == chains[c]
  }

  ghost predicate RoutesHold(routes: RouteState)
    reads routes.Keys
  {
    forall r :: r in routes ==> r.typedPerFilterConfig == routes[r]
  }

  ghost predicate Holds(state: Snapshot)
    reads state.chains.Keys, state.routes.Keys
  {
    ChainsHold(state.chains) && RoutesHold(state.routes)
  }

  method PatchServedChains(
    byName: map<string, Listener>, served: map<string, seq<InferencePool>>, l: string, ghost done: set<string>,
    ghost chains: ChainState, ghost reached: ChainState)
    returns (ghost after: ChainState)
    requires SeparateChains(byName) && l in byName && l in served && l !in done
    requires ChainsPatched(byName, served, done, chains, reached) && reached.Keys == NamedChains(byName)
    requires ChainsHold(reached)
    modifies NamedChains(byName)`filters
    ensures ChainsPatched(byName, served, done + {l}, chains, after) && after.Keys == NamedChains(byName)
    ensures ChainsHold(after)
  {
    PatchableListener(byName, served, done, l, chains, reached);
    assert ChainsOf(byName[l]) <= NamedChains(byName);
    PatchListener(byName[l], served[l]);
    after := ChainStateOf(NamedChains(byName));
    ChainsStep(byName, served, done, l, chains, reached, after);
  }

  method PatchServedRoutes(
    m: Matrix, served: map<string, seq<InferencePool>>, l: string, ghost done: set<string>,
    ghost routes: RouteState, ghost reached: RouteState)
    returns (ghost after: RouteState)
    requires l in served && l in m.routeNames
    requires RoutesPatched(m, served, done, routes, reached) && reached.Keys == NamedRoutes(m.configs)
    requires RoutesHold(reached)
    modifies NamedRoutes(m.configs)`typedPerFilterConfig
    ensures RoutesPatched(m, served, done + {l}, routes, after) && after.Keys == NamedRoutes(m.configs)
    ensures RoutesHold(after)
  {
    PatchConfigs(m, l, served[l]);
    after := RouteStateOf(NamedRoutes(m.configs));
    forall r | r in NamedRoutes(m.configs)
      ensures RoutePatched(m, served, done + {l}, routes, after, r)
    {
      assert RoutePatched(m, served, done, routes, reached, r);
      DisableForeign(m, served, done, l, r, routes[r]);
    }
  }

  /** Patches the chains of one listener and the routes it names. */
  method PatchServed(
    m: Matrix, byName: map<string, Listener>, served: map<string, seq<InferencePool>>, l: string, ghost done: set<string>,
    ghost start: Snapshot, ghost reached: Snapshot)
    returns (ghost after: Snapshot)
    requires SeparateChains(byName) && l in byName && l in served && l in m.routeNames && l !in done
    requires Progress(m, byName, served, done, start, reached) && Holds(reached)
    modifies NamedChains(byName)`filters, NamedRoutes(m.configs)`typedPerFilterConfig
    ensures Progress(m, byName, served, done + {l}, start, after) && Holds(after)
  {
    ghost var chains := PatchServedChains(byName, served, l, done, start.chains, reached.chains);
    ghost var routes := PatchServedRoutes(m, served, l, done, start.routes, reached.routes);
    after := Snapshot(chains, routes);
  }

  /** Patches every listener that serves pools, and the routes it names, in whatever order. */
  method ApplyServed(
    m: Matrix, byName: map<string, Listener>, served: map<string, seq<InferencePool>>, ghost start: Snapshot)
    returns (ghost after: Snapshot)
    requires served.Keys <= byName.Keys && served.Keys <= m.routeNames.Keys && SeparateChains(byName)
    requires Progress(m, byName, served, {}, start, start) && Holds(start)
    modifies NamedChains(byName)`filters, NamedRoutes(m.configs)`typedPerFilterConfig
    ensures Progress(m, byName, served, served.Keys, start, after) && Holds(after)
  {
    var todo := served.Keys;
    ghost var done: set<string> := {};
    after := start;
    while todo != {}
      invariant todo <= served.Keys && done == served.Keys - todo
      invariant Progress(m, byName, served, done, start, after) && Holds(after)
    {
      var l :| l in todo;
      todo := todo - {l};
      after := PatchServed(m, byName, served, l, done, start, after);
      done := done + {l};
    }
    assert done == served.Keys;
  }

  /** What the source demands of the listeners: connection managers end in a router filter, and no filter
      chain belongs to two listeners. */
  ghost predicate WellFormed(listeners: seq<Listener>, chains: ChainState) {
    && AllChains(listeners) == chains.Keys
    && (forall c :: c in chains ==> HasRouter(chains[c]))
    && (forall a, b :: a in listeners && b in listeners && a != b ==> ChainsOf(a) !! ChainsOf(b))
  }

  lemma MatrixParts(listeners: seq<Listener>, configs: seq<RouteConfiguration>)
    ensures NamedChains(ListenersByName(listeners)) <= AllChains(listeners)
    ensures NamedRoutes(ConfigsByName(configs)) <= AllRoutes(configs)
    ensures (forall a, b :: a in listeners && b in listeners && a != b ==> ChainsOf(a) !! ChainsOf(b))
            ==> SeparateChains(ListenersByName(listeners))
  {
    ListenersByNameSound(listeners);
    ConfigsByNameSound(configs);
  }

  /** The state after a rewrite, given the one before and the pools that were gathered.  Probe listeners,
      and listeners or configs that lost their name to a later one, are as before. */
  ghost predicate Rewritten(
    listeners: seq<Listener>, configs: seq<RouteConfiguration>, served: map<string, seq<InferencePool>>,
    before: Snapshot, after: Snapshot)
    requires WellFormed(listeners, before.chains)
  {
    var m := BuildMatrix(listeners, configs, before.chains);
    && Serves(served, m)
    && ChainsPatched(ListenersByName(listeners), served, served.Keys, before.chains, after.chains)
    && RoutesPatched(m, served, served.Keys, before.routes, after.routes)
    && LosersKept(listeners, configs, before, after)
  }

  /** The states agree outside the chains and routes that win their names. */
  ghost predicate LosersKept(
    listeners: seq<Listener>, configs: seq<RouteConfiguration>, before: Snapshot, after: Snapshot)
  {
    && after.chains.Keys == before.chains.Keys && after.routes.Keys == before.routes.Keys
    && (forall c :: c in before.chains && c !in NamedChains(ListenersByName(listeners)) ==>
          after.chains[c] == before.chains[c])
    && (forall r :: r in before.routes && r !in NamedRoutes(ConfigsByName(configs)) ==>
          after.routes[r] == before.routes[r])
  }

  /** Chains patched in part of the state are patched in the whole. */
  lemma ChainsFromPart(
    byName: map<string, Listener>, served: map<string, seq<InferencePool>>,
    before: ChainState, part: ChainState, after: ChainState)
    requires ChainsPatched(byName, served, served.Keys, Restricted(before, part.Keys), part)
    requires forall c :: c in part ==> c in after && after[c] == part[c]
    ensures ChainsPatched(byName, served, served.Keys, before, after)
  {
    forall n | n in byName ensures ListenerPatched(byName[n], PoolsDone(served, served.Keys, n), before, after) {
      var pools := PoolsDone(served, served.Keys, n);
      assert ListenerPatched(byName[n], pools, Restricted(before, part.Keys), part);
      assert ListenerPatched(byName[n], pools, before, part);
      ListenerPatchedKept(byName[n], pools, before, part, after);
    }
  }

  lemma RoutesFromPart(
    m: Matrix, served: map<string, seq<InferencePool>>, before: RouteState, part: RouteState, after: RouteState)
    requires RoutesPatched(m, served, served.Keys, Restricted(before, part.Keys), part)
    requires forall r :: r in part ==> r in after && after[r] == part[r]
    ensures RoutesPatched(m, served, served.Keys, before, after)
  {
    forall r | r in NamedRoutes(m.configs) ensures RoutePatched(m, served, served.Keys, before, after, r) {
      assert RoutePatched(m, served, served.Keys, Restricted(before, part.Keys), part, r);
    }
  }

  lemma RewrittenFromParts(
    listeners: seq<Listener>, configs: seq<RouteConfiguration>, served: map<string, seq<InferencePool>>,
    m: Matrix, before: Snapshot, part: Snapshot, after: Snapshot)
    requires WellFormed(listeners, before.chains) && m == BuildMatrix(listeners, configs, before.chains) && Serves(served, m)
    requires Progress(m, ListenersByName(listeners), served, served.Keys,
               Part(before, part.chains.Keys, part.routes.Keys), part)
    requires forall c :: c in part.chains ==> c in after.chains && after.chains[c] == part.chains[c]
    requires forall r :: r in part.routes ==> r in after.routes && after.routes[r] == part.routes[r]
    requires LosersKept(listeners, configs, before, after)
    ensures Rewritten(listeners, configs, served, before, after)
  {
    ChainsFromPart(ListenersByName(listeners), served, before.chains, part.chains, after.chains);
    RoutesFromPart(m, served, before.routes, part.routes, after.routes);
  }

  ghost function Restricted<K, V>(state: map<K, V>, keys: set<K>): map<K, V> {
    map k | k in state && k in keys :: state[k]
  }

  ghost function Part(state: Snapshot, chains: set<FilterChain>, routes: set<Route>): Snapshot {
    Snapshot(Restricted(state.chains, chains), Restricted(state.routes, routes))
  }

  method CollectMatrix(listeners: seq<Listener>, configs: seq<RouteConfiguration>, ghost chains: ChainState)
    returns (m: Matrix, byName: map<string, Listener>)
    requires AllChains(listeners) <= chains.Keys
    requires forall c :: c in AllChains(listeners) ==> c.filters == chains[c]
    ensures m == BuildMatrix(listeners, configs, chains) && byName == ListenersByName(listeners)
  {
    var routeNames, named := CollectListeners(listeners, chains);
    var byConfig, pools := CollectRoutes(configs);
    m, byName := Matrix(routeNames, byConfig, pools), named;
  }

  /** Applies what has been gathered, starting from any state that covers the chains and routes concerned. */
  method ApplyMatrix(
    m: Matrix, byName: map<string, Listener>, served: map<string, seq<InferencePool>>, ghost before: Snapshot)
    returns (ghost part: Snapshot)
    requires served.Keys <= byName.Keys && served.Keys <= m.routeNames.Keys && SeparateChains(byName)
    requires NamedChains(byName) <= before.chains.Keys && NamedRoutes(m.configs) <= before.routes.Keys
    requires forall c :: c in before.chains ==> HasRouter(before.chains[c])
    requires Holds(before)
    modifies NamedChains(byName)`filters, NamedRoutes(m.configs)`typedPerFilterConfig
    ensures Progress(m, byName, served, served.Keys, Part(before, NamedChains(byName), NamedRoutes(m.configs)), part)
    ensures Holds(part)
  {
    part := Part(before, NamedChains(byName), NamedRoutes(m.configs));
    NothingPatched(m, byName, served, part.chains, part.routes);
    part := ApplyServed(m, byName, served, part);
  }

  /** The first half: everything is read, nothing written. */
  method Gather(listeners: seq<Listener>, configs: seq<RouteConfiguration>, ghost chains: ChainState)
    returns (m: Matrix, byName: map<string, Listener>, served: map<string, seq<InferencePool>>)
    requires AllChains(listeners) <= chains.Keys
    requires forall c :: c in AllChains(listeners) ==> c.filters == chains[c]
    ensures m == BuildMatrix(listeners, configs, chains) && byName == ListenersByName(listeners)
    ensures Serves(served, m)
  {
    m, byName := CollectMatrix(listeners, configs, chains);
    served := CollectServed(m);
  }

  /** The second half: what was gathered is applied. */
  method PatchGathered(
    ghost listeners: seq<Listener>, ghost configs: seq<RouteConfiguration>,
    m: Matrix, byName: map<string, Listener>, served: map<string, seq<InferencePool>>)
    requires WellFormed(listeners, ChainStateOf(AllChains(listeners)))
    requires m == BuildMatrix(listeners, configs, ChainStateOf(AllChains(listeners)))
    requires byName == ListenersByName(listeners) && Serves(served, m)
    modifies NamedChains(byName)`filters, NamedRoutes(m.configs)`typedPerFilterConfig
    ensures Rewritten(listeners, configs, served,
              old(Snapshot(ChainStateOf(AllChains(listeners)), RouteStateOf(AllRoutes(configs)))),
              Snapshot(ChainStateOf(AllChains(listeners)), RouteStateOf(AllRoutes(configs))))
  {
    ghost var before := Snapshot(ChainStateOf(AllChains(listeners)), RouteStateOf(AllRoutes(configs)));
    MatrixParts(listeners, configs);
    ghost var part := ApplyMatrix(m, byName, served, before);
    ghost var after := Snapshot(ChainStateOf(AllChains(listeners)), RouteStateOf(AllRoutes(configs)));
    assert LosersKept(listeners, configs, before, after);
    RewrittenFromParts(listeners, configs, served, m, before, part, after);
  }

  /** The rewrite.  served is what the map loops gathered, in the order they happened to run. */
  method MaybeModifyListenersAndRoutes(listeners: seq<Listener>, configs: seq<RouteConfiguration>)
    returns (ghost served: map<string, seq<InferencePool>>)
    requires WellFormed(listeners, ChainStateOf(AllChains(listeners)))
    modifies NamedChains(ListenersByName(listeners))`filters
    modifies NamedRoutes(ConfigsByName(configs))`typedPerFilterConfig
    ensures Rewritten(listeners, configs, served,
              old(Snapshot(ChainStateOf(AllChains(listeners)), RouteStateOf(AllRoutes(configs)))),
              Snapshot(ChainStateOf(AllChains(listeners)), RouteStateOf(AllRoutes(configs))))
  {
    var m, byName, gathered := Gather(listeners, configs, ChainStateOf(AllChains(listeners)));
    PatchGathered(listeners, configs, m, byName, gathered);
    served := gathered;
  }
}
