/** What the rewrite achieves: which endpoint-picker filters run for a route, when a chain repeats a filter,
    and that a second rewrite changes nothing. */
module RewriteTheorems {
  import opened Text
  import opened InferencePools
  import opened FilterChains
  import opened Rewrite
  import opened Translate

  /** Listener and route config names are unique, and routes that share a name in one config name no two
      different pools. */
  predicate WellNamed(listeners: seq<Listener>, configs: seq<RouteConfiguration>) {
    UniqueListeners(listeners) && UniqueConfigs(configs) && NoClash(Entries(configs))
  }

  function OwnPools(r: Route): set<InferencePool> {
    match r.Pool() case None => {} case Some(p) => {p}
  }

  /** The route's own picker filter: one filter or none. */
  function OwnFilter(r: Route): set<HttpFilter> {
    match r.Pool() case None => {} case Some(p) => {PoolFilter(p)}
  }

  /** The pools of the routes the listener's chains lead to. */
  ghost function ListenerPools(listener: Listener, configs: seq<RouteConfiguration>, chains: ChainState): set<InferencePool>
    requires ChainsOf(listener) <= chains.Keys
  {
    set g, r, p | g in configs && Asks(listener, chains, g.name) && r in RoutesIn(g) && p in OwnPools(r) :: p
  }

  ghost function NamesOf(pools: set<InferencePool>): set<string> {
    set p | p in pools :: FilterName(p)
  }

  ghost function ListenerPoolNames(listener: Listener, configs: seq<RouteConfiguration>, chains: ChainState): set<string>
    requires ChainsOf(listener) <= chains.Keys
  {
    NamesOf(ListenerPools(listener, configs, chains))
  }

  // ---------- What a listener is given ----------

  lemma ServedIsReached(
    listeners: seq<Listener>, configs: seq<RouteConfiguration>, served: map<string, seq<InferencePool>>,
    chains: ChainState, l: Listener, p: InferencePool)
    requires WellNamed(listeners, configs) && AllChains(listeners) <= chains.Keys
    requires Serves(served, BuildMatrix(listeners, configs, chains)) && l in listeners && !IsProbe(l.name)
    requires p in PoolsFor(served, l.name)
    ensures ChainsOf(l) <= AllChains(listeners) && p in ListenerPools(l, configs, chains)
  {
    var m := BuildMatrix(listeners, configs, chains);
    ListenersByNameComplete(listeners, l);
    ServedElements(served, m, l.name);
    assert p in Elements(PoolsFor(served, l.name));
    var n :| n in RouteNames(l, chains) && n in m.pools && p in m.pools[n].Values;
    NamedIff(l, chains, n);
    PoolsByRouteSound(Entries(configs), n, p);
    var e :| e in Entries(configs) && e.config == n && e.route.Pool() == Some(p);
    EntriesComplete(configs);
    var g :| g in configs && e.config == g.name && e.route in RoutesIn(g);
    assert p in OwnPools(e.route);
  }

  lemma ReachedIsServed(
    listeners: seq<Listener>, configs: seq<RouteConfiguration>, served: map<string, seq<InferencePool>>,
    chains: ChainState, l: Listener, p: InferencePool)
    requires WellNamed(listeners, configs) && AllChains(listeners) <= chains.Keys
    requires Serves(served, BuildMatrix(listeners, configs, chains)) && l in listeners && !IsProbe(l.name)
    requires ChainsOf(l) <= chains.Keys && p in ListenerPools(l, configs, chains)
    ensures p in PoolsFor(served, l.name)
  {
    var m := BuildMatrix(listeners, configs, chains);
    ListenersByNameComplete(listeners, l);
    ServedElements(served, m, l.name);
    var g, r :| g in configs && Asks(l, chains, g.name) && r in RoutesIn(g) && p in OwnPools(r);
    NamedIff(l, chains, g.name);
    EntriesComplete(configs);
    assert Entry(g.name, r) in Entries(configs);
    PoolsByRouteComplete(Entries(configs), Entry(g.name, r));
    ConfigsByNameComplete(configs, g);
    assert p in m.pools[g.name].Values;
    assert p in ServedPools(m, l.name);
  }

  /** Whatever order the maps were enumerated in, a listener is given exactly the pools of its routes. */
  lemma ServedPoolsExact(
    listeners: seq<Listener>, configs: seq<RouteConfiguration>, served: map<string, seq<InferencePool>>,
    chains: ChainState, l: Listener)
    requires WellNamed(listeners, configs) && AllChains(listeners) <= chains.Keys
    requires Serves(served, BuildMatrix(listeners, configs, chains)) && l in listeners && !IsProbe(l.name)
    ensures ChainsOf(l) <= AllChains(listeners)
    ensures Elements(PoolsFor(served, l.name)) == ListenerPools(l, configs, chains)
  {
    assert ChainsOf(l) <= AllChains(listeners);
    forall p ensures p in Elements(PoolsFor(served, l.name)) <==> p in ListenerPools(l, configs, chains) {
      if p in PoolsFor(served, l.name) {
        ServedIsReached(listeners, configs, served, chains, l, p);
      } else if p in ListenerPools(l, configs, chains) {
        ReachedIsServed(listeners, configs, served, chains, l, p);
      }
    }
  }

  lemma ServedNamesExact(
    listeners: seq<Listener>, configs: seq<RouteConfiguration>, served: map<string, seq<InferencePool>>,
    chains: ChainState, l: Listener)
    requires WellNamed(listeners, configs) && AllChains(listeners) <= chains.Keys
    requires Serves(served, BuildMatrix(listeners, configs, chains)) && l in listeners && !IsProbe(l.name)
    ensures ChainsOf(l) <= AllChains(listeners)
    ensures PoolNames(PoolsFor(served, l.name)) == ListenerPoolNames(l, configs, chains)
  {
    ServedPoolsExact(listeners, configs, served, chains, l);
    assert forall p :: p in PoolsFor(served, l.name) <==> p in ListenerPools(l, configs, chains);
  }

  /** A non-probe listener one of whose chains asks for a config that has the route in one of its hosts. */
  ghost predicate Leads(
    listeners: seq<Listener>, configs: seq<RouteConfiguration>, chains: ChainState, l: Listener, g: RouteConfiguration,
    r: Route)
  {
    && l in listeners && !IsProbe(l.name) && ChainsOf(l) <= chains.Keys
    && g in configs && Asks(l, chains, g.name) && (exists v :: v in g.virtualHosts && r in v.routes)
  }

  /** The picker names switched off on a route: those served by any listener that leads to it, but its own. */
  ghost function ForeignNames(
    listeners: seq<Listener>, configs: seq<RouteConfiguration>, chains: ChainState, r: Route): set<string>
  {
    set l, g, k |
      l in listeners && g in configs && Leads(listeners, configs, chains, l, g, r)
      && k in ListenerPoolNames(l, configs, chains) && k !in r.OwnName() :: k
  }

  lemma ForeignIsNamed(
    listeners: seq<Listener>, configs: seq<RouteConfiguration>, served: map<string, seq<InferencePool>>,
    chains: ChainState, r: Route, k: string)
    requires WellNamed(listeners, configs) && AllChains(listeners) == chains.Keys
    requires Serves(served, BuildMatrix(listeners, configs, chains))
    requires k in Foreign(BuildMatrix(listeners, configs, chains), served, served.Keys, r)
    ensures k in ForeignNames(listeners, configs, chains, r)
  {
    var m := BuildMatrix(listeners, configs, chains);
    var n :| n in served && Named(m, n, r) && k in PoolNames(served[n]) && k !in r.OwnName();
    ListenersByNameSound(listeners);
    ConfigsByNameSound(configs);
    var l := ListenersByName(listeners)[n];
    ServedNamesExact(listeners, configs, served, chains, l);
    var c :| c in m.routeNames[n] && c in m.configs && r in RoutesIn(m.configs[c]);
    NamedIff(l, chains, c);
    assert Leads(listeners, configs, chains, l, m.configs[c], r);
  }

  lemma NamedIsForeign(
    listeners: seq<Listener>, configs: seq<RouteConfiguration>, served: map<string, seq<InferencePool>>,
    chains: ChainState, r: Route, k: string)
    requires WellNamed(listeners, configs) && AllChains(listeners) == chains.Keys
    requires Serves(served, BuildMatrix(listeners, configs, chains))
    requires k in ForeignNames(listeners, configs, chains, r)
    ensures k in Foreign(BuildMatrix(listeners, configs, chains), served, served.Keys, r)
  {
    var m := BuildMatrix(listeners, configs, chains);
    var l, g :| l in listeners && g in configs && Leads(listeners, configs, chains, l, g, r)
                && k in ListenerPoolNames(l, configs, chains) && k !in r.OwnName();
    ServedNamesExact(listeners, configs, served, chains, l);
    ListenersByNameComplete(listeners, l);
    ConfigsByNameComplete(configs, g);
    NamedIff(l, chains, g.name);
    assert r in RoutesIn(g);
    assert PoolsFor(served, l.name) != [];
    assert m.routeNames[l.name] == RouteNames(l, chains);
    assert Named(m, l.name, r);
  }

  lemma ForeignExact(
    listeners: seq<Listener>, configs: seq<RouteConfiguration>, served: map<string, seq<InferencePool>>,
    chains: ChainState, r: Route)
    requires WellNamed(listeners, configs) && AllChains(listeners) == chains.Keys
    requires Serves(served, BuildMatrix(listeners, configs, chains))
    ensures Foreign(BuildMatrix(listeners, configs, chains), served, served.Keys, r)
         == ForeignNames(listeners, configs, chains, r)
  {
    var m := BuildMatrix(listeners, configs, chains);
    forall k ensures k in Foreign(m, served, served.Keys, r) <==> k in ForeignNames(listeners, configs, chains, r) {
      if k in Foreign(m, served, served.Keys, r) {
        ForeignIsNamed(listeners, configs, served, chains, r, k);
      } else if k in ForeignNames(listeners, configs, chains, r) {
        NamedIsForeign(listeners, configs, served, chains, r, k);
      }
    }
  }

  // ---------- One chain and one route ----------

  /** A listener chain with a connection manager and a route of a config that the listener names. */
  ghost predicate Reaches(
    listeners: seq<Listener>, configs: seq<RouteConfiguration>, chains: ChainState,
    l: Listener, c: FilterChain, g: RouteConfiguration, r: Route)
  {
    Leads(listeners, configs, chains, l, g, r)
    && (c in l.filterChains || c == l.defaultFilterChain) && c in chains && HcmIn(chains[c]).Some?
  }

  ghost function HttpFilters(chains: ChainState, c: FilterChain): seq<HttpFilter>
    requires c in chains && HcmIn(chains[c]).Some?
  {
    HcmIn(chains[c]).value.httpFilters
  }

  /** The names of the pickers that run for a route in a chain. */
  ghost function RunningPickers(state: Snapshot, c: FilterChain, r: Route): set<string>
    requires c in state.chains && r in state.routes && HcmIn(state.chains[c]).Some?
  {
    ActivePickers(HttpFilters(state.chains, c), state.routes[r])
  }

  /** The picker filters that run for a route in a chain. */
  ghost function Running(state: Snapshot, c: FilterChain, r: Route): set<HttpFilter>
    requires c in state.chains && r in state.routes && HcmIn(state.chains[c]).Some?
  {
    RunningFilters(HttpFilters(state.chains, c), state.routes[r])
  }

  /** The contents of one reachable chain after the rewrite. */
  lemma ChainAfter(
    listeners: seq<Listener>, configs: seq<RouteConfiguration>, served: map<string, seq<InferencePool>>,
    before: Snapshot, after: Snapshot, l: Listener, c: FilterChain)
    requires WellFormed(listeners, before.chains) && Rewritten(listeners, configs, served, before, after)
    requires UniqueListeners(listeners) && l in listeners && !IsProbe(l.name) && c in ChainsOf(l)
    ensures c in before.chains && c in after.chains && HasRouter(before.chains[c])
    ensures after.chains[c] == PatchedChain(before.chains[c], PoolsFor(served, l.name))
  {
    ListenersByNameComplete(listeners, l);
    var pools := PoolsDone(served, served.Keys, l.name);
    assert ListenerPatched(ListenersByName(listeners)[l.name], pools, before.chains, after.chains);
  }

  /** The overrides of one reachable route after the rewrite. */
  lemma RouteAfter(
    listeners: seq<Listener>, configs: seq<RouteConfiguration>, served: map<string, seq<InferencePool>>,
    before: Snapshot, after: Snapshot, l: Listener, g: RouteConfiguration, r: Route)
    requires WellFormed(listeners, before.chains) && WellNamed(listeners, configs)
    requires Rewritten(listeners, configs, served, before, after)
    requires Leads(listeners, configs, before.chains, l, g, r) && before.routes.Keys == AllRoutes(configs)
    ensures r in before.routes && r in after.routes
    ensures after.routes[r] == Disable(before.routes[r], ForeignNames(listeners, configs, before.chains, r))
    ensures ListenerPoolNames(l, configs, before.chains) - r.OwnName() <= ForeignNames(listeners, configs, before.chains, r)
    ensures r.OwnName() <= ListenerPoolNames(l, configs, before.chains)
    ensures r.OwnName() !! ForeignNames(listeners, configs, before.chains, r)
  {
    var m := BuildMatrix(listeners, configs, before.chains);
    ConfigsByNameComplete(configs, g);
    assert r in RoutesIn(g) && r in NamedRoutes(m.configs);
    assert RoutePatched(m, served, served.Keys, before.routes, after.routes, r);
    ForeignExact(listeners, configs, served, before.chains, r);
    OwnPoolIsReached(configs, before.chains, l, g, r);
  }

  /** Exactly which picker names run after the rewrite, with no assumption on the filters and overrides that
      were there before. */
  lemma RunningPickersExact(
    listeners: seq<Listener>, configs: seq<RouteConfiguration>, served: map<string, seq<InferencePool>>,
    before: Snapshot, after: Snapshot, l: Listener, c: FilterChain, g: RouteConfiguration, r: Route)
    requires WellFormed(listeners, before.chains) && WellNamed(listeners, configs)
    requires Rewritten(listeners, configs, served, before, after)
    requires Reaches(listeners, configs, before.chains, l, c, g, r) && before.routes.Keys == AllRoutes(configs)
    ensures c in after.chains && r in before.routes && r in after.routes && HcmIn(after.chains[c]).Some?
    ensures RunningPickers(after, c, r)
            == PickersIn(HttpFilters(before.chains, c)) + ListenerPoolNames(l, configs, before.chains)
               - DisabledBy(before.routes[r]) - ForeignNames(listeners, configs, before.chains, r)
  {
    var pools := PoolsFor(served, l.name);
    ChainAfter(listeners, configs, served, before, after, l, c);
    RouteAfter(listeners, configs, served, before, after, l, g, r);
    ServedNamesExact(listeners, configs, served, before.chains, l);
    PatchedHcm(before.chains[c], pools);
    ActiveAfterPatch(HttpFilters(before.chains, c), pools, before.routes[r],
      ForeignNames(listeners, configs, before.chains, r));
  }

  /** The pickers of a list, with the filters of the pools whose names it lacks, but for the names in off. */
  ghost function RunsAfter(filters: seq<HttpFilter>, pools: set<InferencePool>, off: set<string>): set<HttpFilter> {
    set f | f in PickerFilters(filters) + AddedFilters(filters, pools) && f.name !in off
  }

  ghost function PickerFilters(filters: seq<HttpFilter>): set<HttpFilter> {
    set f | f in filters && IsPicker(f.name)
  }

  ghost function AddedFilters(filters: seq<HttpFilter>, pools: set<InferencePool>): set<HttpFilter> {
    set p | p in pools && FilterName(p) !in FilterNames(filters) :: PoolFilter(p)
  }

  /** The names switched off for a route: disabled before, or foreign. */
  ghost function Off(
    listeners: seq<Listener>, configs: seq<RouteConfiguration>, before: Snapshot, r: Route): set<string>
    requires r in before.routes
  {
    DisabledBy(before.routes[r]) + ForeignNames(listeners, configs, before.chains, r)
  }

  lemma RunsAfterPatch(
    filters: seq<HttpFilter>, pools: seq<InferencePool>, overrides: map<string, PerRouteConfig>, foreign: set<string>)
    requires filters != []
    ensures RunningFilters(InsertPools(filters, pools), Disable(overrides, foreign))
         == RunsAfter(filters, Elements(pools), DisabledBy(overrides) + foreign)
  {
    forall f
      ensures f in RunningFilters(InsertPools(filters, pools), Disable(overrides, foreign))
              <==> f in RunsAfter(filters, Elements(pools), DisabledBy(overrides) + foreign)
    {
      RunningAfterPatch(filters, pools, overrides, foreign, f);
      assert f in NewFilters(filters, pools) <==> f in AddedFilters(filters, Elements(pools));
    }
  }

  /** The same of the filters themselves: a filter runs if it was there, or is the filter of a served pool
      whose name was not, and its name is neither disabled nor foreign. */
  lemma RunningExact(
    listeners: seq<Listener>, configs: seq<RouteConfiguration>, served: map<string, seq<InferencePool>>,
    before: Snapshot, after: Snapshot, l: Listener, c: FilterChain, g: RouteConfiguration, r: Route)
    requires WellFormed(listeners, before.chains) && WellNamed(listeners, configs)
    requires Rewritten(listeners, configs, served, before, after)
    requires Reaches(listeners, configs, before.chains, l, c, g, r) && before.routes.Keys == AllRoutes(configs)
    ensures c in after.chains && r in before.routes && r in after.routes && HcmIn(after.chains[c]).Some?
    ensures Running(after, c, r)
         == RunsAfter(HttpFilters(before.chains, c), ListenerPools(l, configs, before.chains),
              Off(listeners, configs, before, r))
  {
    var pools := PoolsFor(served, l.name);
    ChainAfter(listeners, configs, served, before, after, l, c);
    RouteAfter(listeners, configs, served, before, after, l, g, r);
    ServedPoolsExact(listeners, configs, served, before.chains, l);
    PatchedHcm(before.chains[c], pools);
    RunsAfterPatch(HttpFilters(before.chains, c), pools, before.routes[r],
      ForeignNames(listeners, configs, before.chains, r));
  }

  /** Nothing in the state before keeps a chain from running exactly a route's own filter: the own name is not
      disabled; every picker already there is the own filter or switched off; and no pool of the own name that
      is still to be added has another filter. */
  ghost predicate Clear(filters: seq<HttpFilter>, pools: set<InferencePool>, off: set<string>, r: Route) {
    && r.OwnName() !! off
    && (forall f :: f in filters && IsPicker(f.name) ==> f in OwnFilter(r) || f.name in off)
    && (forall p :: p in pools && FilterName(p) in r.OwnName() && FilterName(p) !in FilterNames(filters) ==>
          PoolFilter(p) in OwnFilter(r))
  }

  ghost predicate Unobstructed(
    listeners: seq<Listener>, configs: seq<RouteConfiguration>, before: Snapshot, l: Listener, c: FilterChain, r: Route)
    requires ChainsOf(l) <= before.chains.Keys && c in before.chains && HcmIn(before.chains[c]).Some?
    requires r in before.routes
  {
    Clear(HttpFilters(before.chains, c), ListenerPools(l, configs, before.chains),
      Off(listeners, configs, before, r), r)
  }

  /** The property the rewrite is for holds of a chain and a route exactly when the state before is
      unobstructed. */
  lemma OwnFilterOnlyIff(
    listeners: seq<Listener>, configs: seq<RouteConfiguration>, served: map<string, seq<InferencePool>>,
    before: Snapshot, after: Snapshot, l: Listener, c: FilterChain, g: RouteConfiguration, r: Route)
    requires WellFormed(listeners, before.chains) && WellNamed(listeners, configs)
    requires Rewritten(listeners, configs, served, before, after)
    requires Reaches(listeners, configs, before.chains, l, c, g, r) && before.routes.Keys == AllRoutes(configs)
    ensures c in after.chains && r in before.routes && r in after.routes && HcmIn(after.chains[c]).Some?
    ensures Running(after, c, r) == OwnFilter(r) <==> Unobstructed(listeners, configs, before, l, c, r)
  {
    RunningExact(listeners, configs, served, before, after, l, c, g, r);
    RouteAfter(listeners, configs, served, before, after, l, g, r);
    OwnPoolIsReached(configs, before.chains, l, g, r);
    FilterArithmetic(HttpFilters(before.chains, c), ListenerPools(l, configs, before.chains),
      Off(listeners, configs, before, r), r);
  }

  lemma OwnPoolIsReached(
    configs: seq<RouteConfiguration>, chains: ChainState, l: Listener, g: RouteConfiguration, r: Route)
    requires ChainsOf(l) <= chains.Keys && g in configs && Asks(l, chains, g.name)
    requires exists v :: v in g.virtualHosts && r in v.routes
    ensures OwnPools(r) <= ListenerPools(l, configs, chains)
  {
  }

  /** The set arithmetic of it. */
  lemma FilterArithmetic(filters: seq<HttpFilter>, pools: set<InferencePool>, off: set<string>, r: Route)
    requires OwnPools(r) <= pools && NamesOf(pools) - r.OwnName() <= off
    ensures RunsAfter(filters, pools, off) == OwnFilter(r) <==> Clear(filters, pools, off, r)
  {
    var running := RunsAfter(filters, pools, off);
    if running == OwnFilter(r) {
      ExactIsClear(filters, pools, off, r);
    }
    if Clear(filters, pools, off, r) {
      ClearIsExact(filters, pools, off, r);
    }
  }

  lemma ExactIsClear(filters: seq<HttpFilter>, pools: set<InferencePool>, off: set<string>, r: Route)
    requires OwnPools(r) <= pools && RunsAfter(filters, pools, off) == OwnFilter(r)
    ensures Clear(filters, pools, off, r)
  {
    var running := RunsAfter(filters, pools, off);
    assert forall f :: f in OwnFilter(r) ==> f in running;
    assert r.Pool().Some? ==> PoolFilter(r.Pool().value) in OwnFilter(r);
    assert forall f :: f in filters && IsPicker(f.name) && f.name !in off ==> f in running;
    forall p | p in pools && FilterName(p) in r.OwnName() && FilterName(p) !in FilterNames(filters)
      ensures PoolFilter(p) in OwnFilter(r)
    {
      assert PoolFilter(p) in AddedFilters(filters, pools);
      assert PoolFilter(p) in running;
    }
  }

  lemma ClearIsExact(filters: seq<HttpFilter>, pools: set<InferencePool>, off: set<string>, r: Route)
    requires OwnPools(r) <= pools && NamesOf(pools) - r.OwnName() <= off && Clear(filters, pools, off, r)
    ensures RunsAfter(filters, pools, off) == OwnFilter(r)
  {
    var running := RunsAfter(filters, pools, off);
    forall f | f in running ensures f in OwnFilter(r) {
      if f !in PickerFilters(filters) {
        var p :| p in pools && FilterName(p) !in FilterNames(filters) && f == PoolFilter(p);
        assert FilterName(p) in NamesOf(pools);
      }
    }
    if r.Pool().Some? {
      var p := r.Pool().value;
      assert p in OwnPools(r) && IsPicker(FilterName(p)) && FilterName(p) !in off;
      if FilterName(p) in FilterNames(filters) {
        var h :| h in filters && h.name == FilterName(p);
        assert h in OwnFilter(r) && h in PickerFilters(filters);
      } else {
        assert PoolFilter(p) in AddedFilters(filters, pools);
      }
    }
  }

  /** The name-level version of the property: exactly when one name runs, the route's own, or none. */
  lemma OwnPickerOnlyIff(
    listeners: seq<Listener>, configs: seq<RouteConfiguration>, served: map<string, seq<InferencePool>>,
    before: Snapshot, after: Snapshot, l: Listener, c: FilterChain, g: RouteConfiguration, r: Route)
    requires WellFormed(listeners, before.chains) && WellNamed(listeners, configs)
    requires Rewritten(listeners, configs, served, before, after)
    requires Reaches(listeners, configs, before.chains, l, c, g, r) && before.routes.Keys == AllRoutes(configs)
    ensures c in after.chains && r in before.routes && r in after.routes && HcmIn(after.chains[c]).Some?
    ensures RunningPickers(after, c, r) == r.OwnName()
            <==> && r.OwnName() !! DisabledBy(before.routes[r])
                 && PickersIn(HttpFilters(before.chains, c))
                    <= r.OwnName() + DisabledBy(before.routes[r]) + ForeignNames(listeners, configs, before.chains, r)
  {
    RunningPickersExact(listeners, configs, served, before, after, l, c, g, r);
    RouteAfter(listeners, configs, served, before, after, l, g, r);
    OwnOnly(PickersIn(HttpFilters(before.chains, c)), ListenerPoolNames(l, configs, before.chains),
      DisabledBy(before.routes[r]), ForeignNames(listeners, configs, before.chains, r), r.OwnName());
  }

  lemma OwnOnly(before: set<string>, names: set<string>, disabled: set<string>, foreign: set<string>, own: set<string>)
    requires names - own <= foreign && own <= names && own !! foreign
    ensures before + names - disabled - foreign == own
            <==> own !! disabled && before <= own + disabled + foreign
  {
    var running := before + names - disabled - foreign;
    if running == own {
      assert forall k :: k in own ==> k in running;
      assert forall k :: k in before ==> k in disabled || k in foreign || k in running;
    }
  }

  /** The failing family: a pool that shares the route's filter name but not its filter, and is added beside
      it, runs for the route too. */
  lemma SharedNameRunsForeign(
    listeners: seq<Listener>, configs: seq<RouteConfiguration>, served: map<string, seq<InferencePool>>,
    before: Snapshot, after: Snapshot, l: Listener, c: FilterChain, g: RouteConfiguration, r: Route, q: InferencePool)
    requires WellFormed(listeners, before.chains) && WellNamed(listeners, configs)
    requires Rewritten(listeners, configs, served, before, after)
    requires Reaches(listeners, configs, before.chains, l, c, g, r) && before.routes.Keys == AllRoutes(configs)
    requires q in ListenerPools(l, configs, before.chains) && FilterName(q) in r.OwnName()
    requires PoolFilter(q) !in OwnFilter(r) && FilterName(q) !in FilterNames(HttpFilters(before.chains, c))
    requires r in before.routes && r.OwnName() !! DisabledBy(before.routes[r])
    ensures c in after.chains && r in after.routes && HcmIn(after.chains[c]).Some?
    ensures OwnFilter(r) + {PoolFilter(q)} <= Running(after, c, r)
  {
    RunningExact(listeners, configs, served, before, after, l, c, g, r);
    RouteAfter(listeners, configs, served, before, after, l, g, r);
    OwnPoolIsReached(configs, before.chains, l, g, r);
    BothAdded(HttpFilters(before.chains, c), ListenerPools(l, configs, before.chains),
      Off(listeners, configs, before, r), r, q);
  }

  lemma BothAdded(filters: seq<HttpFilter>, pools: set<InferencePool>, off: set<string>, r: Route, q: InferencePool)
    requires OwnPools(r) <= pools && q in pools && FilterName(q) in r.OwnName() && r.OwnName() !! off
    requires FilterName(q) !in FilterNames(filters)
    ensures OwnFilter(r) + {PoolFilter(q)} <= RunsAfter(filters, pools, off)
  {
    var p := r.Pool().value;
    assert p in OwnPools(r) && FilterName(p) == FilterName(q);
    assert PoolFilter(p) in AddedFilters(filters, pools) && PoolFilter(q) in AddedFilters(filters, pools);
  }

  // ---------- All chains and all routes ----------

  /** Pools that share a filter name share the filter. */
  ghost predicate FiltersAgree(pools: set<InferencePool>) {
    forall p, q :: p in pools && q in pools && FilterName(p) == FilterName(q) ==> PoolFilter(p) == PoolFilter(q)
  }

  /** No listener leads to two pools of one filter name and different filters. */
  ghost predicate ListenersAgree(listeners: seq<Listener>, configs: seq<RouteConfiguration>, chains: ChainState) {
    forall l :: l in listeners && !IsProbe(l.name) && ChainsOf(l) <= chains.Keys ==>
      FiltersAgree(ListenerPools(l, configs, chains))
  }

  /** A picker in a chain of the listener is the filter of a pool the listener leads to. */
  ghost predicate CleanChain(l: Listener, configs: seq<RouteConfiguration>, chains: ChainState, c: FilterChain)
    requires ChainsOf(l) <= chains.Keys && c in chains && HcmIn(chains[c]).Some?
  {
    forall f :: f in HttpFilters(chains, c) && IsPicker(f.name) ==>
      exists p :: p in ListenerPools(l, configs, chains) && f == PoolFilter(p)
  }

  ghost predicate CleanChains(listeners: seq<Listener>, configs: seq<RouteConfiguration>, chains: ChainState) {
    forall l, c ::
      l in listeners && !IsProbe(l.name) && c in ChainsOf(l) && ChainsOf(l) <= chains.Keys && HcmIn(chains[c]).Some?
      ==> CleanChain(l, configs, chains, c)
  }

  /** No route's own picker is disabled on it. */
  ghost predicate OwnEnabled(configs: seq<RouteConfiguration>, routes: RouteState) {
    forall r :: r in AllRoutes(configs) && r in routes ==> r.OwnName() !! DisabledBy(routes[r])
  }

  /** Nothing stale is in the way.  An untouched translation and a rewritten one both qualify. */
  ghost predicate CleanStart(listeners: seq<Listener>, configs: seq<RouteConfiguration>, state: Snapshot) {
    CleanChains(listeners, configs, state.chains) && OwnEnabled(configs, state.routes)
  }

  /** For every chain and every route it leads to, the picker filters that run are the route's own or none. */
  ghost predicate OwnFiltersOnly(listeners: seq<Listener>, configs: seq<RouteConfiguration>, state: Snapshot) {
    forall l, c, g, r ::
      l in listeners && c in state.chains && g in configs && r in state.routes
      && Reaches(listeners, configs, state.chains, l, c, g, r)
      ==> Running(state, c, r) == OwnFilter(r)
  }

  lemma ChainKept(
    listeners: seq<Listener>, configs: seq<RouteConfiguration>, served: map<string, seq<InferencePool>>,
    before: Snapshot, after: Snapshot, c: FilterChain)
    requires WellFormed(listeners, before.chains) && c in before.chains
    requires Rewritten(listeners, configs, served, before, after)
    ensures HasRouter(after.chains[c]) && RdsOf(after.chains[c]) == RdsOf(before.chains[c])
    ensures HcmIn(after.chains[c]).Some? <==> HcmIn(before.chains[c]).Some?
  {
    var byName := ListenersByName(listeners);
    if c in NamedChains(byName) {
      var n :| n in byName && c in ChainsOf(byName[n]);
      var pools := PoolsDone(served, served.Keys, n);
      assert ListenerPatched(byName[n], pools, before.chains, after.chains);
      PatchedHcm(before.chains[c], pools);
    }
  }

  lemma ListenerNamesKept(l: Listener, a: ChainState, b: ChainState)
    requires ChainsOf(l) <= a.Keys && ChainsOf(l) <= b.Keys
    requires forall c :: c in ChainsOf(l) ==> RdsOf(a[c]) == RdsOf(b[c])
    ensures RouteNames(l, a) == RouteNames(l, b)
  {
    assert forall c :: c in ChainList(l) ==> c in ChainsOf(l);
    ChainNamesKept(l.filterChains, a, b);
  }

  lemma AsksKept(l: Listener, a: ChainState, b: ChainState, name: string)
    requires ChainsOf(l) <= a.Keys && ChainsOf(l) <= b.Keys
    requires forall c :: c in ChainsOf(l) ==> RdsOf(a[c]) == RdsOf(b[c])
    ensures Asks(l, a, name) <==> Asks(l, b, name)
  {
    ListenerNamesKept(l, a, b);
    NamedIff(l, a, name);
    NamedIff(l, b, name);
  }

  /** The rewrite leaves the route configs every listener asks for as they were. */
  lemma RouteNamesKept(
    listeners: seq<Listener>, configs: seq<RouteConfiguration>, served: map<string, seq<InferencePool>>,
    before: Snapshot, after: Snapshot)
    requires WellFormed(listeners, before.chains) && Rewritten(listeners, configs, served, before, after)
    ensures WellFormed(listeners, after.chains)
    ensures forall c :: c in before.chains ==> (HcmIn(after.chains[c]).Some? <==> HcmIn(before.chains[c]).Some?)
    ensures forall l :: l in listeners ==>
              ChainsOf(l) <= before.chains.Keys && RouteNames(l, after.chains) == RouteNames(l, before.chains)
    ensures forall l, name {:trigger Asks(l, after.chains, name)} {:trigger Asks(l, before.chains, name)} ::
              l in listeners ==> (Asks(l, after.chains, name) <==> Asks(l, before.chains, name))
  {
    forall c | c in before.chains
      ensures HasRouter(after.chains[c]) && RdsOf(after.chains[c]) == RdsOf(before.chains[c])
      ensures HcmIn(after.chains[c]).Some? <==> HcmIn(before.chains[c]).Some?
    {
      ChainKept(listeners, configs, served, before, after, c);
    }
    forall l | l in listeners
      ensures ChainsOf(l) <= before.chains.Keys && RouteNames(l, after.chains) == RouteNames(l, before.chains)
    {
      assert ChainsOf(l) <= AllChains(listeners);
      ListenerNamesKept(l, after.chains, before.chains);
    }
    forall l, name | l in listeners ensures Asks(l, after.chains, name) <==> Asks(l, before.chains, name) {
      assert ChainsOf(l) <= AllChains(listeners);
      AsksKept(l, after.chains, before.chains, name);
    }
  }

  lemma MatrixKept(listeners: seq<Listener>, configs: seq<RouteConfiguration>, a: ChainState, b: ChainState)
    requires AllChains(listeners) <= a.Keys && AllChains(listeners) <= b.Keys
    requires forall l :: l in listeners ==>
               ChainsOf(l) <= a.Keys && ChainsOf(l) <= b.Keys && RouteNames(l, a) == RouteNames(l, b)
    ensures BuildMatrix(listeners, configs, a) == BuildMatrix(listeners, configs, b)
  {
    ListenersByNameSound(listeners);
  }

  /** A clean chain whose listener's pools agree is unobstructed for every route the listener leads to. */
  lemma CleanIsUnobstructed(
    listeners: seq<Listener>, configs: seq<RouteConfiguration>, before: Snapshot,
    l: Listener, c: FilterChain, g: RouteConfiguration, r: Route)
    requires Reaches(listeners, configs, before.chains, l, c, g, r) && r in before.routes
    requires CleanChain(l, configs, before.chains, c) && FiltersAgree(ListenerPools(l, configs, before.chains))
    requires r.OwnName() !! DisabledBy(before.routes[r])
    ensures Unobstructed(listeners, configs, before, l, c, r)
  {
    var pools := ListenerPools(l, configs, before.chains);
    OwnPoolIsReached(configs, before.chains, l, g, r);
    forall p | p in pools && FilterName(p) in r.OwnName() ensures PoolFilter(p) in OwnFilter(r) {
      assert r.Pool().value in pools;
    }
    forall f | f in HttpFilters(before.chains, c) && IsPicker(f.name)
      ensures f in OwnFilter(r) || f.name in ForeignNames(listeners, configs, before.chains, r)
    {
      var p :| p in pools && f == PoolFilter(p);
      assert f.name in ListenerPoolNames(l, configs, before.chains);
    }
    assert r.OwnName() !! ForeignNames(listeners, configs, before.chains, r);
  }

  /** The main theorem: after the rewrite, every route reached through any chain runs its own pool's picker
      filter and no other, and a route without a pool runs none. */
  lemma OwnFiltersOnlyAfterRewrite(
    listeners: seq<Listener>, configs: seq<RouteConfiguration>, served: map<string, seq<InferencePool>>,
    before: Snapshot, after: Snapshot)
    requires WellFormed(listeners, before.chains) && WellNamed(listeners, configs)
    requires before.routes.Keys == AllRoutes(configs)
    requires Rewritten(listeners, configs, served, before, after)
    requires CleanStart(listeners, configs, before) && ListenersAgree(listeners, configs, before.chains)
    ensures OwnFiltersOnly(listeners, configs, after)
  {
    RouteNamesKept(listeners, configs, served, before, after);
    forall l, c, g, r |
      l in listeners && c in after.chains && g in configs && r in after.routes
      && Reaches(listeners, configs, after.chains, l, c, g, r)
      ensures Running(after, c, r) == OwnFilter(r)
    {
      assert Reaches(listeners, configs, before.chains, l, c, g, r);
      assert r in AllRoutes(configs);
      CleanIsUnobstructed(listeners, configs, before, l, c, g, r);
      OwnFilterOnlyIff(listeners, configs, served, before, after, l, c, g, r);
    }
  }

  /** No chain has a picker yet. */
  ghost predicate NoPickers(listeners: seq<Listener>, chains: ChainState) {
    forall l, c ::
      l in listeners && c in ChainsOf(l) && ChainsOf(l) <= chains.Keys && HcmIn(chains[c]).Some? ==>
      PickersIn(HttpFilters(chains, c)) == {}
  }

  /** From an untouched translation, exactly when the property holds: if and only if no listener leads to two
      pools that share a filter name but not a filter. */
  lemma FreshRewriteIff(
    listeners: seq<Listener>, configs: seq<RouteConfiguration>, served: map<string, seq<InferencePool>>,
    before: Snapshot, after: Snapshot)
    requires WellFormed(listeners, before.chains) && WellNamed(listeners, configs)
    requires before.routes.Keys == AllRoutes(configs)
    requires Rewritten(listeners, configs, served, before, after)
    requires NoPickers(listeners, before.chains) && OwnEnabled(configs, before.routes)
    ensures OwnFiltersOnly(listeners, configs, after) <==> ListenersAgree(listeners, configs, before.chains)
  {
    if ListenersAgree(listeners, configs, before.chains) {
      FreshIsClean(listeners, configs, before);
      OwnFiltersOnlyAfterRewrite(listeners, configs, served, before, after);
    }
    if OwnFiltersOnly(listeners, configs, after) {
      forall l, p, q |
        l in listeners && !IsProbe(l.name) && ChainsOf(l) <= before.chains.Keys
        && p in ListenerPools(l, configs, before.chains) && q in ListenerPools(l, configs, before.chains)
        && FilterName(p) == FilterName(q)
        ensures PoolFilter(p) == PoolFilter(q)
      {
        OwnOnlyMeansAgreement(listeners, configs, served, before, after, l, p, q);
      }
    }
  }

  lemma FreshIsClean(listeners: seq<Listener>, configs: seq<RouteConfiguration>, before: Snapshot)
    requires NoPickers(listeners, before.chains) && OwnEnabled(configs, before.routes)
    ensures CleanStart(listeners, configs, before)
  {
    forall l, c |
      l in listeners && !IsProbe(l.name) && c in ChainsOf(l) && ChainsOf(l) <= before.chains.Keys
      && HcmIn(before.chains[c]).Some?
      ensures CleanChain(l, configs, before.chains, c)
    {
      assert forall f :: f in HttpFilters(before.chains, c) && IsPicker(f.name) ==>
          f.name in PickersIn(HttpFilters(before.chains, c));
    }
  }

  /** A chain and a route that lead to a pool of the listener. */
  lemma PoolIsReached(
    listeners: seq<Listener>, configs: seq<RouteConfiguration>, chains: ChainState, l: Listener, p: InferencePool)
    returns (c: FilterChain, g: RouteConfiguration, r: Route)
    requires l in listeners && !IsProbe(l.name) && ChainsOf(l) <= chains.Keys && p in ListenerPools(l, configs, chains)
    ensures Reaches(listeners, configs, chains, l, c, g, r) && r in AllRoutes(configs) && r.Pool() == Some(p)
  {
    g, r :| g in configs && Asks(l, chains, g.name) && r in RoutesIn(g) && p in OwnPools(r);
    c :| (c in l.filterChains || c == l.defaultFilterChain) && c in chains && HcmIn(chains[c]).Some?
      && HcmIn(chains[c]).value.rds == Some(g.name);
  }

  lemma OwnOnlyMeansAgreement(
    listeners: seq<Listener>, configs: seq<RouteConfiguration>, served: map<string, seq<InferencePool>>,
    before: Snapshot, after: Snapshot, l: Listener, p: InferencePool, q: InferencePool)
    requires WellFormed(listeners, before.chains) && WellNamed(listeners, configs)
    requires before.routes.Keys == AllRoutes(configs)
    requires Rewritten(listeners, configs, served, before, after)
    requires NoPickers(listeners, before.chains) && OwnFiltersOnly(listeners, configs, after)
    requires l in listeners && !IsProbe(l.name) && ChainsOf(l) <= before.chains.Keys
    requires p in ListenerPools(l, configs, before.chains) && q in ListenerPools(l, configs, before.chains)
    requires FilterName(p) == FilterName(q)
    ensures PoolFilter(p) == PoolFilter(q)
  {
    RouteNamesKept(listeners, configs, served, before, after);
    var c, g, r := PoolIsReached(listeners, configs, before.chains, l, p);
    assert Reaches(listeners, configs, after.chains, l, c, g, r);
    OwnFilterOnlyIff(listeners, configs, served, before, after, l, c, g, r);
    assert Running(after, c, r) == OwnFilter(r);
    NoPickerName(HttpFilters(before.chains, c), q);
    ClearMeansAgreement(HttpFilters(before.chains, c), ListenerPools(l, configs, before.chains),
      Off(listeners, configs, before, r), r, p, q);
  }

  lemma ClearMeansAgreement(
    filters: seq<HttpFilter>, pools: set<InferencePool>, off: set<string>, r: Route, p: InferencePool, q: InferencePool)
    requires Clear(filters, pools, off, r) && r.Pool() == Some(p) && q in pools
    requires FilterName(p) == FilterName(q) && FilterName(q) !in FilterNames(filters)
    ensures PoolFilter(p) == PoolFilter(q)
  {
  }

  lemma NoPickerName(filters: seq<HttpFilter>, q: InferencePool)
    requires PickersIn(filters) == {}
    ensures FilterName(q) !in FilterNames(filters)
  {
    assert IsPicker(FilterName(q));
    assert forall f :: f in filters && IsPicker(f.name) ==> f.name in PickersIn(filters);
  }

  /** A clean start stays clean, so the main theorem also covers every later rewrite. */
  lemma CleanAfterRewrite(
    listeners: seq<Listener>, configs: seq<RouteConfiguration>, served: map<string, seq<InferencePool>>,
    before: Snapshot, after: Snapshot)
    requires WellFormed(listeners, before.chains) && WellNamed(listeners, configs)
    requires before.routes.Keys == AllRoutes(configs)
    requires Rewritten(listeners, configs, served, before, after) && CleanStart(listeners, configs, before)
    ensures CleanStart(listeners, configs, after)
    ensures ListenersAgree(listeners, configs, before.chains) ==> ListenersAgree(listeners, configs, after.chains)
  {
    RouteNamesKept(listeners, configs, served, before, after);
    forall l | l in listeners && ChainsOf(l) <= after.chains.Keys
      ensures ListenerPools(l, configs, after.chains) == ListenerPools(l, configs, before.chains)
    {
    }
    forall l, c |
      l in listeners && !IsProbe(l.name) && c in ChainsOf(l) && ChainsOf(l) <= after.chains.Keys
      && HcmIn(after.chains[c]).Some?
      ensures CleanChain(l, configs, after.chains, c)
    {
      CleanChainAfter(listeners, configs, served, before, after, l, c);
    }
    forall r | r in AllRoutes(configs) && r in after.routes ensures r.OwnName() !! DisabledBy(after.routes[r]) {
      OwnNameStaysEnabled(BuildMatrix(listeners, configs, before.chains), served, before.routes, after.routes, r);
    }
  }

  lemma CleanChainAfter(
    listeners: seq<Listener>, configs: seq<RouteConfiguration>, served: map<string, seq<InferencePool>>,
    before: Snapshot, after: Snapshot, l: Listener, c: FilterChain)
    requires WellFormed(listeners, before.chains) && WellNamed(listeners, configs)
    requires Rewritten(listeners, configs, served, before, after) && CleanChains(listeners, configs, before.chains)
    requires l in listeners && !IsProbe(l.name) && c in ChainsOf(l) && ChainsOf(l) <= after.chains.Keys
    requires HcmIn(after.chains[c]).Some?
    requires forall name {:trigger Asks(l, after.chains, name)} :: Asks(l, after.chains, name) <==> Asks(l, before.chains, name)
    ensures CleanChain(l, configs, after.chains, c)
  {
    var pools := PoolsFor(served, l.name);
    ChainAfter(listeners, configs, served, before, after, l, c);
    ServedPoolsExact(listeners, configs, served, before.chains, l);
    PatchedHcm(before.chains[c], pools);
    InsertionAddsPoolFilters(HttpFilters(before.chains, c), pools);
    assert CleanChain(l, configs, before.chains, c);
    forall f | f in HttpFilters(after.chains, c) && IsPicker(f.name)
      ensures exists p :: p in ListenerPools(l, configs, after.chains) && f == PoolFilter(p)
    {
      if f in HttpFilters(before.chains, c) {
        var p :| p in ListenerPools(l, configs, before.chains) && f == PoolFilter(p);
        assert p in ListenerPools(l, configs, after.chains);
      } else {
        var p :| p in pools && f == PoolFilter(p);
        assert p in Elements(pools);
        assert p in ListenerPools(l, configs, after.chains);
      }
    }
  }

  lemma OwnNameStaysEnabled(
    m: Matrix, served: map<string, seq<InferencePool>>, routes: RouteState, routes': RouteState, r: Route)
    requires RoutesPatched(m, served, served.Keys, routes, routes') && r in routes && r in routes'
    requires r !in NamedRoutes(m.configs) ==> routes'[r] == routes[r]
    requires r.OwnName() !! DisabledBy(routes[r])
    ensures r.OwnName() !! DisabledBy(routes'[r])
  {
    if r in NamedRoutes(m.configs) {
      assert RoutePatched(m, served, served.Keys, routes, routes', r);
      DisabledByDisable(routes[r], Foreign(m, served, served.Keys, r));
      assert r.OwnName() !! Foreign(m, served, served.Keys, r);
    }
  }

  /** A listener none of whose routes has a pool keeps its chains as they were. */
  lemma UnservedListenerUnchanged(
    listeners: seq<Listener>, configs: seq<RouteConfiguration>, served: map<string, seq<InferencePool>>,
    before: Snapshot, after: Snapshot, l: Listener)
    requires WellFormed(listeners, before.chains) && WellNamed(listeners, configs)
    requires Rewritten(listeners, configs, served, before, after) && l in listeners
    requires ChainsOf(l) <= before.chains.Keys
    requires IsProbe(l.name) || ListenerPools(l, configs, before.chains) == {}
    ensures forall c :: c in ChainsOf(l) ==> c in after.chains && after.chains[c] == before.chains[c]
  {
    var byName := ListenersByName(listeners);
    ListenersByNameSound(listeners);
    forall c | c in ChainsOf(l) ensures c in after.chains && after.chains[c] == before.chains[c] {
      if IsProbe(l.name) {
        forall n | n in byName ensures c !in ChainsOf(byName[n]) {
          assert byName[n] != l;
        }
        assert c !in NamedChains(byName);
      } else {
        ChainAfter(listeners, configs, served, before, after, l, c);
        ServedPoolsExact(listeners, configs, served, before.chains, l);
        var pools := PoolsFor(served, l.name);
        assert forall p :: p in pools ==> p in Elements(pools);
        assert PoolNames(pools) == {};
        NoPoolNames(pools);
        PatchNothing(before.chains[c]);
      }
    }
  }

  // ---------- Twice the rewrite ----------

  /** Rewriting what has been rewritten changes neither a chain nor an override, whatever orders the two
      runs enumerated their maps in and however often pools were repeated. */
  lemma SecondRewriteChangesNothing(
    listeners: seq<Listener>, configs: seq<RouteConfiguration>,
    served: map<string, seq<InferencePool>>, again: map<string, seq<InferencePool>>,
    start: Snapshot, once: Snapshot, twice: Snapshot)
    requires WellFormed(listeners, start.chains) && WellFormed(listeners, once.chains)
    requires Rewritten(listeners, configs, served, start, once)
    requires Rewritten(listeners, configs, again, once, twice)
    ensures twice == once
  {
    RouteNamesKept(listeners, configs, served, start, once);
    MatrixKept(listeners, configs, start.chains, once.chains);
    var m := BuildMatrix(listeners, configs, start.chains);
    SamePoolNames(m, served, again);
    SecondChains(listeners, configs, served, again, start.chains, once.chains, twice.chains);
    SecondRoutes(m, served, again, start.routes, once.routes, twice.routes);
  }

  lemma SecondChains(
    listeners: seq<Listener>, configs: seq<RouteConfiguration>,
    served: map<string, seq<InferencePool>>, again: map<string, seq<InferencePool>>,
    chains: ChainState, chains': ChainState, chains'': ChainState)
    requires ChainsPatched(ListenersByName(listeners), served, served.Keys, chains, chains')
    requires ChainsPatched(ListenersByName(listeners), again, again.Keys, chains', chains'')
    requires forall n :: n in ListenersByName(listeners) ==> PoolNames(PoolsFor(again, n)) == PoolNames(PoolsFor(served, n))
    requires chains''.Keys == chains'.Keys
    requires forall c :: c in chains' && c !in NamedChains(ListenersByName(listeners)) ==> chains''[c] == chains'[c]
    ensures chains'' == chains'
  {
    forall c | c in chains' ensures chains''[c] == chains'[c] {
      SecondChain(listeners, configs, served, again, chains, chains', chains'', c);
    }
  }

  lemma SecondRoutes(
    m: Matrix, served: map<string, seq<InferencePool>>, again: map<string, seq<InferencePool>>,
    routes: RouteState, routes': RouteState, routes'': RouteState)
    requires forall n :: n in m.routeNames ==> PoolNames(PoolsFor(again, n)) == PoolNames(PoolsFor(served, n))
    requires RoutesPatched(m, served, served.Keys, routes, routes')
    requires RoutesPatched(m, again, again.Keys, routes', routes'')
    requires routes'.Keys == routes''.Keys
    requires forall r :: r in routes' && r !in NamedRoutes(m.configs) ==> routes''[r] == routes'[r]
    ensures routes'' == routes'
  {
    forall r | r in routes' ensures routes''[r] == routes'[r] {
      if r in NamedRoutes(m.configs) {
        assert RoutePatched(m, served, served.Keys, routes, routes', r);
        assert RoutePatched(m, again, again.Keys, routes', routes'', r);
        var foreign := Foreign(m, served, served.Keys, r);
        ForeignSame(m, served, again, r);
        DisableMore(routes[r], foreign, foreign);
        assert foreign + foreign == foreign;
      }
    }
  }

  lemma SamePoolNames(m: Matrix, served: map<string, seq<InferencePool>>, again: map<string, seq<InferencePool>>)
    requires Serves(served, m) && Serves(again, m)
    ensures forall n :: n in m.routeNames ==> PoolNames(PoolsFor(again, n)) == PoolNames(PoolsFor(served, n))
  {
    forall n | n in m.routeNames ensures PoolNames(PoolsFor(again, n)) == PoolNames(PoolsFor(served, n)) {
      ServedElements(again, m, n);
      ServedElements(served, m, n);
      assert forall p :: p in PoolsFor(again, n) <==> p in Elements(PoolsFor(again, n));
      assert forall p :: p in PoolsFor(served, n) <==> p in Elements(PoolsFor(served, n));
    }
  }

  lemma SecondChain(
    listeners: seq<Listener>, configs: seq<RouteConfiguration>,
    served: map<string, seq<InferencePool>>, again: map<string, seq<InferencePool>>,
    chains: ChainState, chains': ChainState, chains'': ChainState, c: FilterChain)
    requires ChainsPatched(ListenersByName(listeners), served, served.Keys, chains, chains')
    requires ChainsPatched(ListenersByName(listeners), again, again.Keys, chains', chains'')
    requires forall n :: n in ListenersByName(listeners) ==> PoolNames(PoolsFor(again, n)) == PoolNames(PoolsFor(served, n))
    requires c in chains' && c in chains''
    requires c !in NamedChains(ListenersByName(listeners)) ==> chains''[c] == chains'[c]
    ensures chains''[c] == chains'[c]
  {
    var byName := ListenersByName(listeners);
    if c in NamedChains(byName) {
      var n :| n in byName && c in ChainsOf(byName[n]);
      var pools := PoolsDone(served, served.Keys, n);
      var pools' := PoolsDone(again, again.Keys, n);
      assert ListenerPatched(byName[n], pools, chains, chains');
      assert ListenerPatched(byName[n], pools', chains', chains'');
      PatchIdempotent(chains[c], pools, pools');
    }
  }

  lemma ForeignSame(m: Matrix, served: map<string, seq<InferencePool>>, again: map<string, seq<InferencePool>>, r: Route)
    requires forall n :: n in m.routeNames ==> PoolNames(PoolsFor(again, n)) == PoolNames(PoolsFor(served, n))
    ensures Foreign(m, again, again.Keys, r) == Foreign(m, served, served.Keys, r)
  {
    assert forall l, k :: l in m.routeNames ==>
                            (l in served && k in PoolNames(served[l]) <==> k in PoolNames(PoolsFor(served, l)))
                            && (l in again && k in PoolNames(again[l]) <==> k in PoolNames(PoolsFor(again, l)));
  }
}
