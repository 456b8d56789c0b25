/** The rewrite of listeners and routes: which pools each listener serves, the endpoint-picker filters
    its chains receive, and the filters every route switches off. */
module Rewrite {
  import opened Text
  import opened InferencePools
  import opened FilterChains

  class FilterChain {
    var filters: seq<NetworkFilter>

    constructor (filters: seq<NetworkFilter>)
      ensures this.filters == filters
    {
      this.filters := filters;
    }
  }

  datatype Listener = Listener(name: string, filterChains: seq<FilterChain>, defaultFilterChain: FilterChain?)

  class Route {
    const name: string
    const metadata: Option<FilterMetadata>
    var typedPerFilterConfig: map<string, PerRouteConfig>

    constructor (name: string, metadata: Option<FilterMetadata>, overrides: map<string, PerRouteConfig>)
      ensures this.name == name && this.metadata == metadata && typedPerFilterConfig == overrides
    {
      this.name, this.metadata, this.typedPerFilterConfig := name, metadata, overrides;
    }

    function Pool(): Option<InferencePool> {
      PoolByMetadata(metadata)
    }

    /** The name of the route's own picker filter: one name or none. */
    function OwnName(): set<string> {
      match Pool() case None => {} case Some(p) => {FilterName(p)}
    }
  }

  datatype VirtualHost = VirtualHost(name: string, routes: seq<Route>)

  datatype RouteConfiguration = RouteConfiguration(name: string, virtualHosts: seq<VirtualHost>)

  /** The listener's filter chains, the default chain last. */
  function ChainList(listener: Listener): seq<FilterChain> {
    listener.filterChains + if listener.defaultFilterChain == null then [] else [listener.defaultFilterChain]
  }

  ghost function ChainsOf(listener: Listener): set<FilterChain> {
    set c | c in ChainList(listener)
  }

  ghost function AllChains(listeners: seq<Listener>): set<FilterChain> {
    set l, c | l in listeners && c in ChainsOf(l) :: c
  }

  ghost function RoutesIn(config: RouteConfiguration): set<Route> {
    set v, r | v in config.virtualHosts && r in v.routes :: r
  }

  ghost function AllRoutes(configs: seq<RouteConfiguration>): set<Route> {
    set g, r | g in configs && r in RoutesIn(g) :: r
  }

  /** Every chain of every listener counts, the default ones included, and every route of every host. */
  lemma AllChainsExact(listeners: seq<Listener>, c: FilterChain)
    ensures c in AllChains(listeners)
            <==> exists l :: l in listeners && (c in l.filterChains || c == l.defaultFilterChain)
  {
    forall l | l in listeners ensures c in ChainsOf(l) <==> c in l.filterChains || c == l.defaultFilterChain {
      assert c in ChainsOf(l) <==> c in ChainList(l);
    }
  }

  lemma AllRoutesExact(configs: seq<RouteConfiguration>, r: Route)
    ensures r in AllRoutes(configs)
            <==> exists g, v :: g in configs && v in g.virtualHosts && r in v.routes
  {
    forall g | g in configs ensures r in RoutesIn(g) <==> exists v :: v in g.virtualHosts && r in v.routes {}
  }

  predicate IsProbe(name: string) {
    "envoy-gateway-proxy-stats-" <= name || "envoy-gateway-proxy-ready-" <= name
  }

  /** A snapshot of chain contents, and one of route overrides. */
  type ChainState = map<FilterChain, seq<NetworkFilter>>

  type RouteState = map<Route, map<string, PerRouteConfig>>

  /** What the rewrite changes: the contents of all chains and the overrides of all routes. */
  datatype Snapshot = Snapshot(chains: ChainState, routes: RouteState)

  ghost function ChainStateOf(chains: set<FilterChain>): (state: ChainState)
    reads chains
    ensures state.Keys == chains && forall c :: c in chains ==> state[c] == c.filters
  {
    map c | c in chains :: c.filters
  }

  ghost function RouteStateOf(routes: set<Route>): (state: RouteState)
    reads routes
    ensures state.Keys == routes && forall r :: r in routes ==> state[r] == r.typedPerFilterConfig
  {
    map r | r in routes :: r.typedPerFilterConfig
  }

  // ---------- Route configs a listener names ----------

  function RdsOf(filters: seq<NetworkFilter>): Option<string> {
    match HcmIn(filters) case None => None case Some(h) => h.rds
  }

  ghost function ChainNames(chains: seq<FilterChain>, state: ChainState): seq<string>
    requires forall c :: c in chains ==> c in state
  {
    if chains == [] then []
    else
      var rds := RdsOf(state[chains[|chains| - 1]]);
      ChainNames(chains[..|chains| - 1], state) + if rds.Some? && rds.value != "" then [rds.value] else []
  }

  /** The route configs the listener's chains ask for.  The default chain adds its name even if empty. */
  ghost function RouteNames(listener: Listener, state: ChainState): seq<string>
    requires ChainsOf(listener) <= state.Keys
  {
    assert forall c :: c in ChainList(listener) ==> c in ChainsOf(listener);
    var rds := if listener.defaultFilterChain == null then None else RdsOf(state[listener.defaultFilterChain]);
    ChainNames(listener.filterChains, state) + if rds.Some? then [rds.value] else []
  }

  lemma ChainNamesStep(chains: seq<FilterChain>, state: ChainState, i: nat)
    requires i < |chains| && forall c :: c in chains ==> c in state
    ensures var rds := RdsOf(state[chains[i]]);
            ChainNames(chains[..i + 1], state)
            == ChainNames(chains[..i], state) + if rds.Some? && rds.value != "" then [rds.value] else []
  {
    assert chains[..i + 1][..i] == chains[..i];
  }

  /** The loop over the listed chains; a chain without connection manager or route discovery adds nothing. */
  method FindChainRouteConfigs(chains: seq<FilterChain>, ghost state: ChainState) returns (names: seq<string>)
    requires forall c :: c in chains ==> c in state && c.filters == state[c]
    ensures names == ChainNames(chains, state)
  {
    names := [];
    for i := 0 to |chains|
      invariant names == ChainNames(chains[..i], state)
    {
      ChainNamesStep(chains, state, i);
      assert chains[i] in chains;
      var hcm := HcmIn(chains[i].filters);
      if hcm.None? || hcm.value.rds.None? {
        continue;
      }
      if hcm.value.rds.value != "" {
        names := names + [hcm.value.rds.value];
      }
    }
    assert chains[..|chains|] == chains;
  }

  method FindListenerRouteConfigs(listener: Listener, ghost state: ChainState) returns (names: seq<string>)
    requires ChainsOf(listener) <= state.Keys
    requires forall c :: c in ChainsOf(listener) ==> c.filters == state[c]
    ensures names == RouteNames(listener, state)
  {
    assert forall c :: c in ChainList(listener) ==> c in ChainsOf(listener);
    names := FindChainRouteConfigs(listener.filterChains, state);
    if listener.defaultFilterChain == null {
      return;
    }
    var hcm := HcmIn(listener.defaultFilterChain.filters);
    if hcm.None? || hcm.value.rds.None? {
      return;
    }
    names := names + [hcm.value.rds.value];
  }

  /** The route config that the chain at a place asks for: the listed chains come first, then the default one.
      A listed chain that asks for the empty name asks for nothing. */
  ghost function AskedAt(listener: Listener, state: ChainState, place: nat): Option<string>
    requires ChainsOf(listener) <= state.Keys
  {
    assert forall c :: c in ChainList(listener) ==> c in ChainsOf(listener);
    if place < |listener.filterChains| then
      (match HcmIn(state[listener.filterChains[place]])
       case None => None
       case Some(hcm) => if hcm.rds == Some("") then None else hcm.rds)
    else if place == |listener.filterChains| && listener.defaultFilterChain != null then
      (match HcmIn(state[listener.defaultFilterChain]) case None => None case Some(hcm) => hcm.rds)
    else None
  }

  /** at lists, in ascending order, the places that ask for something, and names what is asked for there. */
  ghost predicate NamesAt(listener: Listener, state: ChainState, names: seq<string>, at: seq<nat>)
    requires ChainsOf(listener) <= state.Keys
  {
    && Increasing(at) && |names| == |at|
    && (forall i :: 0 <= i < |at| ==> AskedAt(listener, state, at[i]) == Some(names[i]))
    && (forall j: nat :: AskedAt(listener, state, j).Some? ==> j in at)
  }

  /** The same for the first count places. */
  ghost predicate NamesUpTo(listener: Listener, state: ChainState, count: nat, names: seq<string>, at: seq<nat>)
    requires ChainsOf(listener) <= state.Keys
  {
    && Increasing(at) && |names| == |at|
    && (forall i :: 0 <= i < |at| ==> at[i] < count && AskedAt(listener, state, at[i]) == Some(names[i]))
    && (forall j: nat :: j < count && AskedAt(listener, state, j).Some? ==> j in at)
  }

  lemma NamesUpToNext(listener: Listener, state: ChainState, count: nat, names: seq<string>, at: seq<nat>)
    requires ChainsOf(listener) <= state.Keys && NamesUpTo(listener, state, count, names, at)
    ensures match AskedAt(listener, state, count)
            case None => NamesUpTo(listener, state, count + 1, names, at)
            case Some(name) => NamesUpTo(listener, state, count + 1, names + [name], at + [count])
  {
    assert forall j :: j in at + [count] <==> j in at || j == count;
  }

  lemma {:induction false} ListedNamesInOrder(listener: Listener, state: ChainState, k: nat) returns (at: seq<nat>)
    requires ChainsOf(listener) <= state.Keys && k <= |listener.filterChains|
    requires forall c :: c in listener.filterChains ==> c in state
    ensures NamesUpTo(listener, state, k, ChainNames(listener.filterChains[..k], state), at)
  {
    at := [];
    if k > 0 {
      at := ListedNamesInOrder(listener, state, k - 1);
      ChainNamesStep(listener.filterChains, state, k - 1);
      NamesUpToNext(listener, state, k - 1, ChainNames(listener.filterChains[..k - 1], state), at);
      if AskedAt(listener, state, k - 1).Some? {
        at := at + [k - 1];
      }
    }
  }

  /** The names of a listener are those its chains ask for, one for each place that asks, in order. */
  lemma NamesInOrder(listener: Listener, state: ChainState) returns (at: seq<nat>)
    requires ChainsOf(listener) <= state.Keys
    ensures NamesAt(listener, state, RouteNames(listener, state), at)
  {
    var chains, n := listener.filterChains, |listener.filterChains|;
    assert forall c :: c in ChainList(listener) ==> c in ChainsOf(listener);
    at := ListedNamesInOrder(listener, state, n);
    assert chains[..n] == chains;
    NamesUpToNext(listener, state, n, ChainNames(chains, state), at);
    if AskedAt(listener, state, n).Some? {
      at := at + [n];
    }
  }

  /** A chain of the listener, listed or default, has a connection manager that asks for the route config by
      this name; the empty name counts for the default chain alone. */
  ghost predicate Asks(listener: Listener, state: ChainState, name: string) {
    exists c :: (c in listener.filterChains || c == listener.defaultFilterChain) && c in state
      && HcmIn(state[c]).Some? && HcmIn(state[c]).value.rds == Some(name)
      && (name != "" || c == listener.defaultFilterChain)
  }

  /** The chain at a place that asks. */
  ghost function ChainAt(listener: Listener, place: nat): FilterChain? {
    if place < |listener.filterChains| then listener.filterChains[place] else listener.defaultFilterChain
  }

  lemma AskedMeansAsks(listener: Listener, state: ChainState, place: nat)
    requires ChainsOf(listener) <= state.Keys && AskedAt(listener, state, place).Some?
    ensures Asks(listener, state, AskedAt(listener, state, place).value)
  {
    var c := ChainAt(listener, place);
    assert forall d :: d in ChainList(listener) ==> d in ChainsOf(listener);
    assert c in listener.filterChains || c == listener.defaultFilterChain;
  }

  lemma AsksMeansAsked(listener: Listener, state: ChainState, name: string) returns (place: nat)
    requires ChainsOf(listener) <= state.Keys && Asks(listener, state, name)
    ensures AskedAt(listener, state, place) == Some(name)
  {
    var c :| (c in listener.filterChains || c == listener.defaultFilterChain) && c in state
      && HcmIn(state[c]).Some? && HcmIn(state[c]).value.rds == Some(name)
      && (name != "" || c == listener.defaultFilterChain);
    if c == listener.defaultFilterChain {
      place := |listener.filterChains|;
    } else {
      place :| place < |listener.filterChains| && listener.filterChains[place] == c;
    }
  }

  /** A listener names a route config exactly when one of its chains asks for it. */
  lemma NamedIff(listener: Listener, state: ChainState, name: string)
    requires ChainsOf(listener) <= state.Keys
    ensures name in RouteNames(listener, state) <==> Asks(listener, state, name)
  {
    var names := RouteNames(listener, state);
    var at := NamesInOrder(listener, state);
    if name in names {
      var i :| 0 <= i < |names| && names[i] == name;
      AskedMeansAsks(listener, state, at[i]);
    }
    if Asks(listener, state, name) {
      var place := AsksMeansAsked(listener, state, name);
      var i :| 0 <= i < |at| && at[i] == place;
      assert names[i] == name;
    }
  }

  lemma {:induction false} ChainNamesKept(chains: seq<FilterChain>, a: ChainState, b: ChainState)
    requires forall c :: c in chains ==> c in a && c in b && RdsOf(a[c]) == RdsOf(b[c])
    ensures ChainNames(chains, a) == ChainNames(chains, b)
  {
    if chains != [] {
      ChainNamesKept(chains[..|chains| - 1], a, b);
    }
  }

  // ---------- The matrices built from listeners and routes ----------

  /** Listeners by name, probes skipped; the last listener of a name wins. */
  function ListenersByName(listeners: seq<Listener>): map<string, Listener> {
    if listeners == [] then map[]
    else
      var last := listeners[|listeners| - 1];
      var before := ListenersByName(listeners[..|listeners| - 1]);
      if IsProbe(last.name) then before else before[last.name := last]
  }

  lemma {:induction false} ListenersByNameSound(listeners: seq<Listener>)
    ensures forall n :: n in ListenersByName(listeners) ==>
              && ListenersByName(listeners)[n] in listeners
              && ListenersByName(listeners)[n].name == n && !IsProbe(n)
  {
    if listeners != [] {
      ListenersByNameSound(listeners[..|listeners| - 1]);
    }
  }

  predicate UniqueListeners(listeners: seq<Listener>) {
    forall a, b :: a in listeners && b in listeners && a.name == b.name ==> a == b
  }

  lemma {:induction false} ListenersByNameComplete(listeners: seq<Listener>, l: Listener)
    requires l in listeners && !IsProbe(l.name) && UniqueListeners(listeners)
    ensures l.name in ListenersByName(listeners) && ListenersByName(listeners)[l.name] == l
  {
    var init, last := listeners[..|listeners| - 1], listeners[|listeners| - 1];
    assert listeners == init + [last];
    if l in init {
      ListenersByNameComplete(init, l);
    }
  }

  /** Of several listeners of one name the last counts, unless it is a probe's name. */
  lemma {:induction false} LastListenerWins(listeners: seq<Listener>, i: nat)
    requires i < |listeners| && !IsProbe(listeners[i].name)
    requires forall j :: i < j < |listeners| ==> listeners[j].name != listeners[i].name
    ensures listeners[i].name in ListenersByName(listeners) && ListenersByName(listeners)[listeners[i].name] == listeners[i]
  {
    if i < |listeners| - 1 {
      LastListenerWins(listeners[..|listeners| - 1], i);
    }
  }

  /** Exactly the names that are neither a stats nor a readiness listener's are collected. */
  lemma {:induction false} CollectedIff(listeners: seq<Listener>, name: string)
    ensures name in ListenersByName(listeners)
            <==> && (exists l :: l in listeners && l.name == name)
                 && !("envoy-gateway-proxy-stats-" <= name) && !("envoy-gateway-proxy-ready-" <= name)
  {
    if listeners != [] {
      var init, last := listeners[..|listeners| - 1], listeners[|listeners| - 1];
      CollectedIff(init, name);
      assert listeners == init + [last];
      assert last in listeners;
    }
  }

  ghost function RouteNamesByListener(listeners: seq<Listener>, state: ChainState): map<string, seq<string>>
    requires AllChains(listeners) <= state.Keys
  {
    ListenersByNameSound(listeners);
    assert forall n :: n in ListenersByName(listeners) ==>
                         ChainsOf(ListenersByName(listeners)[n]) <= AllChains(listeners);
    map n | n in ListenersByName(listeners) :: RouteNames(ListenersByName(listeners)[n], state)
  }

  function ConfigsByName(configs: seq<RouteConfiguration>): map<string, RouteConfiguration> {
    if configs == [] then map[]
    else ConfigsByName(configs[..|configs| - 1])[configs[|configs| - 1].name := configs[|configs| - 1]]
  }

  lemma {:induction false} ConfigsByNameSound(configs: seq<RouteConfiguration>)
    ensures forall n :: n in ConfigsByName(configs) ==>
              ConfigsByName(configs)[n] in configs && ConfigsByName(configs)[n].name == n
  {
    if configs != [] {
      ConfigsByNameSound(configs[..|configs| - 1]);
    }
  }

  /** Of several route configs of one name the last counts. */
  lemma {:induction false} LastConfigWins(configs: seq<RouteConfiguration>, i: nat)
    requires i < |configs| && forall j :: i < j < |configs| ==> configs[j].name != configs[i].name
    ensures configs[i].name in ConfigsByName(configs) && ConfigsByName(configs)[configs[i].name] == configs[i]
  {
    if i < |configs| - 1 {
      LastConfigWins(configs[..|configs| - 1], i);
    }
  }

  predicate UniqueConfigs(configs: seq<RouteConfiguration>) {
    forall a, b :: a in configs && b in configs && a.name == b.name ==> a == b
  }

  lemma {:induction false} ConfigsByNameComplete(configs: seq<RouteConfiguration>, g: RouteConfiguration)
    requires g in configs && UniqueConfigs(configs)
    ensures g.name in ConfigsByName(configs) && ConfigsByName(configs)[g.name] == g
  {
    var init, last := configs[..|configs| - 1], configs[|configs| - 1];
    assert configs == init + [last];
    if g in init {
      ConfigsByNameComplete(init, g);
    }
  }

  /** A route together with the name of its route config. */
  datatype Entry = Entry(config: string, route: Route)

  function RouteEntries(config: string, routes: seq<Route>): seq<Entry> {
    seq(|routes|, i requires 0 <= i < |routes| => Entry(config, routes[i]))
  }

  function HostEntries(config: string, hosts: seq<VirtualHost>): seq<Entry> {
    if hosts == [] then []
    else HostEntries(config, hosts[..|hosts| - 1]) + RouteEntries(config, hosts[|hosts| - 1].routes)
  }

  /** Every route of every config, in the order they are visited. */
  function Entries(configs: seq<RouteConfiguration>): seq<Entry> {
    if configs == [] then []
    else
      var last := configs[|configs| - 1];
      Entries(configs[..|configs| - 1]) + HostEntries(last.name, last.virtualHosts)
  }

  lemma {:induction false} HostEntriesComplete(config: string, hosts: seq<VirtualHost>)
    ensures forall e :: e in HostEntries(config, hosts) <==>
              e.config == config && exists v :: v in hosts && e.route in v.routes
  {
    if hosts != [] {
      var init, last := hosts[..|hosts| - 1], hosts[|hosts| - 1];
      HostEntriesComplete(config, init);
      assert hosts == init + [last];
      forall e ensures e in RouteEntries(config, last.routes) <==> e.config == config && e.route in last.routes {
        if e.config == config && e.route in last.routes {
          var i :| 0 <= i < |last.routes| && last.routes[i] == e.route;
          assert RouteEntries(config, last.routes)[i] == e;
        }
      }
    }
  }

  lemma {:induction false} EntriesComplete(configs: seq<RouteConfiguration>)
    ensures forall e :: e in Entries(configs) <==>
              exists g :: g in configs && e.config == g.name && e.route in RoutesIn(g)
  {
    if configs != [] {
      var init, last := configs[..|configs| - 1], configs[|configs| - 1];
      EntriesComplete(init);
      HostEntriesComplete(last.name, last.virtualHosts);
      assert configs == init + [last];
    }
  }

  type PoolMatrix = map<string, map<string, InferencePool>>

  function AddEntry(pools: PoolMatrix, e: Entry): PoolMatrix {
    match e.route.Pool()
    case None => pools
    case Some(p) => pools[e.config := (if e.config in pools then pools[e.config] else map[])[e.route.name := p]]
  }

  /** Route config name, then route name, to pool; a later route of the same two names wins. */
  function PoolsByRoute(entries: seq<Entry>): PoolMatrix {
    if entries == [] then map[]
    else AddEntry(PoolsByRoute(entries[..|entries| - 1]), entries[|entries| - 1])
  }

  /** No route with the config and name of e names a pool other than e's. */
  predicate Undisputed(entries: seq<Entry>, e: Entry) {
    forall d :: d in entries && d.config == e.config && d.route.name == e.route.name && d.route.Pool().Some? ==>
      d.route.Pool() == e.route.Pool()
  }

  /** No two routes of one config share a name while naming different pools. */
  predicate NoClash(entries: seq<Entry>) {
    forall e :: e in entries && e.route.Pool().Some? ==> Undisputed(entries, e)
  }

  lemma {:induction false} PoolsByRouteComplete(entries: seq<Entry>, e: Entry)
    requires e in entries && e.route.Pool().Some? && Undisputed(entries, e)
    ensures e.config in PoolsByRoute(entries) && e.route.name in PoolsByRoute(entries)[e.config]
    ensures PoolsByRoute(entries)[e.config][e.route.name] == e.route.Pool().value
  {
    var init, last := entries[..|entries| - 1], entries[|entries| - 1];
    assert entries == init + [last];
    assert last in entries;
    if e in init {
      PoolsByRouteComplete(init, e);
    }
  }

  /** Of several routes of one config and name the last that has a pool counts. */
  lemma {:induction false} LastRouteWins(entries: seq<Entry>, i: nat)
    requires i < |entries| && entries[i].route.Pool().Some?
    requires forall j ::
               i < j < |entries| && entries[j].config == entries[i].config && entries[j].route.name == entries[i].route.name
               ==> entries[j].route.Pool().None?
    ensures entries[i].config in PoolsByRoute(entries)
    ensures entries[i].route.name in PoolsByRoute(entries)[entries[i].config]
    ensures PoolsByRoute(entries)[entries[i].config][entries[i].route.name] == entries[i].route.Pool().value
  {
    if i < |entries| - 1 {
      LastRouteWins(entries[..|entries| - 1], i);
    }
  }

  /** Every entry of the matrix is the pool of a route of that config and name. */
  lemma {:induction false} PoolsByRouteNames(entries: seq<Entry>, config: string, name: string)
    requires config in PoolsByRoute(entries) && name in PoolsByRoute(entries)[config]
    ensures exists e :: e in entries && e.config == config && e.route.name == name
                        && e.route.Pool() == Some(PoolsByRoute(entries)[config][name])
  {
    var init, last := entries[..|entries| - 1], entries[|entries| - 1];
    assert entries == init + [last];
    if last.config == config && last.route.name == name && last.route.Pool().Some? {
      assert last in entries;
    } else {
      PoolsByRouteNames(init, config, name);
    }
  }

  lemma PoolsByRouteSound(entries: seq<Entry>, config: string, p: InferencePool)
    requires config in PoolsByRoute(entries) && p in PoolsByRoute(entries)[config].Values
    ensures exists e :: e in entries && e.config == config && e.route.Pool() == Some(p)
  {
    var name :| name in PoolsByRoute(entries)[config] && PoolsByRoute(entries)[config][name] == p;
    PoolsByRouteNames(entries, config, name);
  }

  /** Everything the first passes gather. */
  datatype Matrix = Matrix(
    routeNames: map<string, seq<string>>, configs: map<string, RouteConfiguration>, pools: PoolMatrix)

  ghost function BuildMatrix(listeners: seq<Listener>, configs: seq<RouteConfiguration>, state: ChainState): Matrix
    requires AllChains(listeners) <= state.Keys
  {
    Matrix(RouteNamesByListener(listeners, state), ConfigsByName(configs), PoolsByRoute(Entries(configs)))
  }

  /** The pools of the routes in the configs the listener names. */
  ghost function ServedPools(m: Matrix, listener: string): set<InferencePool>
    requires listener in m.routeNames
  {
    set n, p | n in m.routeNames[listener] && n in m.configs && n in m.pools && p in m.pools[n].Values :: p
  }

  /** A route name at an occurrence of a route config among the names of a listener. */
  datatype Mention = Mention(at: nat, route: string)

  /** One of the first count configs the listener names has a pool under this route name. */
  ghost predicate IsMention(m: Matrix, listener: string, count: nat, t: Mention) {
    && listener in m.routeNames && t.at < count && t.at < |m.routeNames[listener]|
    && m.routeNames[listener][t.at] in m.configs && m.routeNames[listener][t.at] in m.pools
    && t.route in m.pools[m.routeNames[listener][t.at]]
  }

  ghost function PoolAt(m: Matrix, listener: string, count: nat, t: Mention): InferencePool
    requires IsMention(m, listener, count, t)
  {
    m.pools[m.routeNames[listener][t.at]][t.route]
  }

  /** mentions lists every mention once, in some order, and pools the pool of each. */
  ghost predicate Lists(
    m: Matrix, listener: string, count: nat, pools: seq<InferencePool>, mentions: seq<Mention>)
  {
    && |pools| == |mentions|
    && (forall i, j :: 0 <= i < j < |mentions| ==> mentions[i] != mentions[j])
    && (forall t :: t in mentions <==> IsMention(m, listener, count, t))
    && (forall i :: 0 <= i < |mentions| ==>
          IsMention(m, listener, count, mentions[i]) && pools[i] == PoolAt(m, listener, count, mentions[i]))
  }

  ghost predicate ListsAll(m: Matrix, listener: string, pools: seq<InferencePool>)
    requires listener in m.routeNames
  {
    exists mentions :: Lists(m, listener, |m.routeNames[listener]|, pools, mentions)
  }

  /** served lists, in some order, one pool for every mention of each listener; listeners without pools are
      absent. */
  ghost predicate Serves(served: map<string, seq<InferencePool>>, m: Matrix) {
    && served.Keys <= m.routeNames.Keys
    && forall l {:trigger PoolsFor(served, l)} :: l in m.routeNames ==> ListsAll(m, l, PoolsFor(served, l))
  }

  lemma ListedIsServed(m: Matrix, l: string, pools: seq<InferencePool>, mentions: seq<Mention>, p: InferencePool)
    requires l in m.routeNames && Lists(m, l, |m.routeNames[l]|, pools, mentions) && p in pools
    ensures p in ServedPools(m, l)
  {
    var i :| 0 <= i < |pools| && pools[i] == p;
    assert p == PoolAt(m, l, |m.routeNames[l]|, mentions[i]);
    var n := m.routeNames[l][mentions[i].at];
    assert n in m.routeNames[l] && m.pools[n][mentions[i].route] == p;
    assert p in m.pools[n].Values;
  }

  lemma ServedIsListed(m: Matrix, l: string, pools: seq<InferencePool>, mentions: seq<Mention>, p: InferencePool)
    requires l in m.routeNames && Lists(m, l, |m.routeNames[l]|, pools, mentions) && p in ServedPools(m, l)
    ensures p in pools
  {
    var n :| n in m.routeNames[l] && n in m.configs && n in m.pools && p in m.pools[n].Values;
    var at :| 0 <= at < |m.routeNames[l]| && m.routeNames[l][at] == n;
    var route :| route in m.pools[n] && m.pools[n][route] == p;
    assert IsMention(m, l, |m.routeNames[l]|, Mention(at, route));
    var i :| 0 <= i < |mentions| && mentions[i] == Mention(at, route);
    assert pools[i] == p;
  }

  /** As a set, the list holds the pools of the routes in the configs the listener names. */
  lemma ServedElements(served: map<string, seq<InferencePool>>, m: Matrix, l: string)
    requires Serves(served, m) && l in m.routeNames
    ensures Elements(PoolsFor(served, l)) == ServedPools(m, l)
  {
    var pools := PoolsFor(served, l);
    assert ListsAll(m, l, pools);
    var mentions :| Lists(m, l, |m.routeNames[l]|, pools, mentions);
    forall p ensures p in pools <==> p in ServedPools(m, l) {
      if p in pools {
        ListedIsServed(m, l, pools, mentions, p);
      } else if p in ServedPools(m, l) {
        ServedIsListed(m, l, pools, mentions, p);
      }
    }
  }

  ghost function Elements(pools: seq<InferencePool>): set<InferencePool> {
    set p | p in pools
  }

  function PoolsFor(served: map<string, seq<InferencePool>>, listener: string): seq<InferencePool> {
    if listener in served then served[listener] else []
  }

  /** routeNames gives the route configs of every listener in byName. */
  ghost predicate NamesCollected(routeNames: map<string, seq<string>>, byName: map<string, Listener>, state: ChainState) {
    && routeNames.Keys == byName.Keys
    && forall n :: n in byName ==> ChainsOf(byName[n]) <= state.Keys && routeNames[n] == RouteNames(byName[n], state)
  }

  lemma NamesAdd(routeNames: map<string, seq<string>>, byName: map<string, Listener>, state: ChainState, l: Listener)
    requires NamesCollected(routeNames, byName, state) && ChainsOf(l) <= state.Keys
    ensures NamesCollected(routeNames[l.name := RouteNames(l, state)], byName[l.name := l], state)
  {
  }

  lemma NamesComplete(routeNames: map<string, seq<string>>, listeners: seq<Listener>, state: ChainState)
    requires AllChains(listeners) <= state.Keys && NamesCollected(routeNames, ListenersByName(listeners), state)
    ensures routeNames == RouteNamesByListener(listeners, state)
  {
  }

  lemma ListenersByNameStep(listeners: seq<Listener>, i: nat)
    requires i < |listeners|
    ensures ListenersByName(listeners[..i + 1])
            == if IsProbe(listeners[i].name) then ListenersByName(listeners[..i])
               else ListenersByName(listeners[..i])[listeners[i].name := listeners[i]]
  {
    assert listeners[..i + 1][..i] == listeners[..i];
  }

  method CollectListeners(listeners: seq<Listener>, ghost state: ChainState)
    returns (routeNames: map<string, seq<string>>, byName: map<string, Listener>)
    requires AllChains(listeners) <= state.Keys
    requires forall c :: c in AllChains(listeners) ==> c.filters == state[c]
    ensures routeNames == RouteNamesByListener(listeners, state) && byName == ListenersByName(listeners)
  {
    routeNames, byName := map[], map[];
    for i := 0 to |listeners|
      invariant byName == ListenersByName(listeners[..i]) && NamesCollected(routeNames, byName, state)
    {
      ListenersByNameStep(listeners, i);
      if IsProbe(listeners[i].name) {
        continue;
      }
      assert ChainsOf(listeners[i]) <= AllChains(listeners);
      var names := FindListenerRouteConfigs(listeners[i], state);
      NamesAdd(routeNames, byName, state, listeners[i]);
      routeNames := routeNames[listeners[i].name := names];
      byName := byName[listeners[i].name := listeners[i]];
    }
    assert listeners[..|listeners|] == listeners;
    NamesComplete(routeNames, listeners, state);
  }

  lemma PoolsByRouteStep(entries: seq<Entry>, e: Entry)
    ensures PoolsByRoute(entries + [e]) == AddEntry(PoolsByRoute(entries), e)
  {
    assert (entries + [e])[..|entries|] == entries;
  }

  method CollectRoute(config: string, route: Route, before: PoolMatrix) returns (pools: PoolMatrix)
    ensures pools == AddEntry(before, Entry(config, route))
  {
    pools := before;
    var pool := route.Pool();
    if pool.Some? {
      if config !in pools {
        pools := pools[config := map[]];
      }
      pools := pools[config := pools[config][route.name := pool.value]];
    }
  }

  /** Adds the routes of one virtual host to the pool matrix of the entries seen so far. */
  method CollectHost(config: string, routes: seq<Route>, before: PoolMatrix, ghost seen: seq<Entry>)
    returns (pools: PoolMatrix)
    requires before == PoolsByRoute(seen)
    ensures pools == PoolsByRoute(seen + RouteEntries(config, routes))
  {
    pools := before;
    ghost var entries := RouteEntries(config, routes);
    assert seen + entries[..0] == seen;
    for k := 0 to |routes|
      invariant pools == PoolsByRoute(seen + entries[..k])
    {
      PoolsByRouteStep(seen + entries[..k], entries[k]);
      ConcatTake(seen, entries, k);
      pools := CollectRoute(config, routes[k], pools);
    }
    assert entries[..|routes|] == entries;
  }

  lemma HostEntriesStep(config: string, hosts: seq<VirtualHost>, j: nat)
    requires j < |hosts|
    ensures HostEntries(config, hosts[..j + 1])
            == HostEntries(config, hosts[..j]) + RouteEntries(config, hosts[j].routes)
  {
    assert hosts[..j + 1][..j] == hosts[..j];
  }

  method CollectHosts(config: string, hosts: seq<VirtualHost>, before: PoolMatrix, ghost seen: seq<Entry>)
    returns (pools: PoolMatrix)
    requires before == PoolsByRoute(seen)
    ensures pools == PoolsByRoute(seen + HostEntries(config, hosts))
  {
    pools := before;
    assert seen + HostEntries(config, hosts[..0]) == seen;
    for j := 0 to |hosts|
      invariant pools == PoolsByRoute(seen + HostEntries(config, hosts[..j]))
    {
      ghost var done, next := HostEntries(config, hosts[..j]), RouteEntries(config, hosts[j].routes);
      HostEntriesStep(config, hosts, j);
      pools := CollectHost(config, hosts[j].routes, pools, seen + done);
      ConcatAssoc(seen, done, next);
    }
    assert hosts[..|hosts|] == hosts;
  }

  method CollectRoutes(configs: seq<RouteConfiguration>)
    returns (byName: map<string, RouteConfiguration>, pools: PoolMatrix)
    ensures byName == ConfigsByName(configs) && pools == PoolsByRoute(Entries(configs))
  {
    byName, pools := map[], map[];
    for i := 0 to |configs|
      invariant byName == ConfigsByName(configs[..i]) && pools == PoolsByRoute(Entries(configs[..i]))
    {
      assert configs[..i + 1][..i] == configs[..i];
      byName := byName[configs[i].name := configs[i]];
      pools := CollectHosts(configs[i].name, configs[i].virtualHosts, pools, Entries(configs[..i]));
    }
    assert configs[..|configs|] == configs;
  }
}
