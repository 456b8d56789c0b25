/** When the rewrite gives a chain the same filter name twice: the gateway keeps one pool per route, not per
    name. */
module RepeatedFilters {
  import opened Text
  import opened InferencePools
  import opened FilterChains
  import opened Rewrite
  import opened Translate
  import opened RewriteTheorems

  /** The chain at a place of the listener, the default chain last, asks for a config that has the route. */
  ghost predicate Via(listener: Listener, configs: seq<RouteConfiguration>, chains: ChainState, place: nat, r: Route)
    requires ChainsOf(listener) <= chains.Keys
  {
    exists g :: g in configs && AskedAt(listener, chains, place) == Some(g.name) && r in RoutesIn(g)
  }

  /** Two routes with this picker name, of different names or reached through different chains. */
  ghost predicate TwoRoutes(listener: Listener, configs: seq<RouteConfiguration>, chains: ChainState, name: string)
    requires ChainsOf(listener) <= chains.Keys
  {
    exists i, j, r, s ::
      r in AllRoutes(configs) && s in AllRoutes(configs)
      && Via(listener, configs, chains, i, r) && Via(listener, configs, chains, j, s)
      && name in r.OwnName() && name in s.OwnName() && (i != j || r.name != s.name)
  }

  /** The route lies in the i-th route config the listener names. */
  ghost predicate ViaName(listener: Listener, configs: seq<RouteConfiguration>, chains: ChainState, i: nat, r: Route)
    requires ChainsOf(listener) <= chains.Keys
  {
    i < |RouteNames(listener, chains)|
    && exists g :: g in configs && g.name == RouteNames(listener, chains)[i] && r in RoutesIn(g)
  }

  /** Names and chains that ask correspond one to one. */
  lemma ViaIsViaName(
    listener: Listener, configs: seq<RouteConfiguration>, chains: ChainState, at: seq<nat>, i: nat, r: Route)
    requires ChainsOf(listener) <= chains.Keys && NamesAt(listener, chains, RouteNames(listener, chains), at)
    requires i < |at|
    ensures Via(listener, configs, chains, at[i], r) <==> ViaName(listener, configs, chains, i, r)
  {
  }

  lemma ViaHasName(
    listener: Listener, configs: seq<RouteConfiguration>, chains: ChainState, at: seq<nat>, place: nat, r: Route)
    returns (i: nat)
    requires ChainsOf(listener) <= chains.Keys && NamesAt(listener, chains, RouteNames(listener, chains), at)
    requires Via(listener, configs, chains, place, r)
    ensures i < |at| && at[i] == place && ViaName(listener, configs, chains, i, r)
  {
    assert place in at;
    i :| 0 <= i < |at| && at[i] == place;
    ViaIsViaName(listener, configs, chains, at, i, r);
  }

  /** The mention of a route that is reached. */
  lemma RouteIsMentioned(
    listeners: seq<Listener>, configs: seq<RouteConfiguration>, chains: ChainState, l: Listener, i: nat, r: Route)
    requires WellNamed(listeners, configs) && AllChains(listeners) <= chains.Keys
    requires l in listeners && !IsProbe(l.name) && ChainsOf(l) <= chains.Keys
    requires ViaName(l, configs, chains, i, r) && r.Pool().Some?
    ensures var m := BuildMatrix(listeners, configs, chains);
            && l.name in m.routeNames && m.routeNames[l.name] == RouteNames(l, chains)
            && IsMention(m, l.name, |m.routeNames[l.name]|, Mention(i, r.name))
            && PoolAt(m, l.name, |m.routeNames[l.name]|, Mention(i, r.name)) == r.Pool().value
  {
    var g :| g in configs && g.name == RouteNames(l, chains)[i] && r in RoutesIn(g);
    ListenersByNameComplete(listeners, l);
    ConfigsByNameComplete(configs, g);
    EntriesComplete(configs);
    assert Entry(g.name, r) in Entries(configs);
    PoolsByRouteComplete(Entries(configs), Entry(g.name, r));
  }

  /** The route behind a mention. */
  lemma MentionIsRoute(
    listeners: seq<Listener>, configs: seq<RouteConfiguration>, chains: ChainState, l: Listener, t: Mention)
    returns (r: Route)
    requires WellNamed(listeners, configs) && AllChains(listeners) <= chains.Keys
    requires l in listeners && !IsProbe(l.name) && ChainsOf(l) <= chains.Keys
    requires IsMention(BuildMatrix(listeners, configs, chains), l.name, |RouteNames(l, chains)|, t)
    ensures r in AllRoutes(configs) && ViaName(l, configs, chains, t.at, r) && r.name == t.route
    ensures r.Pool() == Some(PoolAt(BuildMatrix(listeners, configs, chains), l.name, |RouteNames(l, chains)|, t))
  {
    ListenersByNameComplete(listeners, l);
    PoolsByRouteNames(Entries(configs), RouteNames(l, chains)[t.at], t.route);
    EntriesComplete(configs);
    var e :| e in Entries(configs) && e.config == RouteNames(l, chains)[t.at] && e.route.name == t.route
             && e.route.Pool() == Some(PoolsByRoute(Entries(configs))[RouteNames(l, chains)[t.at]][t.route]);
    r := e.route;
  }

  lemma TwiceMeansTwoRoutes(
    listeners: seq<Listener>, configs: seq<RouteConfiguration>, served: map<string, seq<InferencePool>>,
    chains: ChainState, l: Listener, name: string)
    requires WellNamed(listeners, configs) && AllChains(listeners) <= chains.Keys
    requires Serves(served, BuildMatrix(listeners, configs, chains))
    requires l in listeners && !IsProbe(l.name) && ChainsOf(l) <= chains.Keys
    requires NamedTwice(PoolsFor(served, l.name), name)
    ensures TwoRoutes(l, configs, chains, name)
  {
    var m, pools := BuildMatrix(listeners, configs, chains), PoolsFor(served, l.name);
    ListenersByNameComplete(listeners, l);
    assert ListsAll(m, l.name, pools);
    var t, u := TwoMentions(m, l.name, pools, name);
    assert m.routeNames[l.name] == RouteNames(l, chains);
    var r := MentionIsRoute(listeners, configs, chains, l, t);
    var s := MentionIsRoute(listeners, configs, chains, l, u);
    var at := NamesInOrder(l, chains);
    ViaIsViaName(l, configs, chains, at, t.at, r);
    ViaIsViaName(l, configs, chains, at, u.at, s);
    assert t.at != u.at ==> at[t.at] != at[u.at];
  }

  lemma TwoMentions(m: Matrix, l: string, pools: seq<InferencePool>, name: string) returns (t: Mention, u: Mention)
    requires l in m.routeNames && ListsAll(m, l, pools) && NamedTwice(pools, name)
    ensures t != u && IsMention(m, l, |m.routeNames[l]|, t) && IsMention(m, l, |m.routeNames[l]|, u)
    ensures FilterName(PoolAt(m, l, |m.routeNames[l]|, t)) == name == FilterName(PoolAt(m, l, |m.routeNames[l]|, u))
  {
    var i, j :| 0 <= i < j < |pools| && FilterName(pools[i]) == name && FilterName(pools[j]) == name;
    var mentions :| Lists(m, l, |m.routeNames[l]|, pools, mentions);
    t, u := mentions[i], mentions[j];
  }

  lemma TwoRoutesMeanTwice(
    listeners: seq<Listener>, configs: seq<RouteConfiguration>, served: map<string, seq<InferencePool>>,
    chains: ChainState, l: Listener, name: string)
    requires WellNamed(listeners, configs) && AllChains(listeners) <= chains.Keys
    requires Serves(served, BuildMatrix(listeners, configs, chains))
    requires l in listeners && !IsProbe(l.name) && ChainsOf(l) <= chains.Keys
    requires TwoRoutes(l, configs, chains, name)
    ensures NamedTwice(PoolsFor(served, l.name), name)
  {
    var m, pools := BuildMatrix(listeners, configs, chains), PoolsFor(served, l.name);
    var i, j, r, s :| r in AllRoutes(configs) && s in AllRoutes(configs)
      && Via(l, configs, chains, i, r) && Via(l, configs, chains, j, s)
      && name in r.OwnName() && name in s.OwnName() && (i != j || r.name != s.name);
    var at := NamesInOrder(l, chains);
    var x := ViaHasName(l, configs, chains, at, i, r);
    var y := ViaHasName(l, configs, chains, at, j, s);
    RouteIsMentioned(listeners, configs, chains, l, x, r);
    RouteIsMentioned(listeners, configs, chains, l, y, s);
    assert ListsAll(m, l.name, pools);
    TwoMentionsNameTwice(m, l.name, pools, Mention(x, r.name), Mention(y, s.name), name);
  }

  lemma TwoMentionsNameTwice(m: Matrix, l: string, pools: seq<InferencePool>, t: Mention, u: Mention, name: string)
    requires l in m.routeNames && ListsAll(m, l, pools) && t != u
    requires IsMention(m, l, |m.routeNames[l]|, t) && IsMention(m, l, |m.routeNames[l]|, u)
    requires FilterName(PoolAt(m, l, |m.routeNames[l]|, t)) == name == FilterName(PoolAt(m, l, |m.routeNames[l]|, u))
    ensures NamedTwice(pools, name)
  {
    var mentions :| Lists(m, l, |m.routeNames[l]|, pools, mentions);
    var a := PlaceOf(m, l, pools, mentions, t);
    var b := PlaceOf(m, l, pools, mentions, u);
    assert FilterName(pools[a]) == name && FilterName(pools[b]) == name;
    assert a != b;
  }

  lemma PlaceOf(m: Matrix, l: string, pools: seq<InferencePool>, mentions: seq<Mention>, t: Mention) returns (a: nat)
    requires l in m.routeNames && Lists(m, l, |m.routeNames[l]|, pools, mentions)
    requires IsMention(m, l, |m.routeNames[l]|, t)
    ensures a < |pools| && mentions[a] == t && pools[a] == PoolAt(m, l, |m.routeNames[l]|, t)
  {
    assert t in mentions;
    a :| 0 <= a < |mentions| && mentions[a] == t;
  }

  /** For every chain, exactly when the rewrite leaves no filter name twice: there was none before, and no name
      the chain lacked is the picker name of two routes the listener leads to, by different names or through
      different chains. */
  lemma RepeatedFilterIff(
    listeners: seq<Listener>, configs: seq<RouteConfiguration>, served: map<string, seq<InferencePool>>,
    before: Snapshot, after: Snapshot, l: Listener, c: FilterChain)
    requires WellFormed(listeners, before.chains) && WellNamed(listeners, configs)
    requires Rewritten(listeners, configs, served, before, after)
    requires l in listeners && !IsProbe(l.name) && c in ChainsOf(l)
    requires ChainsOf(l) <= before.chains.Keys && HcmIn(before.chains[c]).Some?
    ensures c in after.chains && HcmIn(after.chains[c]).Some?
    ensures NoRepeatedName(HttpFilters(after.chains, c))
            <==> && NoRepeatedName(HttpFilters(before.chains, c))
                 && (forall name :: name !in FilterNames(HttpFilters(before.chains, c)) ==>
                       !TwoRoutes(l, configs, before.chains, name))
  {
    var filters, pools := HttpFilters(before.chains, c), PoolsFor(served, l.name);
    ChainAfter(listeners, configs, served, before, after, l, c);
    PatchedHcm(before.chains[c], pools);
    NoRepeatedNameIff(filters, pools);
    forall name ensures CountPool(pools, name) <= 1 <==> !TwoRoutes(l, configs, before.chains, name) {
      CountIff(listeners, configs, served, before.chains, l, name);
    }
  }

  lemma CountIff(
    listeners: seq<Listener>, configs: seq<RouteConfiguration>, served: map<string, seq<InferencePool>>,
    chains: ChainState, l: Listener, name: string)
    requires WellNamed(listeners, configs) && AllChains(listeners) <= chains.Keys
    requires Serves(served, BuildMatrix(listeners, configs, chains))
    requires l in listeners && !IsProbe(l.name) && ChainsOf(l) <= chains.Keys
    ensures CountPool(PoolsFor(served, l.name), name) >= 2 <==> TwoRoutes(l, configs, chains, name)
  {
    CountPoolTwice(PoolsFor(served, l.name), name);
    if NamedTwice(PoolsFor(served, l.name), name) {
      TwiceMeansTwoRoutes(listeners, configs, served, chains, l, name);
    } else if TwoRoutes(l, configs, chains, name) {
      TwoRoutesMeanTwice(listeners, configs, served, chains, l, name);
    }
  }

  /** The smallest case: two routes of different names in one config, with the same pool, give a chain that
      had no such filter the pool's filter name at least twice. */
  lemma TwoRoutesRepeatFilter(
    listeners: seq<Listener>, configs: seq<RouteConfiguration>, served: map<string, seq<InferencePool>>,
    before: Snapshot, after: Snapshot, l: Listener, c: FilterChain, g: RouteConfiguration, r: Route, s: Route,
    p: InferencePool)
    requires WellFormed(listeners, before.chains) && WellNamed(listeners, configs)
    requires Rewritten(listeners, configs, served, before, after)
    requires Reaches(listeners, configs, before.chains, l, c, g, r) && s in RoutesIn(g) && r.name != s.name
    requires r.Pool() == Some(p) && s.Pool() == Some(p)
    requires FilterName(p) !in FilterNames(HttpFilters(before.chains, c))
    ensures c in after.chains && HcmIn(after.chains[c]).Some?
    ensures CountName(HttpFilters(after.chains, c), FilterName(p)) >= 2
  {
    var filters, pools := HttpFilters(before.chains, c), PoolsFor(served, l.name);
    ChainAfter(listeners, configs, served, before, after, l, c);
    PatchedHcm(before.chains[c], pools);
    InsertionCount(filters, pools, FilterName(p));
    TwoInOneConfig(configs, before.chains, l, g, r, s, FilterName(p));
    CountIff(listeners, configs, served, before.chains, l, FilterName(p));
  }

  lemma TwoInOneConfig(
    configs: seq<RouteConfiguration>, chains: ChainState, l: Listener, g: RouteConfiguration, r: Route, s: Route,
    name: string)
    requires ChainsOf(l) <= chains.Keys && g in configs && Asks(l, chains, g.name)
    requires r in RoutesIn(g) && s in RoutesIn(g) && r.name != s.name && name in r.OwnName() && name in s.OwnName()
    ensures TwoRoutes(l, configs, chains, name)
  {
    var i := AsksMeansAsked(l, chains, g.name);
    assert Via(l, configs, chains, i, r) && Via(l, configs, chains, i, s);
    assert r in AllRoutes(configs) && s in AllRoutes(configs);
  }
}
