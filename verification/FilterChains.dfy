/** One HTTP filter chain and one route's overrides: how endpoint-picker filters are inserted in front
    of the router filter, and which filters then run for a route. */
module FilterChains {
  import opened Text
  import opened InferencePools

  const HCM_NAME := "envoy.filters.network.http_connection_manager"

  datatype ExternalProcessor = ExternalProcessor(
    clusterName: string, authority: string, bodyMode: BodyMode, allowModeOverride: bool)

  /** The typed config of an HTTP filter: an external processor, or a message of another type, which
      does not unmarshal into one. */
  datatype HttpFilterConfig = ExtProc(processor: ExternalProcessor) | OtherHttpConfig(raw: string)

  datatype HttpFilter = HttpFilter(name: string, config: HttpFilterConfig)

  /** An HTTP connection manager; rds is the route config it asks for, when it uses route discovery. */
  datatype Hcm = Hcm(httpFilters: seq<HttpFilter>, rds: Option<string>)

  datatype NetworkConfig = HcmConfig(hcm: Hcm) | OtherNetworkConfig(raw: string)

  datatype NetworkFilter = NetworkFilter(name: string, config: NetworkConfig)

  datatype PerRouteConfig = ExtProcDisabled | OtherPerRoute(raw: string)

  // ---------- Finding things ----------

  /** The index of the first filter named as an HTTP connection manager, if it unmarshals to one. */
  function FindHcm(filters: seq<NetworkFilter>): (i: Option<nat>)
    ensures i.Some? ==> i.value < |filters| && filters[i.value].config.HcmConfig?
  {
    if filters == [] then None
    else if filters[0].name == HCM_NAME then (if filters[0].config.HcmConfig? then Some(0) else None)
    else match FindHcm(filters[1..])
      case None => None
      case Some(i) => Some(i + 1)
  }

  function HcmIn(filters: seq<NetworkFilter>): Option<Hcm> {
    match FindHcm(filters)
    case None => None
    case Some(i) => Some(filters[i].config.hcm)
  }

  /** The first filter of the name decides: it is found if it unmarshals to a connection manager, and
      nothing is found otherwise, whatever follows it. */
  lemma {:induction false} FindHcmFirst(filters: seq<NetworkFilter>, i: nat)
    requires i <= |filters| && forall j :: 0 <= j < i ==> filters[j].name != HCM_NAME
    requires i < |filters| ==> filters[i].name == HCM_NAME
    ensures FindHcm(filters) == if i < |filters| && filters[i].config.HcmConfig? then Some(i) else None
  {
    if i > 0 {
      FindHcmFirst(filters[1..], i - 1);
    }
  }

  datatype SearchResult = Found(index: nat) | Missing | WrongType

  /** Looks for the pool's filter by name; a filter of that name with another type is an error. */
  function SearchPool(pool: InferencePool, filters: seq<HttpFilter>): SearchResult {
    if filters == [] then Missing
    else if filters[0].name == FilterName(pool) then
      (if filters[0].config.ExtProc? then Found(0) else WrongType)
    else match SearchPool(pool, filters[1..])
      case Found(i) => Found(i + 1)
      case other => other
  }

  ghost function FilterNames(filters: seq<HttpFilter>): set<string> {
    set f | f in filters :: f.name
  }

  ghost function PoolNames(pools: seq<InferencePool>): set<string> {
    set p | p in pools :: FilterName(p)
  }

  lemma FilterNamesAppend(a: seq<HttpFilter>, b: seq<HttpFilter>)
    ensures FilterNames(a + b) == FilterNames(a) + FilterNames(b)
    ensures FilterNames(a) == {} ==> a == []
  {
    forall f ensures f in a + b <==> f in a || f in b {}
    if a != [] {
      assert a[0].name in FilterNames(a);
    }
  }

  lemma {:induction false} SearchMisses(pool: InferencePool, filters: seq<HttpFilter>)
    ensures SearchPool(pool, filters).Missing? <==> FilterName(pool) !in FilterNames(filters)
  {
    if filters != [] {
      SearchMisses(pool, filters[1..]);
      assert filters == [filters[0]] + filters[1..];
    }
  }

  // ---------- Inserting the pool filters ----------

  function PoolFilter(pool: InferencePool): HttpFilter {
    HttpFilter(FilterName(pool),
      ExtProc(ExternalProcessor(ClusterName(pool), Authority(pool), BodyModeOf(pool), AllowOverride(pool))))
  }

  /** The filters to add: one for every pool of the list that the chain does not have by name. */
  function MissingFilters(filters: seq<HttpFilter>, pools: seq<InferencePool>): seq<HttpFilter> {
    if pools == [] then []
    else MissingFilters(filters, pools[..|pools| - 1]) + MissingFilter(filters, pools[|pools| - 1])
  }

  function MissingFilter(filters: seq<HttpFilter>, pool: InferencePool): seq<HttpFilter> {
    if SearchPool(pool, filters).Missing? then [PoolFilter(pool)] else []
  }

  function InsertPools(filters: seq<HttpFilter>, pools: seq<InferencePool>): seq<HttpFilter>
    requires filters != []
  {
    var added := MissingFilters(filters, pools);
    if added == [] then filters else filters[..|filters| - 1] + added + [filters[|filters| - 1]]
  }

  /** A chain's HTTP filter list is empty only if it has no connection manager: Envoy demands a
      terminal router filter. */
  predicate HasRouter(filters: seq<NetworkFilter>) {
    HcmIn(filters).Some? ==> HcmIn(filters).value.httpFilters != []
  }

  function PatchedChain(filters: seq<NetworkFilter>, pools: seq<InferencePool>): seq<NetworkFilter>
    requires HasRouter(filters)
  {
    match FindHcm(filters)
    case None => filters
    case Some(i) =>
      var hcm := filters[i].config.hcm;
      filters[i := filters[i].(config := HcmConfig(hcm.(httpFilters := InsertPools(hcm.httpFilters, pools))))]
  }

  lemma {:induction false} FindHcmUpdated(filters: seq<NetworkFilter>, hcm: Hcm)
    requires FindHcm(filters).Some?
    ensures FindHcm(filters[FindHcm(filters).value := filters[FindHcm(filters).value].(config := HcmConfig(hcm))])
            == FindHcm(filters)
  {
    var i := FindHcm(filters).value;
    if i > 0 {
      FindHcmUpdated(filters[1..], hcm);
      assert filters[i := filters[i].(config := HcmConfig(hcm))][1..]
          == filters[1..][i - 1 := filters[i].(config := HcmConfig(hcm))];
    }
  }

  /** Patching changes the connection manager's HTTP filters and nothing else. */
  lemma PatchedHcm(filters: seq<NetworkFilter>, pools: seq<InferencePool>)
    requires HasRouter(filters)
    ensures HasRouter(PatchedChain(filters, pools))
    ensures HcmIn(PatchedChain(filters, pools)).Some? <==> HcmIn(filters).Some?
    ensures HcmIn(filters).Some? ==>
              HcmIn(PatchedChain(filters, pools)).value
              == HcmIn(filters).value.(httpFilters := InsertPools(HcmIn(filters).value.httpFilters, pools))
    ensures HcmIn(filters).None? ==> PatchedChain(filters, pools) == filters
    ensures |PatchedChain(filters, pools)| == |filters|
    ensures forall k :: 0 <= k < |filters| && Some(k as nat) != FindHcm(filters) ==>
              PatchedChain(filters, pools)[k] == filters[k]
  {
    match FindHcm(filters)
    case None =>
    case Some(i) =>
      var hcm := filters[i].config.hcm;
      FindHcmUpdated(filters, hcm.(httpFilters := InsertPools(hcm.httpFilters, pools)));
  }

  // ---------- What insertion does ----------

  lemma MissingFilterName(filters: seq<HttpFilter>, pool: InferencePool)
    ensures FilterNames(MissingFilter(filters, pool)) == {FilterName(pool)} - FilterNames(filters)
  {
    SearchMisses(pool, filters);
    assert forall f :: f in [PoolFilter(pool)] <==> f == PoolFilter(pool);
  }

  lemma NoPoolNames(pools: seq<InferencePool>)
    ensures PoolNames(pools) == {} ==> pools == []
  {
    if pools != [] {
      assert FilterName(pools[0]) in PoolNames(pools);
    }
  }

  lemma PoolNamesAppend(pools: seq<InferencePool>, pool: InferencePool)
    ensures PoolNames(pools + [pool]) == PoolNames(pools) + {FilterName(pool)}
  {
    forall p ensures p in pools + [pool] <==> p in pools || p == pool {}
  }

  lemma {:induction false} MissingFilterNames(filters: seq<HttpFilter>, pools: seq<InferencePool>)
    ensures FilterNames(MissingFilters(filters, pools)) == PoolNames(pools) - FilterNames(filters)
  {
    if pools != [] {
      var init, last := pools[..|pools| - 1], pools[|pools| - 1];
      MissingFilterNames(filters, init);
      MissingFilterName(filters, last);
      PoolNamesAppend(init, last);
      assert pools == init + [last];
      FilterNamesAppend(MissingFilters(filters, init), MissingFilter(filters, last));
    }
  }

  /** The filters of the pools whose names a list lacks. */
  ghost function NewFilters(filters: seq<HttpFilter>, pools: seq<InferencePool>): set<HttpFilter> {
    set p | p in pools && FilterName(p) !in FilterNames(filters) :: PoolFilter(p)
  }

  lemma {:induction false} NewFiltersExact(filters: seq<HttpFilter>, pools: seq<InferencePool>)
    ensures forall f :: f in MissingFilters(filters, pools) <==> f in NewFilters(filters, pools)
  {
    if pools != [] {
      var init, last := pools[..|pools| - 1], pools[|pools| - 1];
      NewFiltersExact(filters, init);
      SearchMisses(last, filters);
      assert pools == init + [last];
      forall f ensures f in MissingFilters(filters, pools) <==> f in NewFilters(filters, pools) {
        assert f in MissingFilters(filters, init) <==> f in NewFilters(filters, init);
        NewFilterStep(filters, init, last, f);
      }
    }
  }

  lemma NewFilterStep(filters: seq<HttpFilter>, init: seq<InferencePool>, last: InferencePool, f: HttpFilter)
    ensures f in NewFilters(filters, init + [last])
            <==> f in NewFilters(filters, init)
                 || (FilterName(last) !in FilterNames(filters) && f == PoolFilter(last))
  {
    forall p ensures p in init + [last] <==> p in init || p == last {}
  }

  /** Insertion keeps every original filter in its place before the router, keeps the router last, and
      puts the additions just before it. */
  lemma InsertionShape(filters: seq<HttpFilter>, pools: seq<InferencePool>)
    requires filters != []
    ensures var r, n, k := InsertPools(filters, pools), |filters|, |MissingFilters(filters, pools)|;
            && |r| == n + k
            && r[..n - 1] == filters[..n - 1]
            && r[n - 1..n - 1 + k] == MissingFilters(filters, pools)
            && r[|r| - 1] == filters[n - 1]
  {
  }

  /** What insertion leaves of a filter list: the originals in their places before the router, the router
      last, and in between only filters of the pools, of names the list did not have. */
  ghost predicate InsertedBeforeRouter(before: seq<HttpFilter>, after: seq<HttpFilter>, pools: seq<InferencePool>) {
    && before != [] && |after| >= |before|
    && (forall i :: 0 <= i < |before| - 1 ==> after[i] == before[i])
    && after[|after| - 1] == before[|before| - 1]
    && forall i :: |before| - 1 <= i < |after| - 1 ==>
         after[i].name !in FilterNames(before) && exists p :: p in pools && after[i] == PoolFilter(p)
  }

  lemma InsertionOrder(filters: seq<HttpFilter>, pools: seq<InferencePool>)
    requires filters != []
    ensures InsertedBeforeRouter(filters, InsertPools(filters, pools), pools)
  {
    var r, n, added := InsertPools(filters, pools), |filters|, MissingFilters(filters, pools);
    InsertionShape(filters, pools);
    NewFiltersExact(filters, pools);
    forall i | n - 1 <= i < |r| - 1
      ensures r[i].name !in FilterNames(filters) && exists p :: p in pools && r[i] == PoolFilter(p)
    {
      assert r[i] == r[n - 1..n - 1 + |added|][i - (n - 1)];
      assert r[i] in added;
      assert r[i] in NewFilters(filters, pools);
    }
  }

  /** The same for a whole chain: its connection manager, if it has one, gains filters this way. */
  lemma PatchedOrder(filters: seq<NetworkFilter>, pools: seq<InferencePool>)
    requires HasRouter(filters)
    ensures HcmIn(filters).Some? <==> HcmIn(PatchedChain(filters, pools)).Some?
    ensures HcmIn(filters).Some? ==>
              InsertedBeforeRouter(HcmIn(filters).value.httpFilters,
                HcmIn(PatchedChain(filters, pools)).value.httpFilters, pools)
  {
    PatchedHcm(filters, pools);
    if HcmIn(filters).Some? {
      InsertionOrder(HcmIn(filters).value.httpFilters, pools);
    }
  }

  lemma InsertionParts(filters: seq<HttpFilter>, pools: seq<InferencePool>)
    requires filters != []
    ensures var init, router := filters[..|filters| - 1], [filters[|filters| - 1]];
            filters == init + router && InsertPools(filters, pools) == init + MissingFilters(filters, pools) + router
  {
  }

  /** The names after insertion are the chain's and the list's. */
  lemma InsertionNames(filters: seq<HttpFilter>, pools: seq<InferencePool>)
    requires filters != []
    ensures FilterNames(InsertPools(filters, pools)) == FilterNames(filters) + PoolNames(pools)
  {
    var init, router, added := filters[..|filters| - 1], [filters[|filters| - 1]], MissingFilters(filters, pools);
    InsertionParts(filters, pools);
    MissingFilterNames(filters, pools);
    FilterNamesAppend(init, router);
    FilterNamesAppend(init, added);
    FilterNamesAppend(init + added, router);
  }

  /** Every added filter is the pool filter of a pool in the list. */
  lemma InsertionAddsPoolFilters(filters: seq<HttpFilter>, pools: seq<InferencePool>)
    requires filters != []
    ensures forall f :: f in InsertPools(filters, pools) && f !in filters ==>
              exists p :: p in pools && f == PoolFilter(p)
  {
    var init, router, added := filters[..|filters| - 1], [filters[|filters| - 1]], MissingFilters(filters, pools);
    InsertionParts(filters, pools);
    NewFiltersExact(filters, pools);
    forall f | f in InsertPools(filters, pools) && f !in filters ensures f in NewFilters(filters, pools) {
      assert f in init + added + router;
    }
  }

  /** How many filters of a list have the given name. */
  function CountName(filters: seq<HttpFilter>, name: string): nat {
    if filters == [] then 0
    else CountName(filters[..|filters| - 1], name) + if filters[|filters| - 1].name == name then 1 else 0
  }

  function CountPool(pools: seq<InferencePool>, name: string): nat {
    if pools == [] then 0
    else CountPool(pools[..|pools| - 1], name) + if FilterName(pools[|pools| - 1]) == name then 1 else 0
  }

  /** Two entries of a pool list with one filter name. */
  ghost predicate NamedTwice(pools: seq<InferencePool>, name: string) {
    exists i, j :: 0 <= i < j < |pools| && FilterName(pools[i]) == name && FilterName(pools[j]) == name
  }

  lemma {:induction false} CountPoolPositive(pools: seq<InferencePool>, name: string)
    ensures CountPool(pools, name) > 0 <==> name in PoolNames(pools)
  {
    if pools != [] {
      CountPoolPositive(pools[..|pools| - 1], name);
      PoolNamesAppend(pools[..|pools| - 1], pools[|pools| - 1]);
      assert pools == pools[..|pools| - 1] + [pools[|pools| - 1]];
    }
  }

  lemma NamedTwiceStep(init: seq<InferencePool>, last: InferencePool, name: string)
    ensures NamedTwice(init + [last], name)
            <==> NamedTwice(init, name) || (FilterName(last) == name && name in PoolNames(init))
  {
    var pools := init + [last];
    assert forall i :: 0 <= i < |init| ==> pools[i] == init[i] && init[i] in init;
    if FilterName(last) == name && name in PoolNames(init) {
      var p :| p in init && FilterName(p) == name;
      var i :| 0 <= i < |init| && init[i] == p;
      assert FilterName(pools[i]) == name && FilterName(pools[|init|]) == name;
    }
    if NamedTwice(init, name) {
      var i, j :| 0 <= i < j < |init| && FilterName(init[i]) == name && FilterName(init[j]) == name;
      assert FilterName(pools[i]) == name && FilterName(pools[j]) == name;
    }
  }

  lemma {:induction false} CountPoolTwice(pools: seq<InferencePool>, name: string)
    ensures CountPool(pools, name) >= 2 <==> NamedTwice(pools, name)
  {
    if pools != [] {
      var init, last := pools[..|pools| - 1], pools[|pools| - 1];
      assert pools == init + [last];
      CountPoolTwice(init, name);
      CountPoolPositive(init, name);
      NamedTwiceStep(init, last, name);
    }
  }

  lemma {:induction false} CountNameAppend(a: seq<HttpFilter>, b: seq<HttpFilter>, name: string)
    ensures CountName(a + b, name) == CountName(a, name) + CountName(b, name)
  {
    if b == [] {
      assert a + b == a;
    } else {
      CountNameAppend(a, b[..|b| - 1], name);
      assert (a + b)[..|a + b| - 1] == a + b[..|b| - 1];
    }
  }

  lemma {:induction false} CountMissing(filters: seq<HttpFilter>, pools: seq<InferencePool>, name: string)
    ensures CountName(MissingFilters(filters, pools), name)
            == if name in FilterNames(filters) then 0 else CountPool(pools, name)
  {
    if pools != [] {
      var init, last := pools[..|pools| - 1], pools[|pools| - 1];
      CountMissing(filters, init, name);
      SearchMisses(last, filters);
      CountNameAppend(MissingFilters(filters, init), MissingFilter(filters, last), name);
      assert CountName([PoolFilter(last)], name) == if FilterName(last) == name then 1 else 0;
    }
  }

  /** Exactly how often a name occurs after insertion: a name the chain already has gains nothing, any
      other gains one filter for every time the pool list repeats it. */
  lemma InsertionCount(filters: seq<HttpFilter>, pools: seq<InferencePool>, name: string)
    requires filters != []
    ensures CountName(InsertPools(filters, pools), name)
            == CountName(filters, name) + if name in FilterNames(filters) then 0 else CountPool(pools, name)
  {
    var n, added := |filters|, MissingFilters(filters, pools);
    CountMissing(filters, pools, name);
    assert filters == filters[..n - 1] + [filters[n - 1]];
    CountNameAppend(filters[..n - 1], [filters[n - 1]], name);
    CountNameAppend(filters[..n - 1], added, name);
    CountNameAppend(filters[..n - 1] + added, [filters[n - 1]], name);
  }

  lemma {:induction false} CountPositive(filters: seq<HttpFilter>, name: string)
    ensures CountName(filters, name) > 0 <==> name in FilterNames(filters)
  {
    if filters != [] {
      CountPositive(filters[..|filters| - 1], name);
      assert filters == filters[..|filters| - 1] + [filters[|filters| - 1]];
    }
  }

  /** The pool list repeats no filter name the chain lacks. */
  ghost predicate NoRepeatedMissingPool(filters: seq<HttpFilter>, pools: seq<InferencePool>) {
    forall name :: name !in FilterNames(filters) ==> CountPool(pools, name) <= 1
  }

  ghost predicate NoRepeatedName(filters: seq<HttpFilter>) {
    forall name :: CountName(filters, name) <= 1
  }

  /** The patched chain has no repeated filter name exactly when the original had none and the pool list
      repeats none that was missing.  The gateway hands over one list entry per route, so two routes to
      one pool do repeat it. */
  lemma NoRepeatedNameIff(filters: seq<HttpFilter>, pools: seq<InferencePool>)
    requires filters != []
    ensures NoRepeatedName(InsertPools(filters, pools))
            <==> NoRepeatedName(filters) && NoRepeatedMissingPool(filters, pools)
  {
    var r := InsertPools(filters, pools);
    forall name
      ensures CountName(r, name)
              == CountName(filters, name) + if name in FilterNames(filters) then 0 else CountPool(pools, name)
      ensures name !in FilterNames(filters) ==> CountName(filters, name) == 0
    {
      InsertionCount(filters, pools, name);
      CountPositive(filters, name);
    }
    if NoRepeatedName(r) {
      forall name ensures CountName(filters, name) <= 1 {
        assert CountName(r, name) <= 1;
      }
      forall name | name !in FilterNames(filters) ensures CountPool(pools, name) <= 1 {
        assert CountName(r, name) <= 1;
      }
    }
  }

  /** A second insertion of pools already named adds nothing, even after a list with repeats. */
  lemma InsertionIdempotent(filters: seq<HttpFilter>, first: seq<InferencePool>, second: seq<InferencePool>)
    requires filters != [] && PoolNames(second) <= FilterNames(filters) + PoolNames(first)
    ensures InsertPools(InsertPools(filters, first), second) == InsertPools(filters, first)
  {
    var r := InsertPools(filters, first);
    InsertionNames(filters, first);
    MissingFilterNames(r, second);
    FilterNamesAppend(MissingFilters(r, second), []);
  }

  lemma PatchIdempotent(filters: seq<NetworkFilter>, first: seq<InferencePool>, second: seq<InferencePool>)
    requires HasRouter(filters) && PoolNames(second) <= PoolNames(first)
    ensures HasRouter(PatchedChain(filters, first))
    ensures PatchedChain(PatchedChain(filters, first), second) == PatchedChain(filters, first)
  {
    PatchedHcm(filters, first);
    match FindHcm(filters)
    case None =>
    case Some(i) =>
      var hcm := filters[i].config.hcm;
      InsertionIdempotent(hcm.httpFilters, first, second);
      FindHcmUpdated(filters, hcm.(httpFilters := InsertPools(hcm.httpFilters, first)));
      var once := PatchedChain(filters, first);
      assert PatchedChain(once, second) == once[i := once[i]];
  }

  lemma PatchNothing(filters: seq<NetworkFilter>)
    requires HasRouter(filters)
    ensures PatchedChain(filters, []) == filters
  {
    match FindHcm(filters)
    case None =>
    case Some(i) => assert PatchedChain(filters, []) == filters[i := filters[i]];
  }

  // ---------- Which endpoint-picker filters run ----------

  predicate IsPicker(name: string) {
    FILTER_PREFIX <= name
  }

  ghost function PickersIn(filters: seq<HttpFilter>): set<string> {
    set f | f in filters && IsPicker(f.name) :: f.name
  }

  ghost function DisabledBy(overrides: map<string, PerRouteConfig>): set<string> {
    set k | k in overrides && overrides[k] == ExtProcDisabled
  }

  /** The endpoint-picker filters that run for a route with these overrides in a chain of these filters:
      those present and not disabled. */
  ghost function ActivePickers(filters: seq<HttpFilter>, overrides: map<string, PerRouteConfig>): set<string> {
    PickersIn(filters) - DisabledBy(overrides)
  }

  /** The overrides with every name of the set disabled and all others as they were. */
  ghost function Disable(overrides: map<string, PerRouteConfig>, names: set<string>): map<string, PerRouteConfig> {
    overrides + map k | k in names :: ExtProcDisabled
  }

  /** Nothing but the names of the set changes, and all of them are disabled. */
  lemma DisableExact(overrides: map<string, PerRouteConfig>, names: set<string>, key: string)
    ensures key in Disable(overrides, names) <==> key in names || key in overrides
    ensures key in names ==> Disable(overrides, names)[key] == ExtProcDisabled
    ensures key !in names && key in overrides ==> Disable(overrides, names)[key] == overrides[key]
  {
  }

  lemma DisableMore(overrides: map<string, PerRouteConfig>, a: set<string>, b: set<string>)
    ensures Disable(Disable(overrides, a), b) == Disable(overrides, a + b)
  {
  }

  lemma DisableOne(overrides: map<string, PerRouteConfig>, a: set<string>, key: string)
    ensures Disable(overrides, a)[key := ExtProcDisabled] == Disable(overrides, a + {key})
  {
  }

  lemma DisabledByDisable(overrides: map<string, PerRouteConfig>, names: set<string>)
    ensures DisabledBy(Disable(overrides, names)) == DisabledBy(overrides) + names
  {
  }

  /** The pickers after insertion are those before and those of the list. */
  lemma InsertionPickers(filters: seq<HttpFilter>, pools: seq<InferencePool>)
    requires filters != []
    ensures PickersIn(InsertPools(filters, pools)) == PickersIn(filters) + PoolNames(pools)
  {
    InsertionNames(filters, pools);
    var r := InsertPools(filters, pools);
    forall name ensures name in PickersIn(r) <==> name in FilterNames(r) && IsPicker(name) {}
    forall name ensures name in PickersIn(filters) <==> name in FilterNames(filters) && IsPicker(name) {}
    forall p ensures IsPicker(FilterName(p)) {}
  }

  /** For any chain, pool list, overrides and disabled names, exactly which pickers run afterwards. */
  lemma ActiveAfterPatch(
    filters: seq<HttpFilter>, pools: seq<InferencePool>, overrides: map<string, PerRouteConfig>, foreign: set<string>)
    requires filters != []
    ensures ActivePickers(InsertPools(filters, pools), Disable(overrides, foreign))
            == (PickersIn(filters) + PoolNames(pools)) - DisabledBy(overrides) - foreign
  {
    InsertionPickers(filters, pools);
    DisabledByDisable(overrides, foreign);
  }

  /** The endpoint-picker filters themselves that run: two of them may share a name. */
  ghost function RunningFilters(filters: seq<HttpFilter>, overrides: map<string, PerRouteConfig>): set<HttpFilter> {
    set f | f in filters && IsPicker(f.name) && f.name !in DisabledBy(overrides)
  }

  lemma RunningAfterPatch(
    filters: seq<HttpFilter>, pools: seq<InferencePool>, overrides: map<string, PerRouteConfig>, foreign: set<string>,
    f: HttpFilter)
    requires filters != []
    ensures f in RunningFilters(InsertPools(filters, pools), Disable(overrides, foreign))
            <==> && ((f in filters && IsPicker(f.name)) || f in NewFilters(filters, pools))
                 && f.name !in DisabledBy(overrides) && f.name !in foreign
  {
    var init, router, added := filters[..|filters| - 1], [filters[|filters| - 1]], MissingFilters(filters, pools);
    InsertionParts(filters, pools);
    NewFiltersExact(filters, pools);
    DisabledByDisable(overrides, foreign);
    assert f in InsertPools(filters, pools) <==> f in filters || f in added;
    assert f in NewFilters(filters, pools) ==> IsPicker(f.name);
  }

  /** Disabling by name cannot separate two filters of one name: on a bare chain, two pools that share a
      filter name but not a filter both run for a route of the first. */
  lemma ClashRunsBoth(p: InferencePool, q: InferencePool, router: HttpFilter)
    requires FilterName(p) == FilterName(q) && PoolFilter(p) != PoolFilter(q) && !IsPicker(router.name)
    ensures RunningFilters(InsertPools([router], [p, q]), Disable(map[], PoolNames([p, q]) - {FilterName(p)}))
            == {PoolFilter(p), PoolFilter(q)}
  {
    var running := RunningFilters(InsertPools([router], [p, q]), Disable(map[], PoolNames([p, q]) - {FilterName(p)}));
    assert FilterNames([router]) == {router.name};
    assert IsPicker(FilterName(p));
    assert p in [p, q] && q in [p, q];
    assert PoolNames([p, q]) == {FilterName(p)};
    forall f ensures f in running <==> f in {PoolFilter(p), PoolFilter(q)} {
      RunningAfterPatch([router], [p, q], map[], {}, f);
      assert f in NewFilters([router], [p, q]) <==> f == PoolFilter(p) || f == PoolFilter(q);
    }
  }
}
