/** PostRouteModify and PostClusterModify: where the pool reference enters the metadata of routes and
    clusters, in place. */
module Hooks {
  import opened Text
  import opened InferencePools
  import opened FilterChains

  /** A protobuf Metadata message, shared by reference. */
  class Metadata {
    var filterMetadata: FilterMetadata

    constructor (filterMetadata: FilterMetadata)
      ensures this.filterMetadata == filterMetadata
    {
      this.filterMetadata := filterMetadata;
    }
  }

  function Read(metadata: Metadata?): Option<FilterMetadata>
    reads metadata
  {
    if metadata == null then None else Some(metadata.filterMetadata)
  }

  /** The metadata holds the reference of the pool. */
  predicate Carries(metadata: Option<FilterMetadata>, pool: InferencePool) {
    metadata.Some? && RefOf(metadata) == EncodeRef(pool)
  }

  /** What a hook leaves in the metadata of its object: a message that was there carries the pool and keeps
      everything else; a pool is read back exactly when it was there and no field holds a slash, and then it
      leads to the same picker. */
  ghost predicate Tagged(before: Option<FilterMetadata>, after: Option<FilterMetadata>, pool: InferencePool) {
    && (before.Some? <==> after.Some?)
    && (before.Some? ==> after.value == WithRef(before.value, EncodeRef(pool)) && Carries(after, pool))
    && (PoolByMetadata(after).Some? <==> before.Some? && SlashFree(pool))
    && (before.Some? && SlashFree(pool) ==> SamePicker(pool, PoolByMetadata(after).value))
  }

  /** Stores the pool's reference.  A missing message is replaced by a local one that is then dropped. */
  method BuildEPPMetadata(metadata: Metadata?, pool: InferencePool)
    modifies metadata
    ensures Tagged(old(Read(metadata)), Read(metadata), pool)
  {
    RefRoundTrip(pool);
    if metadata == null {
      assert DecodeRef("").None? by { SplitPlain("", '/'); }
      return;
    }
    var fields: Struct := map[];
    if METADATA_NAMESPACE in metadata.filterMetadata {
      fields := metadata.filterMetadata[METADATA_NAMESPACE];
    } else {
      metadata.filterMetadata := metadata.filterMetadata[METADATA_NAMESPACE := fields];
    }
    fields := fields[METADATA_POOL_KEY := StringValue(EncodeRef(pool))];
    metadata.filterMetadata := metadata.filterMetadata[METADATA_NAMESPACE := fields];
  }

  // ---------- Extension resources ----------

  const POOL_API_VERSION := "inference.networking.k8s.io/v1"
  const POOL_KIND := "InferencePool"

  /** A Kubernetes object; converted is what the library converter makes of it, if it accepts it. */
  datatype Unstructured = Unstructured(apiVersion: string, kind: string, converted: Option<InferencePool>)

  /** The bytes of an extension resource, with the object they spell when they are JSON. */
  datatype Resource = Resource(content: Option<Unstructured>)

  predicate IsPool(resource: Resource) {
    && resource.content.Some? && resource.content.value.apiVersion == POOL_API_VERSION
    && resource.content.value.kind == POOL_KIND && resource.content.value.converted.Some?
  }

  function PoolsIn(resources: seq<Resource>): seq<InferencePool> {
    if resources == [] then []
    else
      var last := resources[|resources| - 1];
      PoolsIn(resources[..|resources| - 1]) + if IsPool(last) then [last.content.value.converted.value] else []
  }

  /** at lists, in ascending order, the places of all pool resources, and pools what stands there. */
  ghost predicate PicksPools(resources: seq<Resource>, pools: seq<InferencePool>, at: seq<nat>) {
    && Increasing(at) && |pools| == |at|
    && (forall j :: j in at <==>
          0 <= j < |resources| && resources[j].content.Some?
          && resources[j].content.value.apiVersion == "inference.networking.k8s.io/v1"
          && resources[j].content.value.kind == "InferencePool" && resources[j].content.value.converted.Some?)
    && forall i :: 0 <= i < |at| ==> at[i] < |resources| && Some(pools[i]) == resources[at[i]].content.value.converted
  }

  lemma PickNext(resources: seq<Resource>, pools: seq<InferencePool>, at: seq<nat>, next: Resource)
    requires PicksPools(resources, pools, at) && IsPool(next)
    ensures PicksPools(resources + [next], pools + [next.content.value.converted.value], at + [|resources|])
  {
    var more, at' := resources + [next], at + [|resources|];
    forall j ensures j in at' <==> 0 <= j < |more| && IsPool(more[j]) {
      assert j in at' <==> j in at || j == |resources|;
    }
    assert forall i :: 0 <= i < |at| ==> at[i] in at;
  }

  lemma PickNone(resources: seq<Resource>, pools: seq<InferencePool>, at: seq<nat>, next: Resource)
    requires PicksPools(resources, pools, at) && !IsPool(next)
    ensures PicksPools(resources + [next], pools, at)
  {
    assert forall i :: 0 <= i < |at| ==> at[i] in at;
  }

  /** The pools of a resource list are those of its pool resources, each once and in their order; every other
      resource is skipped. */
  lemma {:induction false} PoolsInOrder(resources: seq<Resource>) returns (at: seq<nat>)
    ensures PicksPools(resources, PoolsIn(resources), at)
  {
    if resources == [] {
      at := [];
    } else {
      var init, last := resources[..|resources| - 1], resources[|resources| - 1];
      at := PoolsInOrder(init);
      assert resources == init + [last];
      if IsPool(last) {
        PickNext(init, PoolsIn(init), at, last);
        at := at + [|init|];
      } else {
        PickNone(init, PoolsIn(init), at, last);
      }
    }
  }

  method ConstructInferencePools(resources: seq<Resource>) returns (pools: seq<InferencePool>, ghost at: seq<nat>)
    ensures pools == PoolsIn(resources) && PicksPools(resources, pools, at)
  {
    pools := [];
    for i := 0 to |resources|
      invariant pools == PoolsIn(resources[..i])
    {
      assert resources[..i + 1][..i] == resources[..i];
      if resources[i].content.None? {
        continue;
      }
      var found := resources[i].content.value;
      if found.apiVersion == POOL_API_VERSION && found.kind == POOL_KIND {
        if found.converted.None? {
          continue;
        }
        pools := pools + [found.converted.value];
      }
    }
    assert resources[..|resources|] == resources;
    at := PoolsInOrder(resources);
  }

  /** The pools of the resources in a request's context, if it has one. */
  function ContextPools(resources: Option<seq<Resource>>): seq<InferencePool> {
    match resources case None => [] case Some(rs) => PoolsIn(rs)
  }

  // ---------- Routes ----------

  class XdsRoute {
    var autoHostRewrite: Option<bool>
    /** None is the nil map. */
    var typedPerFilterConfig: Option<map<string, PerRouteConfig>>
    const metadata: Metadata?

    constructor (
      autoHostRewrite: Option<bool>, overrides: Option<map<string, PerRouteConfig>>, metadata: Metadata?)
      ensures this.autoHostRewrite == autoHostRewrite && typedPerFilterConfig == overrides && this.metadata == metadata
    {
      this.autoHostRewrite, this.typedPerFilterConfig, this.metadata := autoHostRewrite, overrides, metadata;
    }
  }

  /** Marks a route whose backend is one InferencePool; resources is absent without a route context. */
  method PostRouteModify(route: XdsRoute, resources: Option<seq<Resource>>) returns (r: Result<XdsRoute>)
    modifies route, route.metadata
    ensures r.Err? <==> |ContextPools(resources)| > 1
    ensures r.Ok? ==> r.value == route
    ensures |ContextPools(resources)| != 1 ==>
              unchanged(route) && (route.metadata != null ==> unchanged(route.metadata))
    ensures |ContextPools(resources)| == 1 ==>
              && Tagged(old(Read(route.metadata)), Read(route.metadata), ContextPools(resources)[0])
              && route.autoHostRewrite == Some(false)
              && route.typedPerFilterConfig
                 == Some(if old(route.typedPerFilterConfig).Some? then old(route.typedPerFilterConfig).value else map[])
  {
    if resources.None? || |resources.value| == 0 {
      return Ok(route);
    }
    var pools, _ := ConstructInferencePools(resources.value);
    if |pools| == 0 {
      return Ok(route);
    }
    if |pools| != 1 {
      return Err("BUG: at most one inferencepool can be referenced per route rule");
    }
    route.autoHostRewrite := Some(false);
    if route.typedPerFilterConfig.None? {
      route.typedPerFilterConfig := Some(map[]);
    }
    BuildEPPMetadata(route.metadata, pools[0]);
    return Ok(route);
  }

  // ---------- Clusters ----------

  datatype DiscoveryType = OriginalDst | OtherDiscovery(raw: string)

  datatype LbPolicy = ClusterProvided | OtherPolicy(raw: string)

  datatype LbConfig = OriginalDstLb(useHttpHeader: bool, httpHeaderName: string) | OtherLbConfig(raw: string)

  /** The fields of a cluster that decide where it sends requests. */
  datatype Destination = Destination(
    discovery: DiscoveryType, lbPolicy: LbPolicy, connectTimeoutSeconds: int, lbConfig: Option<LbConfig>,
    loadBalancingPolicy: Option<string>, edsClusterConfig: Option<string>)

  const ENDPOINT_HEADER := "x-gateway-destination-endpoint"

  /** A cluster that dials the address the endpoint picker puts into the header. */
  const HEADER_DESTINATION :=
    Destination(OriginalDst, ClusterProvided, 10, Some(OriginalDstLb(true, ENDPOINT_HEADER)), None, None)

  class XdsCluster {
    var destination: Destination
    const metadata: Metadata?

    constructor (destination: Destination, metadata: Metadata?)
      ensures this.destination == destination && this.metadata == metadata
    {
      this.destination, this.metadata := destination, metadata;
    }

    /** Rewrites the fields one by one. */
    method HandleInferencePool(pool: InferencePool)
      modifies this, metadata
      ensures destination == HEADER_DESTINATION && Tagged(old(Read(metadata)), Read(metadata), pool)
    {
      destination := destination.(discovery := OriginalDst);
      destination := destination.(lbPolicy := ClusterProvided);
      destination := destination.(connectTimeoutSeconds := 10);
      destination := destination.(lbConfig := Some(OriginalDstLb(true, ENDPOINT_HEADER)));
      destination := destination.(loadBalancingPolicy := None);
      destination := destination.(edsClusterConfig := None);
      BuildEPPMetadata(metadata, pool);
    }
  }

  /** Turns a cluster whose backend is one InferencePool into one that dials the address in the endpoint
      header, and stores the same reference a route of that pool carries. */
  method PostClusterModify(cluster: XdsCluster, resources: Option<seq<Resource>>) returns (r: Result<XdsCluster>)
    modifies cluster, cluster.metadata
    ensures r.Err? <==> |ContextPools(resources)| > 1
    ensures r.Ok? ==> r.value == cluster
    ensures |ContextPools(resources)| != 1 ==>
              unchanged(cluster) && (cluster.metadata != null ==> unchanged(cluster.metadata))
    ensures |ContextPools(resources)| == 1 ==>
              && Tagged(old(Read(cluster.metadata)), Read(cluster.metadata), ContextPools(resources)[0])
              && cluster.destination == HEADER_DESTINATION
  {
    if resources.None? || |resources.value| == 0 {
      return Ok(cluster);
    }
    var pools, _ := ConstructInferencePools(resources.value);
    if |pools| == 0 {
      return Ok(cluster);
    }
    if |pools| != 1 {
      return Err("BUG: at most one inferencepool can be referenced per route rule");
    }
    cluster.HandleInferencePool(pools[0]);
    return Ok(cluster);
  }
}
