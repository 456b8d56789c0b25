/** InferencePool references: the slash-separated string under which a pool is stored in route and
    cluster metadata, its decoding, and the names derived from a pool. */
module InferencePools {
  import opened Text

  type Int32 = n: int | -0x8000_0000 <= n < 0x8000_0000

  /** The fields of an InferencePool the gateway reads.  A nil annotation map reads like an empty one. */
  datatype InferencePool = InferencePool(
    namespace: string, name: string, annotations: map<string, string>,
    pickerName: string, pickerPort: Option<Int32>)

  datatype BodyMode = FullDuplexStreamed | Buffered

  const DEFAULT_PICKER_PORT := 9002
  const BODY_MODE_ANNOTATION := "aigateway.envoyproxy.io/processing-body-mode"
  const ALLOW_OVERRIDE_ANNOTATION := "aigateway.envoyproxy.io/allow-mode-override"
  const METADATA_NAMESPACE := "aigateway.envoy.io"
  const METADATA_POOL_KEY := "per_route_rule_inference_pool"
  const FILTER_PREFIX := "envoy.filters.http.ext_proc/endpointpicker/"
  const CLUSTER_PREFIX := "envoy.clusters.endpointpicker_"

  // ---------- What the gateway derives from a pool ----------

  function Annotation(pool: InferencePool, key: string, default: string): string {
    if key in pool.annotations then pool.annotations[key] else default
  }

  function BodyModeText(pool: InferencePool): string {
    Annotation(pool, BODY_MODE_ANNOTATION, "duplex")
  }

  function AllowOverrideText(pool: InferencePool): string {
    Annotation(pool, ALLOW_OVERRIDE_ANNOTATION, "false")
  }

  function BodyModeOf(pool: InferencePool): BodyMode {
    if BODY_MODE_ANNOTATION !in pool.annotations then FullDuplexStreamed
    else if pool.annotations[BODY_MODE_ANNOTATION] == "buffered" then Buffered
    else FullDuplexStreamed
  }

  predicate AllowOverride(pool: InferencePool) {
    ALLOW_OVERRIDE_ANNOTATION in pool.annotations && pool.annotations[ALLOW_OVERRIDE_ANNOTATION] == "true"
  }

  function Port(pool: InferencePool): (port: nat)
    ensures port <= 65535
  {
    match pool.pickerPort
    case None => DEFAULT_PICKER_PORT
    case Some(n) => if n < 0 || n > 65535 then DEFAULT_PICKER_PORT else n
  }

  function PoolSuffix(pool: InferencePool): string {
    pool.name + "_" + pool.namespace + "_ext_proc"
  }

  function FilterName(pool: InferencePool): string {
    FILTER_PREFIX + PoolSuffix(pool)
  }

  function ClusterName(pool: InferencePool): string {
    CLUSTER_PREFIX + PoolSuffix(pool)
  }

  function DnsName(pool: InferencePool): string {
    pool.pickerName + "." + pool.namespace + ".svc"
  }

  function Authority(pool: InferencePool): string {
    pool.pickerName + "." + pool.namespace + ".svc:" + Decimal(Port(pool))
  }

  /** The authority a filter dials is the address and port of the endpoint picker. */
  lemma AuthorityIsDnsAndPort(pool: InferencePool)
    ensures Authority(pool) == DnsName(pool) + ":" + Decimal(Port(pool))
  {
    var host := pool.pickerName + "." + pool.namespace;
    assert host + ".svc:" == host + ".svc" + ":";
  }

  /** Equal filter names mean equal cluster names: both end in the same pool suffix. */
  lemma FilterNameFixesCluster(p: InferencePool, q: InferencePool)
    ensures FilterName(p) == FilterName(q) <==> ClusterName(p) == ClusterName(q)
  {
    assert FilterName(p)[|FILTER_PREFIX|..] == PoolSuffix(p);
    assert FilterName(q)[|FILTER_PREFIX|..] == PoolSuffix(q);
    assert ClusterName(p)[|CLUSTER_PREFIX|..] == PoolSuffix(p);
    assert ClusterName(q)[|CLUSTER_PREFIX|..] == PoolSuffix(q);
  }

  /** Filter names tell pools apart as soon as pool names hold no underscore, as Kubernetes demands. */
  lemma FilterNameInjective(p: InferencePool, q: InferencePool)
    requires '_' !in p.name && '_' !in q.name
    requires FilterName(p) == FilterName(q)
    ensures p.name == q.name && p.namespace == q.namespace
  {
    var a, b := FilterName(p)[|FILTER_PREFIX|..], FilterName(q)[|FILTER_PREFIX|..];
    assert a == PoolSuffix(p) && b == PoolSuffix(q);
    assert a[..|p.name|] == p.name && b[..|q.name|] == q.name;
    IndexUnique(a, '_', |p.name|);
    IndexUnique(b, '_', |q.name|);
    assert a[|p.name| + 1..|a| - |"_ext_proc"|] == p.namespace;
    assert b[|q.name| + 1..|b| - |"_ext_proc"|] == q.namespace;
  }

  /** With underscores two different pools can share one filter name. */
  lemma FilterNameClash(p: InferencePool, q: InferencePool)
    requires p.name == "a_b" && p.namespace == "c" && q.name == "a" && q.namespace == "b_c"
    ensures FilterName(p) == FilterName(q)
  {
    assert PoolSuffix(p) == "a_b_c_ext_proc" == PoolSuffix(q);
  }

  /** Moves the boundary between name and namespace to another underscore of the filter name. */
  function Twin(p: InferencePool): InferencePool
    requires '_' in p.name || '_' in p.namespace
  {
    if '_' in p.name then
      var i := Index(p.name, '_');
      p.(name := p.name[..i], namespace := p.name[i + 1..] + "_" + p.namespace)
    else
      var i := Index(p.namespace, '_');
      p.(name := p.name + "_" + p.namespace[..i], namespace := p.namespace[i + 1..])
  }

  lemma TwinSharesName(p: InferencePool)
    requires '_' in p.name || '_' in p.namespace
    ensures FilterName(Twin(p)) == FilterName(p) && Twin(p).name != p.name
  {
    var q := Twin(p);
    assert q.name + "_" + q.namespace == p.name + "_" + p.namespace;
    assert |q.name| != |p.name|;
  }

  /** Without underscores no other pool has the filter name. */
  lemma NoTwin(p: InferencePool, q: InferencePool)
    requires '_' !in p.name && '_' !in p.namespace && FilterName(q) == FilterName(p)
    ensures q.name == p.name && q.namespace == p.namespace
  {
    var a, b := p.name + "_" + p.namespace, q.name + "_" + q.namespace;
    assert FilterName(p)[|FILTER_PREFIX|..] == a + "_ext_proc" && FilterName(q)[|FILTER_PREFIX|..] == b + "_ext_proc";
    assert a == (a + "_ext_proc")[..|a|] && b == (b + "_ext_proc")[..|b|];
    assert multiset(a)['_'] == 1;
    assert multiset(b)['_'] == multiset(q.name)['_'] + 1 + multiset(q.namespace)['_'];
    assert '_' !in multiset(q.name);
    FilterNameInjective(p, q);
  }

  /** Exactly when a filter name does not tell its pool: some pool of another name or namespace shares it if
      and only if the pool's own name or namespace holds an underscore. */
  lemma FilterNameSharedIff(p: InferencePool)
    ensures (exists q :: FilterName(q) == FilterName(p) && (q.name != p.name || q.namespace != p.namespace))
            <==> '_' in p.name || '_' in p.namespace
  {
    if '_' in p.name || '_' in p.namespace {
      TwinSharesName(p);
    } else {
      forall q | FilterName(q) == FilterName(p) ensures q.name == p.name && q.namespace == p.namespace {
        NoTwin(p, q);
      }
    }
  }

  // ---------- The reference string ----------

  function RefParts(pool: InferencePool): seq<string> {
    [pool.namespace, pool.name, pool.pickerName, Decimal(Port(pool)), BodyModeText(pool), AllowOverrideText(pool)]
  }

  /** "namespace/name/service/port/body mode/allow override". */
  function EncodeRef(pool: InferencePool): string {
    Join(RefParts(pool), '/')
  }

  function DecodeRef(ref: string): Option<InferencePool> {
    var parts := Split(ref, '/');
    if |parts| != 6 then None
    else match ParseInt32(parts[3])
      case None => None
      case Some(port) =>
        Some(InferencePool(parts[0], parts[1],
          map[BODY_MODE_ANNOTATION := parts[4], ALLOW_OVERRIDE_ANNOTATION := parts[5]],
          parts[2], Some(port)))
  }

  predicate SlashFree(pool: InferencePool) {
    && '/' !in pool.namespace && '/' !in pool.name && '/' !in pool.pickerName
    && '/' !in BodyModeText(pool) && '/' !in AllowOverrideText(pool)
  }

  /** The two pools lead to the same filter, the same cluster and the same endpoint picker. */
  predicate SamePicker(p: InferencePool, q: InferencePool) {
    && FilterName(p) == FilterName(q) && ClusterName(p) == ClusterName(q)
    && Authority(p) == Authority(q) && DnsName(p) == DnsName(q) && Port(p) == Port(q)
    && BodyModeOf(p) == BodyModeOf(q) && AllowOverride(p) == AllowOverride(q)
  }

  lemma RefSplits(pool: InferencePool)
    ensures |Split(EncodeRef(pool), '/')| == 6 <==> SlashFree(pool)
    ensures SlashFree(pool) ==> Split(EncodeRef(pool), '/') == RefParts(pool)
  {
    var parts := RefParts(pool);
    DecimalDigits(Port(pool));
    assert '/' !in Decimal(Port(pool)) by { assert !IsDigit('/'); }
    assert SlashFree(pool) <==> forall p :: p in parts ==> '/' !in p by {
      assert parts[0] in parts && parts[1] in parts && parts[2] in parts && parts[4] in parts && parts[5] in parts;
    }
    JoinCount(parts, '/');
    SplitLength(EncodeRef(pool), '/');
    if SlashFree(pool) {
      SplitJoin(parts, '/');
    }
  }

  /** Decoding the reference of any pool gives an equivalent pool exactly when no field holds a slash;
      otherwise it gives nothing. */
  lemma RefRoundTrip(pool: InferencePool)
    ensures DecodeRef(EncodeRef(pool)).Some? <==> SlashFree(pool)
    ensures SlashFree(pool) ==>
              && SamePicker(pool, DecodeRef(EncodeRef(pool)).value)
              && DecodeRef(EncodeRef(pool)).value.namespace == pool.namespace
              && DecodeRef(EncodeRef(pool)).value.name == pool.name
  {
    RefSplits(pool);
    ParseDecimal(Port(pool));
    assert BODY_MODE_ANNOTATION != ALLOW_OVERRIDE_ANNOTATION;
  }

  /** Every reference the decoder accepts survives being encoded and decoded again, whatever sign,
      leading zeros or out-of-range port it was written with. */
  lemma DecodedRefIsStable(ref: string)
    requires DecodeRef(ref).Some?
    ensures SlashFree(DecodeRef(ref).value)
    ensures DecodeRef(EncodeRef(DecodeRef(ref).value)).Some?
    ensures SamePicker(DecodeRef(ref).value, DecodeRef(EncodeRef(DecodeRef(ref).value)).value)
  {
    SplitParts(ref, '/');
    RefRoundTrip(DecodeRef(ref).value);
  }

  // ---------- Metadata ----------

  /** A protobuf Value: a string, or something GetStringValue reads as the empty string. */
  datatype Value = StringValue(text: string) | OtherValue(raw: string)

  type Struct = map<string, Value>

  type FilterMetadata = map<string, Struct>

  /** The text stored under the pool key, or the empty string. */
  function StoredRef(metadata: FilterMetadata): string {
    if METADATA_NAMESPACE in metadata && METADATA_POOL_KEY in metadata[METADATA_NAMESPACE]
       && metadata[METADATA_NAMESPACE][METADATA_POOL_KEY].StringValue?
    then metadata[METADATA_NAMESPACE][METADATA_POOL_KEY].text
    else ""
  }

  function RefOf(metadata: Option<FilterMetadata>): string {
    match metadata case None => "" case Some(m) => StoredRef(m)
  }

  /** The pool an xDS object's metadata names, if any; absent metadata names none. */
  function PoolByMetadata(metadata: Option<FilterMetadata>): Option<InferencePool> {
    DecodeRef(RefOf(metadata))
  }

  /** The metadata with ref stored under the pool key and every other entry as it was. */
  function WithRef(metadata: FilterMetadata, ref: string): FilterMetadata {
    var fields := if METADATA_NAMESPACE in metadata then metadata[METADATA_NAMESPACE] else map[];
    metadata[METADATA_NAMESPACE := fields[METADATA_POOL_KEY := StringValue(ref)]]
  }
}
