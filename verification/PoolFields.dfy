/** What becomes of every field of a pool on its way through the reference string: into the decoded pool,
    the HTTP filter and the endpoint-picker cluster. */
module PoolFields {
  import opened Text
  import opened InferencePools
  import opened FilterChains
  import opened PostTranslate

  // ---------- The port ----------

  /** A declared port from 0 to 65535 is used as it is; any other pool has the port of a pool without one. */
  lemma PortExact(pool: InferencePool, n: Int32)
    ensures 0 <= n <= 65535 ==> Port(pool.(pickerPort := Some(n))) == n
    ensures !(0 <= n <= 65535) ==> Port(pool.(pickerPort := Some(n))) == Port(pool.(pickerPort := None)) == 9002
  {
  }

  // ---------- The reference string ----------

  /** The text is six parts with slashes between them, and the fourth is a number. */
  ghost predicate SixParts(ref: string, parts: seq<string>) {
    && |parts| == 6 && (forall p :: p in parts ==> '/' !in p)
    && ParseInt32(parts[3]).Some?
    && ref == Join(parts, '/')
  }

  /** A reference names a pool exactly when it is six parts of which the fourth is a number, and each part
      fills its own field. */
  lemma DecodeExact(ref: string)
    ensures DecodeRef(ref).Some? <==> exists parts :: SixParts(ref, parts)
    ensures forall parts :: SixParts(ref, parts) ==>
              var q := DecodeRef(ref).value;
              && q.namespace == parts[0] && q.name == parts[1] && q.pickerName == parts[2]
              && Some(q.pickerPort.value as int) == ParseInt32(parts[3])
              && q.annotations == map["aigateway.envoyproxy.io/processing-body-mode" := parts[4],
                                      "aigateway.envoyproxy.io/allow-mode-override" := parts[5]]
  {
    forall parts | SixParts(ref, parts) ensures Split(ref, '/') == parts {
      SplitJoin(parts, '/');
    }
    if DecodeRef(ref).Some? {
      JoinSplit(ref, '/');
      SplitParts(ref, '/');
      assert SixParts(ref, Split(ref, '/'));
    }
  }

  /** The pool as it comes back through its reference: the port and the two settings are the declared ones,
      or the defaults spelled out. */
  lemma RoundTripFields(pool: InferencePool)
    requires SlashFree(pool)
    ensures DecodeRef(EncodeRef(pool)).Some?
    ensures var q := DecodeRef(EncodeRef(pool)).value;
            && q.namespace == pool.namespace && q.name == pool.name && q.pickerName == pool.pickerName
            && q.pickerPort == (if pool.pickerPort.Some? && 0 <= pool.pickerPort.value <= 65535 then pool.pickerPort
                                else Some(9002))
            && q.annotations.Keys == {BODY_MODE_ANNOTATION, ALLOW_OVERRIDE_ANNOTATION}
            && q.annotations[BODY_MODE_ANNOTATION]
               == (if BODY_MODE_ANNOTATION in pool.annotations then pool.annotations[BODY_MODE_ANNOTATION] else "duplex")
            && q.annotations[ALLOW_OVERRIDE_ANNOTATION]
               == (if ALLOW_OVERRIDE_ANNOTATION in pool.annotations then pool.annotations[ALLOW_OVERRIDE_ANNOTATION]
                   else "false")
  {
    RefSplits(pool);
    ParseDecimal(Port(pool));
    assert |BODY_MODE_ANNOTATION| != |ALLOW_OVERRIDE_ANNOTATION|;
  }

  // ---------- The filter and the cluster ----------

  /** What a pool asks for decides what its filter and its cluster do, also after the pool went through its
      reference: the endpoint's port is the declared one or 9002, the authority is the endpoint's, bodies
      are buffered exactly when the annotation says "buffered", and the override is allowed exactly when
      the annotation says "true". */
  lemma PickerSettings(pool: InferencePool)
    requires SlashFree(pool)
    ensures forall q :: q == pool || Some(q) == DecodeRef(EncodeRef(pool)) ==>
              var processor, endpoint := PoolFilter(q).config.processor, EppCluster(q).endpoint.value;
              && endpoint.address == pool.pickerName + "." + pool.namespace + ".svc"
              && endpoint.port == (if pool.pickerPort.Some? && 0 <= pool.pickerPort.value <= 65535
                                   then pool.pickerPort.value else 9002)
              && processor.authority == endpoint.address + ":" + Decimal(endpoint.port)
              && processor.clusterName == EppCluster(q).name
              && (processor.bodyMode.Buffered?
                  <==> BODY_MODE_ANNOTATION in pool.annotations && pool.annotations[BODY_MODE_ANNOTATION] == "buffered")
              && (processor.allowModeOverride
                  <==> ALLOW_OVERRIDE_ANNOTATION in pool.annotations && pool.annotations[ALLOW_OVERRIDE_ANNOTATION] == "true")
  {
    RoundTripFields(pool);
    RefRoundTrip(pool);
    AuthorityIsDnsAndPort(pool);
    AuthorityIsDnsAndPort(DecodeRef(EncodeRef(pool)).value);
    assert |"duplex"| != |"buffered"| && |"false"| != |"true"|;
  }

  // ---------- Metadata ----------

  /** Metadata names the pool its string spells under the namespace and the key; without that string it names
      none. */
  lemma PoolByMetadataExact(metadata: FilterMetadata)
    ensures PoolByMetadata(None) == None
    ensures var stored := "aigateway.envoy.io" in metadata
                       && "per_route_rule_inference_pool" in metadata["aigateway.envoy.io"]
                       && metadata["aigateway.envoy.io"]["per_route_rule_inference_pool"].StringValue?;
            PoolByMetadata(Some(metadata))
            == if stored then DecodeRef(metadata["aigateway.envoy.io"]["per_route_rule_inference_pool"].text) else None
  {
    assert DecodeRef("").None? by { SplitPlain("", '/'); }
  }

  /** Storing a reference makes it the one found there and leaves every other entry as it was. */
  lemma WithRefKeeps(metadata: FilterMetadata, ref: string)
    ensures var after := WithRef(metadata, ref);
            && RefOf(Some(after)) == ref
            && (forall n :: n != METADATA_NAMESPACE ==>
                  (n in after <==> n in metadata) && (n in metadata ==> after[n] == metadata[n]))
            && (forall k :: k != METADATA_POOL_KEY ==>
                  (k in after[METADATA_NAMESPACE] <==> METADATA_NAMESPACE in metadata && k in metadata[METADATA_NAMESPACE]))
            && (METADATA_NAMESPACE in metadata ==>
                  forall k :: k in metadata[METADATA_NAMESPACE] && k != METADATA_POOL_KEY ==>
                    after[METADATA_NAMESPACE][k] == metadata[METADATA_NAMESPACE][k])
  {
  }

  /** Six texts with slashes between them. */
  function Slashed(a: string, b: string, c: string, d: string, e: string, f: string): string {
    a + "/" + (b + "/" + (c + "/" + (d + "/" + (e + "/" + f))))
  }

  /** The documented form: the reference in the metadata, and the filter it leads to. */
  lemma DocumentedForm(namespace: string, name: string, service: string)
    requires '/' !in namespace && '/' !in name && '/' !in service
    ensures var ref := Slashed(namespace, name, service, "9002", "duplex", "false");
            var pool := PoolByMetadata(Some(
              map["aigateway.envoy.io" := map["per_route_rule_inference_pool" := StringValue(ref)]]));
            && pool.Some?
            && PoolFilter(pool.value).name
               == "envoy.filters.http.ext_proc/endpointpicker/" + (name + "_" + namespace + "_ext_proc")
            && PoolFilter(pool.value).config.processor
               == ExternalProcessor("envoy.clusters.endpointpicker_" + (name + "_" + namespace + "_ext_proc"),
                    service + "." + namespace + ".svc:" + "9002", FullDuplexStreamed, false)
  {
    var ref := Slashed(namespace, name, service, "9002", "duplex", "false");
    DefaultPortInDecimal();
    ParseDecimal(9002);
    DecodeSix(namespace, name, service, "9002", "duplex", "false");
    PoolByMetadataExact(map["aigateway.envoy.io" := map["per_route_rule_inference_pool" := StringValue(ref)]]);
    SettingsOfTexts(DecodeRef(ref).value);
  }

  lemma SettingsOfTexts(q: InferencePool)
    ensures q.annotations == map[BODY_MODE_ANNOTATION := "duplex", ALLOW_OVERRIDE_ANNOTATION := "false"] ==>
      BodyModeOf(q) == FullDuplexStreamed && !AllowOverride(q)
  {
    assert |BODY_MODE_ANNOTATION| != |ALLOW_OVERRIDE_ANNOTATION|;
    assert |"duplex"| != |"buffered"| && |"false"| != |"true"|;
  }

  lemma DecodeSix(a: string, b: string, c: string, d: string, e: string, f: string)
    requires forall p :: p in [a, b, c, d, e, f] ==> '/' !in p
    requires ParseInt32(d).Some?
    ensures DecodeRef(Slashed(a, b, c, d, e, f))
            == Some(InferencePool(a, b, map[BODY_MODE_ANNOTATION := e, ALLOW_OVERRIDE_ANNOTATION := f], c,
                                  Some(ParseInt32(d).value)))
  {
    JoinSix(a, b, c, d, e, f);
    assert SixParts(Slashed(a, b, c, d, e, f), [a, b, c, d, e, f]);
    DecodeExact(Slashed(a, b, c, d, e, f));
  }

  lemma JoinSix(a: string, b: string, c: string, d: string, e: string, f: string)
    ensures Join([a, b, c, d, e, f], '/') == Slashed(a, b, c, d, e, f)
  {
    JoinTwo(e, [f]);
    JoinTwo(d, [e, f]);
    JoinTwo(c, [d, e, f]);
    JoinTwo(b, [c, d, e, f]);
    JoinTwo(a, [b, c, d, e, f]);
    assert Join([f], '/') == f;
  }

  lemma JoinTwo(first: string, rest: seq<string>)
    requires rest != []
    ensures Join([first] + rest, '/') == first + "/" + Join(rest, '/')
  {
    assert ([first] + rest)[1..] == rest && |[first] + rest| > 1;
  }

  lemma DefaultPortInDecimal()
    ensures Decimal(9002) == "9002"
  {
    DecimalStep(9, 0);
    DecimalStep(90, 0);
    DecimalStep(900, 2);
    assert Decimal(9) == "9" && Decimal(90) == "90" && Decimal(900) == "900";
  }
}
