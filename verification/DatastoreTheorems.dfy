/** What the endpoint store holds after any run, and when a resync leaves exactly the wanted endpoints. */
module DatastoreTheorems {
  import opened Text
  import opened Datastore

  /** One key per ready pod and port. */
  ghost function WantedKeys(pods: seq<Pod>, count: nat): set<Key> {
    set p, k | p in pods && p.ready && k in KeysFor(p, count) :: k
  }

  ghost predicate IsRank(k: Key, podName: string) {
    exists rank: nat :: k.name == podName + "-rank-" + Decimal(rank)
  }

  /** Every endpoint is stored under its own key, and that key is a rank of its pod. */
  ghost predicate Consistent(view: View) {
    forall k :: k in view ==> view[k].key == k && IsRank(k, view[k].podName)
  }

  lemma {:induction false} WithRanksConsistent(view: View, pod: Pod, ports: seq<int>, count: nat)
    requires Consistent(view) && count <= |ports|
    ensures Consistent(WithRanks(view, pod, ports, count))
  {
    if count > 0 {
      WithRanksConsistent(view, pod, ports, count - 1);
      assert IsRank(RankKey(pod, count - 1), pod.name);
    }
  }

  lemma {:induction false} WithPodsConsistent(view: View, pods: seq<Pod>, ports: seq<int>)
    requires Consistent(view)
    ensures Consistent(WithPods(view, pods, ports))
  {
    if pods != [] {
      WithPodsConsistent(view, pods[..|pods| - 1], ports);
      WithRanksConsistent(WithPods(view, pods[..|pods| - 1], ports), pods[|pods| - 1], ports, |ports|);
    }
  }

  lemma StepConsistent(s: State, e: Event)
    requires Consistent(s.view)
    ensures Consistent(Step(s, e).view)
  {
    match e
    case PodEvent(name, Found(pod)) =>
      if Selects(s.pool, pod.labels) {
        WithRanksConsistent(s.view, pod, s.pool.value.targetPorts, |s.pool.value.targetPorts|);
      }
    case PoolEvent(latest, Ok(pods)) => WithPodsConsistent(s.view, pods, latest.targetPorts);
    case _ =>
  }

  /** In every reachable state every endpoint is stored under a rank key of its own pod. */
  lemma {:induction false} ReachableConsistent(events: seq<Event>)
    ensures Consistent(Steps(State(None, map[]), events).view)
  {
    if events != [] {
      ReachableConsistent(events[..|events| - 1]);
      StepConsistent(Steps(State(None, map[]), events[..|events| - 1]), events[|events| - 1]);
    }
  }

  // ---------- Resync ----------

  lemma {:induction false} WithRanksEntries(view: View, pod: Pod, ports: seq<int>, count: nat, k: Key)
    requires count <= |ports|
    ensures k in WithRanks(view, pod, ports, count) <==> k in view || k in KeysFor(pod, count)
    ensures k in KeysFor(pod, count) ==> WithRanks(view, pod, ports, count)[k].podName == pod.name
    ensures k in view && k !in KeysFor(pod, count) ==> WithRanks(view, pod, ports, count)[k] == view[k]
  {
    if count > 0 {
      WithRanksEntries(view, pod, ports, count - 1, k);
      KeysForStep(pod, count - 1);
    }
  }

  lemma {:induction false} WithPodsEntries(view: View, pods: seq<Pod>, ports: seq<int>, k: Key)
    ensures k in WithPods(view, pods, ports) <==> k in view || k in WantedKeys(pods, |ports|)
    ensures k in WantedKeys(pods, |ports|) ==> WithPods(view, pods, ports)[k].podName in ReadyNames(pods)
    ensures k in view && k !in WantedKeys(pods, |ports|) ==> WithPods(view, pods, ports)[k] == view[k]
  {
    if pods != [] {
      var init, last := pods[..|pods| - 1], pods[|pods| - 1];
      WithPodsEntries(view, init, ports, k);
      WithRanksEntries(WithPods(view, init, ports), last, ports, |ports|, k);
      assert pods == init + [last];
      assert k in WantedKeys(pods, |ports|) <==>
               k in WantedKeys(init, |ports|) || (last.ready && k in KeysFor(last, |ports|));
      assert ReadyNames(init) <= ReadyNames(pods);
    }
  }

  /** The endpoints after a resync: one per ready pod and port, and those already stored for the name of a
      ready pod. */
  lemma ResyncKeys(view: View, pods: seq<Pod>, ports: seq<int>, k: Key)
    ensures k in Resynced(view, pods, ports)
            <==> (exists p, rank: nat :: p in pods && p.ready && rank < |ports| && k == RankKey(p, rank))
                 || (k in view && exists p :: p in pods && p.ready && p.name == view[k].podName)
  {
    WithPodsEntries(view, pods, ports, k);
    if k in WantedKeys(pods, |ports|) {
      var p :| p in pods && p.ready && k in KeysFor(p, |ports|);
      var rank: nat :| rank < |ports| && RankKey(p, rank) == k;
    }
    forall p, rank: nat | p in pods && p.ready && rank < |ports| && k == RankKey(p, rank)
      ensures k in WantedKeys(pods, |ports|)
    {
      assert k in KeysFor(p, |ports|);
    }
  }

  lemma ResyncedWanted(view: View, pods: seq<Pod>, ports: seq<int>, k: Key)
    ensures k in Resynced(view, pods, ports)
            <==> k in WantedKeys(pods, |ports|) || (k in view && view[k].podName in ReadyNames(pods))
  {
    WithPodsEntries(view, pods, ports, k);
  }

  /** A resync leaves exactly one endpoint per ready pod and port, and nothing else, exactly when every
      endpoint already stored for an active pod name is among the wanted ones: surplus ranks of an active
      pod, and endpoints of a namesake in another namespace, are never removed. */
  lemma ResyncExactIff(view: View, pods: seq<Pod>, ports: seq<int>)
    ensures Resynced(view, pods, ports).Keys == WantedKeys(pods, |ports|)
            <==> forall k :: k in view && view[k].podName in ReadyNames(pods) ==> k in WantedKeys(pods, |ports|)
  {
    forall k
      ensures k in Resynced(view, pods, ports).Keys
              <==> k in WantedKeys(pods, |ports|) || (k in view && view[k].podName in ReadyNames(pods))
    {
      ResyncedWanted(view, pods, ports, k);
    }
    if Resynced(view, pods, ports).Keys == WantedKeys(pods, |ports|) {
      forall k | k in view && view[k].podName in ReadyNames(pods) ensures k in WantedKeys(pods, |ports|) {
        assert k in Resynced(view, pods, ports).Keys;
      }
    }
  }

  lemma {:induction false} WithRanksMetadata(view: View, pod: Pod, ports: seq<int>, count: nat, rank: nat)
    requires rank < count <= |ports|
    ensures RankKey(pod, rank) in WithRanks(view, pod, ports, count)
    ensures WithRanks(view, pod, ports, count)[RankKey(pod, rank)] == MetadataFor(pod, ports, rank)
  {
    if rank < count - 1 {
      WithRanksMetadata(view, pod, ports, count - 1, rank);
      if RankKey(pod, rank) == RankKey(pod, count - 1) {
        RankKeyInjective(pod, pod, rank, count - 1);
      }
    }
  }

  /** No two pods of the list share namespace and name. */
  predicate DistinctPods(pods: seq<Pod>) {
    forall i, j :: 0 <= i < j < |pods| ==> pods[i].namespace != pods[j].namespace || pods[i].name != pods[j].name
  }

  lemma {:induction false} WithPodsMetadata(view: View, pods: seq<Pod>, ports: seq<int>, i: nat, rank: nat)
    requires DistinctPods(pods) && i < |pods| && pods[i].ready && rank < |ports|
    ensures RankKey(pods[i], rank) in WithPods(view, pods, ports)
    ensures WithPods(view, pods, ports)[RankKey(pods[i], rank)] == MetadataFor(pods[i], ports, rank)
  {
    var init, last := pods[..|pods| - 1], pods[|pods| - 1];
    if i == |pods| - 1 {
      WithRanksMetadata(WithPods(view, init, ports), last, ports, |ports|, rank);
    } else {
      WithPodsMetadata(view, init, ports, i, rank);
      var k := RankKey(pods[i], rank);
      forall j: nat | j < |ports| ensures RankKey(last, j) != k {
        if RankKey(last, j) == k {
          RankKeyInjective(last, pods[i], j, rank);
        }
      }
      WithRanksEntries(WithPods(view, init, ports), last, ports, |ports|, k);
    }
  }

  /** The metadata describes the pod on this port: its name, address and labels, the port in decimal, and a
      metrics host of both, the address in brackets if it holds a colon. */
  ghost predicate Describes(m: EndpointMetadata, k: Key, pod: Pod, port: int) {
    && m.key == k && m.podName == pod.name && m.address == pod.ip && m.labels == pod.labels && m.port == Itoa(port)
    && m.metricsHost == (if ':' in pod.ip then "[" + pod.ip + "]:" + Itoa(port) else pod.ip + ":" + Itoa(port))
  }

  /** After a resync every endpoint of a ready pod describes the pod as listed. */
  lemma ResyncMetadata(view: View, pods: seq<Pod>, ports: seq<int>, i: nat, rank: nat)
    requires DistinctPods(pods) && i < |pods| && pods[i].ready && rank < |ports|
    ensures RankKey(pods[i], rank) in Resynced(view, pods, ports)
    ensures Describes(Resynced(view, pods, ports)[RankKey(pods[i], rank)], RankKey(pods[i], rank), pods[i], ports[rank])
  {
    WithPodsMetadata(view, pods, ports, i, rank);
  }

  // ---------- When a pool event resyncs ----------

  const EMPTY := State(None, map[])

  /** The pool of the last pool event since the pool was last gone. */
  function LastPool(events: seq<Event>): Option<EndpointPool> {
    if events == [] then None
    else match events[|events| - 1]
      case PoolEvent(latest, _) => Some(latest)
      case PoolGone => None
      case PodEvent(_, _) => LastPool(events[..|events| - 1])
  }

  lemma {:induction false} PoolRemembered(events: seq<Event>)
    ensures Steps(EMPTY, events).pool == LastPool(events)
  {
    if events != [] {
      PoolRemembered(events[..|events| - 1]);
    }
  }

  lemma StepsOne(s: State, events: seq<Event>, e: Event)
    ensures Steps(s, events + [e]) == Step(Steps(s, events), e)
  {
    assert (events + [e])[..|events|] == events;
  }

  /** After any run, a pool event with a listing resyncs exactly when no pool is remembered, since there was
      none yet or it was gone since, or the selector differs; a failed listing never does. */
  lemma ResyncRunsIff(events: seq<Event>, latest: EndpointPool, listing: Result<seq<Pod>>)
    ensures var view, after := Steps(EMPTY, events).view, Steps(EMPTY, events + [PoolEvent(latest, listing)]).view;
            var due := LastPool(events).None? || LastPool(events).value.selector != latest.selector;
            && (listing.Err? ==> after == view)
            && (listing.Ok? && Resynced(view, listing.value, latest.targetPorts) != view ==>
                  (after == Resynced(view, listing.value, latest.targetPorts) <==> due))
            && (listing.Ok? && !due ==> after == view)
            && (listing.Ok? && due ==> after == Resynced(view, listing.value, latest.targetPorts))
  {
    PoolRemembered(events);
    StepsOne(EMPTY, events, PoolEvent(latest, listing));
  }

  /** Every pool event of the run has the selector, and the pool is never gone. */
  predicate KeepsSelector(run: seq<Event>, selector: Labels) {
    forall e :: e in run ==> !e.PoolGone? && (e.PoolEvent? ==> e.pool.selector == selector)
  }

  lemma {:induction false} SelectorStays(s: State, run: seq<Event>, selector: Labels)
    requires s.pool.Some? && s.pool.value.selector == selector && KeepsSelector(run, selector)
    ensures Steps(s, run).pool.Some? && Steps(s, run).pool.value.selector == selector
    ensures (forall e :: e in run ==> e.PoolEvent?) ==> Steps(s, run).view == s.view
  {
    if run != [] {
      var init, last := run[..|run| - 1], run[|run| - 1];
      assert last in run && forall e :: e in init ==> e in run;
      SelectorStays(s, init, selector);
    }
  }

  lemma {:induction false} StepsAppend(s: State, a: seq<Event>, b: seq<Event>)
    ensures Steps(s, a + b) == Steps(Steps(s, a), b)
  {
    if b == [] {
      assert a + b == a;
    } else {
      StepsAppend(s, a, b[..|b| - 1]);
      assert (a + b)[..|a + b| - 1] == a + b[..|b| - 1];
    }
  }

  /** A failed listing loses the resync for good: the pool is remembered before the list is read, so however
      often the same selector is seen again, and whatever pod events come between, no later pool event of that
      selector changes an endpoint. */
  lemma FailedListingLosesResync(
    s: State, failed: EndpointPool, message: string, run: seq<Event>, latest: EndpointPool, listing: Result<seq<Pod>>)
    requires KeepsSelector(run, failed.selector) && latest.selector == failed.selector
    ensures var reached := Steps(s, [PoolEvent(failed, Err(message))] + run);
            && Steps(s, [PoolEvent(failed, Err(message))] + run + [PoolEvent(latest, listing)]).view == reached.view
            && ((forall e :: e in run ==> e.PoolEvent?) ==> reached.view == s.view)
  {
    var failure := PoolEvent(failed, Err(message));
    StepsOne(s, [], failure);
    assert [] + [failure] == [failure];
    StepsAppend(s, [failure], run);
    SelectorStays(Step(s, failure), run, failed.selector);
    StepsOne(s, [failure] + run, PoolEvent(latest, listing));
  }

  // ---------- Reachable states of one namespace ----------

  predicate PodsIn(pods: seq<Pod>, namespace: string) {
    forall p :: p in pods ==> p.namespace == namespace
  }

  /** All pods the events speak of are in the namespace. */
  predicate OneNamespace(events: seq<Event>, namespace: string) {
    forall e :: e in events ==>
      match e
      case PodEvent(_, Found(pod)) => pod.namespace == namespace
      case PoolEvent(_, Ok(pods)) => PodsIn(pods, namespace)
      case _ => true
  }

  ghost predicate KeysIn(view: View, namespace: string) {
    forall k :: k in view ==> k.namespace == namespace
  }

  lemma {:induction false} WithPodsNamespace(view: View, pods: seq<Pod>, ports: seq<int>, namespace: string)
    requires KeysIn(view, namespace) && PodsIn(pods, namespace)
    ensures KeysIn(WithPods(view, pods, ports), namespace)
  {
    if pods != [] {
      var init, last := pods[..|pods| - 1], pods[|pods| - 1];
      assert last in pods;
      WithPodsNamespace(view, init, ports, namespace);
      WithRanksKeys(WithPods(view, init, ports), last, ports, |ports|);
    }
  }

  lemma {:induction false} ReachableNamespace(events: seq<Event>, namespace: string)
    requires OneNamespace(events, namespace)
    ensures KeysIn(Steps(EMPTY, events).view, namespace)
  {
    if events != [] {
      var init, last := events[..|events| - 1], events[|events| - 1];
      assert last in events && forall e :: e in init ==> e in events;
      ReachableNamespace(init, namespace);
      var s := Steps(EMPTY, init);
      match last
      case PodEvent(_, Found(pod)) =>
        if Selects(s.pool, pod.labels) {
          WithRanksKeys(s.view, pod, s.pool.value.targetPorts, |s.pool.value.targetPorts|);
        }
      case PoolEvent(latest, Ok(pods)) => WithPodsNamespace(s.view, pods, latest.targetPorts, namespace);
      case _ =>
    }
  }

  /** A stored key spelled as a rank of a pod belongs to that pod. */
  lemma StoredRankIsOf(view: View, p: Pod, rank: nat)
    requires Consistent(view) && RankKey(p, rank) in view
    ensures view[RankKey(p, rank)].podName == p.name
  {
    var k := RankKey(p, rank);
    assert IsRank(k, view[k].podName);
    var r: nat :| k.name == view[k].podName + "-rank-" + Decimal(r);
    RankKeyInjective(p, p.(name := view[k].podName), rank, r);
  }

  /** In every reachable state of one namespace, a resync leaves exactly one endpoint per ready pod and port if
      and only if no rank stored for a ready pod is at or above the port count. */
  lemma ReachableResyncIff(events: seq<Event>, namespace: string, pods: seq<Pod>, ports: seq<int>)
    requires OneNamespace(events, namespace) && PodsIn(pods, namespace)
    ensures var view := Steps(EMPTY, events).view;
            Resynced(view, pods, ports).Keys == WantedKeys(pods, |ports|)
            <==> forall p, rank: nat :: p in pods && p.ready && RankKey(p, rank) in view ==> rank < |ports|
  {
    var view := Steps(EMPTY, events).view;
    ReachableConsistent(events);
    ReachableNamespace(events, namespace);
    ResyncExactIff(view, pods, ports);
    var wanted := WantedKeys(pods, |ports|);
    if forall k :: k in view && view[k].podName in ReadyNames(pods) ==> k in wanted {
      forall p, rank: nat | p in pods && p.ready && RankKey(p, rank) in view ensures rank < |ports| {
        StoredRankIsOf(view, p, rank);
        WantedRank(pods, |ports|, p, rank);
      }
    }
    if forall p, rank: nat :: p in pods && p.ready && RankKey(p, rank) in view ==> rank < |ports| {
      forall k | k in view && view[k].podName in ReadyNames(pods) ensures k in wanted {
        var p :| p in pods && p.ready && p.name == view[k].podName;
        assert IsRank(k, view[k].podName);
        var rank: nat :| k.name == view[k].podName + "-rank-" + Decimal(rank);
        assert k == RankKey(p, rank);
        assert k in KeysFor(p, |ports|);
      }
    }
  }

  lemma WantedRank(pods: seq<Pod>, count: nat, p: Pod, rank: nat)
    requires RankKey(p, rank) in WantedKeys(pods, count)
    ensures rank < count
  {
    var q, k :| q in pods && q.ready && k in KeysFor(q, count) && k == RankKey(p, rank);
    var i: nat :| i < count && RankKey(q, i) == k;
    RankKeyInjective(p, q, rank, i);
  }

  /** A run that leaves a surplus rank: the pool's ports are cut while its selector changes, and a pod that is
      ready before and after keeps the endpoint of the port that is gone. */
  lemma SurplusRankKept(pod: Pod, first: EndpointPool, second: EndpointPool, rank: nat)
    requires pod.ready && first.selector != second.selector
    requires |second.targetPorts| <= rank < |first.targetPorts|
    ensures var view := Steps(EMPTY, [PoolEvent(first, Ok([pod])), PoolEvent(second, Ok([pod]))]).view;
            RankKey(pod, rank) in view && RankKey(pod, rank) !in WantedKeys([pod], |second.targetPorts|)
  {
    var e, f := PoolEvent(first, Ok([pod])), PoolEvent(second, Ok([pod]));
    StepsOne(EMPTY, [], e);
    assert [] + [e] == [e];
    StepsOne(EMPTY, [e], f);
    assert [e] + [f] == [e, f];
    var once := Steps(EMPTY, [e]).view;
    assert once == Resynced(map[], [pod], first.targetPorts);
    ResyncMetadata(map[], [pod], first.targetPorts, 0, rank);
    assert pod.name in ReadyNames([pod]);
    ResyncedWanted(once, [pod], second.targetPorts, RankKey(pod, rank));
    if RankKey(pod, rank) in WantedKeys([pod], |second.targetPorts|) {
      WantedRank([pod], |second.targetPorts|, pod, rank);
    }
  }

  /** Such a run exists: two ports under one selector, then one under another. */
  lemma SurplusRankExample(pod: Pod)
    requires pod.ready
    ensures exists first, second ::
              RankKey(pod, 1) in Steps(EMPTY, [PoolEvent(first, Ok([pod])), PoolEvent(second, Ok([pod]))]).view
              && RankKey(pod, 1) !in WantedKeys([pod], |second.targetPorts|)
  {
    var first := EndpointPool("ns", "pool", map["app" := "a"], [8000, 8001]);
    var second := EndpointPool("ns", "pool", map["app" := "b"], [8000]);
    assert first.selector["app"] != second.selector["app"];
    SurplusRankKept(pod, first, second, 1);
  }

  // ---------- Ports and stored ranks ----------

  function RankKeyOf(namespace: string, podName: string, rank: nat): Key {
    Key(namespace, podName + "-rank-" + Decimal(rank))
  }

  lemma RankKeyOfInjective(namespace: string, a: string, b: string, i: nat, j: nat)
    requires RankKeyOf(namespace, a, i) == RankKeyOf(namespace, b, j)
    ensures a == b && i == j
  {
    var pod := Pod(namespace, a, "", map[], true);
    RankKeyInjective(pod, pod.(name := b), i, j);
  }

  /** The endpoint stored under k is the one of this rank, on the port of this rank. */
  ghost predicate OnPort(view: View, k: Key, ports: seq<int>, rank: nat) {
    k in view && rank < |ports| && k == RankKeyOf(k.namespace, view[k].podName, rank) && view[k].port == Itoa(ports[rank])
  }

  /** Every stored pod has exactly one endpoint per port of the list, on that port. */
  ghost predicate RanksMatch(view: View, ports: seq<int>) {
    && (forall k :: k in view ==> exists rank: nat :: OnPort(view, k, ports, rank))
    && (forall k, rank: nat :: k in view && rank < |ports| ==> RankKeyOf(k.namespace, view[k].podName, rank) in view)
  }

  /** The rank that a list of ports gives a stored key is its spelled one. */
  lemma RankIsSpelled(view: View, ports: seq<int>, namespace: string, podName: string, rank: nat)
    requires RanksMatch(view, ports) && RankKeyOf(namespace, podName, rank) in view
    ensures rank < |ports| && view[RankKeyOf(namespace, podName, rank)].port == Itoa(ports[rank])
  {
    var k := RankKeyOf(namespace, podName, rank);
    var r: nat :| OnPort(view, k, ports, r);
    RankKeyOfInjective(namespace, podName, view[k].podName, rank, r);
  }

  /** Stored ranks match at most one list of ports. */
  lemma MatchedPortsAreUnique(view: View, a: seq<int>, b: seq<int>)
    requires view != map[] && RanksMatch(view, a) && RanksMatch(view, b)
    ensures a == b
  {
    var k :| k in view;
    var ns, name := k.namespace, view[k].podName;
    if |a| < |b| {
      RankIsSpelled(view, a, ns, name, |a|);
    } else if |b| < |a| {
      RankIsSpelled(view, b, ns, name, |b|);
    }
    forall rank: nat | rank < |a| ensures a[rank] == b[rank] {
      assert RankKeyOf(ns, name, rank) in view;
      RankIsSpelled(view, a, ns, name, rank);
      RankIsSpelled(view, b, ns, name, rank);
      ItoaInjective(a[rank], b[rank]);
    }
  }

  /** A pool whose ports change while its selector stays is not resynced: with endpoints stored that matched
      the old ports, the stored ranks match the new pool's ports exactly when nothing changed. */
  lemma PortChangeDriftsIff(s: State, latest: EndpointPool, listing: Result<seq<Pod>>)
    requires s.pool.Some? && s.pool.value.selector == latest.selector
    requires s.view != map[] && RanksMatch(s.view, s.pool.value.targetPorts)
    ensures var after := Step(s, PoolEvent(latest, listing));
            && after.pool == Some(latest)
            && (RanksMatch(after.view, latest.targetPorts) <==> latest.targetPorts == s.pool.value.targetPorts)
  {
    if RanksMatch(s.view, latest.targetPorts) {
      MatchedPortsAreUnique(s.view, s.pool.value.targetPorts, latest.targetPorts);
    }
  }

  /** An exact resync with a listing of distinct pods brings the ranks in line with the ports. */
  lemma ExactResyncMatchesPorts(view: View, pods: seq<Pod>, ports: seq<int>)
    requires DistinctPods(pods) && Resynced(view, pods, ports).Keys == WantedKeys(pods, |ports|)
    ensures RanksMatch(Resynced(view, pods, ports), ports)
  {
    var after := Resynced(view, pods, ports);
    forall k | k in after
      ensures exists rank: nat :: OnPort(after, k, ports, rank)
      ensures forall rank: nat :: rank < |ports| ==> RankKeyOf(k.namespace, after[k].podName, rank) in after
    {
      assert k in WantedKeys(pods, |ports|);
      var p, k' :| p in pods && p.ready && k' in KeysFor(p, |ports|) && k' == k;
      var rank: nat :| rank < |ports| && RankKey(p, rank) == k;
      var i :| 0 <= i < |pods| && pods[i] == p;
      ResyncMetadata(view, pods, ports, i, rank);
      assert OnPort(after, k, ports, rank);
      forall other: nat | other < |ports| ensures RankKeyOf(k.namespace, after[k].podName, other) in after {
        ResyncMetadata(view, pods, ports, i, other);
      }
    }
  }

  // ---------- One pod event ----------

  lemma WithRanksOthers(view: View, pod: Pod, ports: seq<int>, count: nat, k: Key)
    requires Consistent(view) && count <= |ports|
    ensures var after := WithRanks(view, pod, ports, count);
            && (k in view && view[k].podName != pod.name ==> k in after && after[k] == view[k])
            && (k in after && after[k].podName != pod.name ==> k in view && after[k] == view[k])
  {
    WithRanksEntries(view, pod, ports, count, k);
    if k in view && k in KeysFor(pod, count) {
      var rank: nat :| rank < count && RankKey(pod, rank) == k;
      StoredRankIsOf(view, pod, rank);
    }
  }

  /** In every reachable state, what a pod event with a pod does: the pod is stored on every port of the pool if
      it is ready, a pool is remembered and every pair of its selector is among the pod's labels; otherwise no
      endpoint of the pod's name remains.  Endpoints of other pods stay as they are. */
  lemma PodEventExact(events: seq<Event>, name: string, pod: Pod)
    ensures var s, after := Steps(EMPTY, events), Steps(EMPTY, events + [PodEvent(name, Found(pod))]);
            var selected := pod.ready && s.pool.Some? && forall k :: k in s.pool.value.selector ==>
                              k in pod.labels && pod.labels[k] == s.pool.value.selector[k];
            && after.pool == s.pool
            && (s.pool.Some? ==> forall rank: nat :: rank < |s.pool.value.targetPorts| ==>
                  (RankKey(pod, rank) in after.view <==> selected))
            && (selected ==> forall rank: nat :: rank < |s.pool.value.targetPorts| ==>
                  Describes(after.view[RankKey(pod, rank)], RankKey(pod, rank), pod, s.pool.value.targetPorts[rank]))
            && (!selected ==> forall k :: k in after.view ==> after.view[k].podName != pod.name)
            && (forall k :: k in s.view && s.view[k].podName != pod.name ==> k in after.view && after.view[k] == s.view[k])
            && (forall k :: k in after.view && after.view[k].podName != pod.name ==> k in s.view)
  {
    var s := Steps(EMPTY, events);
    ReachableConsistent(events);
    StepsOne(EMPTY, events, PodEvent(name, Found(pod)));
    if pod.ready && Selects(s.pool, pod.labels) {
      var ports := s.pool.value.targetPorts;
      forall rank: nat | rank < |ports|
        ensures RankKey(pod, rank) in WithRanks(s.view, pod, ports, |ports|)
        ensures WithRanks(s.view, pod, ports, |ports|)[RankKey(pod, rank)] == MetadataFor(pod, ports, rank)
      {
        WithRanksMetadata(s.view, pod, ports, |ports|, rank);
      }
      forall k
        ensures var after := WithRanks(s.view, pod, ports, |ports|);
                && (k in s.view && s.view[k].podName != pod.name ==> k in after && after[k] == s.view[k])
                && (k in after && after[k].podName != pod.name ==> k in s.view && after[k] == s.view[k])
      {
        WithRanksOthers(s.view, pod, ports, |ports|, k);
      }
    } else {
      NotStored(s, pod);
    }
  }

  /** Removing a pod leaves none of its rank keys. */
  lemma NotStored(s: State, pod: Pod)
    requires Consistent(s.view)
    ensures forall rank: nat :: RankKey(pod, rank) !in WithoutPod(s.view, pod.name)
  {
    forall rank: nat | RankKey(pod, rank) in s.view ensures s.view[RankKey(pod, rank)].podName == pod.name {
      StoredRankIsOf(s.view, pod, rank);
    }
  }

  /** A pod that is gone leaves no endpoint of its name, and a failed fetch changes nothing. */
  lemma PodGoneExact(events: seq<Event>, name: string)
    ensures var s, gone := Steps(EMPTY, events), Steps(EMPTY, events + [PodEvent(name, NotFound)]);
            && gone.pool == s.pool
            && (forall k :: k in gone.view <==> k in s.view && s.view[k].podName != name)
            && (forall k :: k in gone.view ==> gone.view[k] == s.view[k])
            && Steps(EMPTY, events + [PodEvent(name, Failed)]) == s
  {
    StepsOne(EMPTY, events, PodEvent(name, NotFound));
    StepsOne(EMPTY, events, PodEvent(name, Failed));
  }

  /** Once the pool is gone nothing is stored, and pod events alone store nothing more: neither pool nor
      endpoint is left, whatever came before. */
  lemma {:induction false} PoolGoneForgets(events: seq<Event>, run: seq<Event>)
    requires forall e :: e in run ==> e.PodEvent?
    ensures Steps(EMPTY, events + [PoolGone] + run).pool == None
    ensures Steps(EMPTY, events + [PoolGone] + run).view == map[]
  {
    if run == [] {
      assert events + [PoolGone] + run == events + [PoolGone];
      StepsOne(EMPTY, events, PoolGone);
    } else {
      var init, last := run[..|run| - 1], run[|run| - 1];
      assert events + [PoolGone] + run == events + [PoolGone] + init + [last];
      assert last in run && forall e :: e in init ==> e in run;
      PoolGoneForgets(events, init);
      StepsOne(EMPTY, events + [PoolGone] + init, last);
    }
  }
}
