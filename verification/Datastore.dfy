/** The endpoint store: a map from endpoint keys to endpoints, each with a metrics refresh loop that must
    run exactly while the endpoint is in the map. */
module Datastore {
  import opened Text
  import opened MetricsClient

  type Labels = map<string, string>

  datatype Key = Key(namespace: string, name: string)

  datatype EndpointMetadata = EndpointMetadata(
    key: Key, podName: string, address: string, port: string, metricsHost: string, labels: Labels)

  datatype EndpointPool = EndpointPool(namespace: string, name: string, selector: Labels, targetPorts: seq<int>)

  datatype Pod = Pod(namespace: string, name: string, ip: string, labels: Labels, ready: bool)

  // ---------- Keys ----------

  function JoinHostPort(host: string, port: string): string {
    if ':' in host then "[" + host + "]:" + port else host + ":" + port
  }

  function RankKey(pod: Pod, rank: nat): Key {
    Key(pod.namespace, pod.name + "-rank-" + Decimal(rank))
  }

  function MetadataFor(pod: Pod, ports: seq<int>, rank: nat): EndpointMetadata
    requires rank < |ports|
  {
    EndpointMetadata(RankKey(pod, rank), pod.name, pod.ip, Itoa(ports[rank]),
      JoinHostPort(pod.ip, Itoa(ports[rank])), pod.labels)
  }

  function KeysFor(pod: Pod, count: nat): set<Key> {
    set rank | 0 <= rank < count :: RankKey(pod, rank)
  }

  lemma LastSeparator(x: string, d: string, y: string, e: string, c: char)
    requires x + [c] + d == y + [c] + e && c !in d && c !in e
    ensures x == y && d == e
  {
    var s := x + [c] + d;
    assert s[|x|] == c && s[|y|] == c;
    assert forall i :: |x| < i < |s| ==> s[i] == d[i - |x| - 1];
    assert forall i :: |y| < i < |s| ==> s[i] == e[i - |y| - 1];
    assert |x| == |y|;
    assert x == s[..|x|] && y == s[..|y|] && d == s[|x| + 1..] && e == s[|y| + 1..];
  }

  /** Endpoint keys tell both the pod and the rank, whatever the pods are called. */
  lemma RankKeyInjective(p: Pod, q: Pod, i: nat, j: nat)
    requires RankKey(p, i) == RankKey(q, j)
    ensures p.namespace == q.namespace && p.name == q.name && i == j
  {
    DecimalDigits(i);
    DecimalDigits(j);
    assert !IsDigit('-');
    assert p.name + "-rank-" == (p.name + "-rank") + ['-'];
    assert q.name + "-rank-" == (q.name + "-rank") + ['-'];
    LastSeparator(p.name + "-rank", Decimal(i), q.name + "-rank", Decimal(j), '-');
    assert (p.name + "-rank")[..|p.name|] == p.name && (q.name + "-rank")[..|q.name|] == q.name;
    DecimalInjective(i, j);
  }

  // ---------- Endpoints ----------

  /** An endpoint and its refresh loop.  startOnce and stopOnce are the two sync.Once guards; loops counts the
      goroutines started, and closes how often done was closed, which panics the second time. */
  class PodMetrics {
    var metadata: EndpointMetadata
    const metrics: MetricsCell
    var startOnce: bool
    var loops: nat
    var stopOnce: bool
    var closes: nat

    constructor (metadata: EndpointMetadata)
      ensures this.metadata == metadata && Fit() && Running()
    {
      this.metadata := metadata;
      this.metrics := new MetricsCell();
      this.startOnce, this.loops := false, 0;
      this.stopOnce, this.closes := false, 0;
      new;
      StartRefreshLoop();
    }

    /** No second loop was started and done was not closed twice. */
    predicate OnceEach()
      reads this`startOnce, this`loops, this`stopOnce, this`closes
    {
      loops == (if startOnce then 1 else 0) && closes == (if stopOnce then 1 else 0)
    }

    /** Its loop was started. */
    predicate Fit()
      reads this`startOnce, this`loops, this`stopOnce, this`closes
    {
      OnceEach() && startOnce
    }

    predicate Running()
      reads this`loops, this`closes
    {
      loops > 0 && closes == 0
    }

    method StartRefreshLoop()
      requires OnceEach()
      modifies this`startOnce, this`loops
      ensures Fit() && loops == 1
    {
      if !startOnce {
        startOnce := true;
        loops := loops + 1;
      }
    }

    method UpdateMetadata(metadata: EndpointMetadata)
      modifies this`metadata
      ensures this.metadata == metadata
    {
      this.metadata := metadata;
    }

    method StopRefreshLoop()
      requires OnceEach()
      modifies this`stopOnce, this`closes
      ensures OnceEach() && closes == 1 && !Running()
    {
      if !stopOnce {
        stopOnce := true;
        closes := closes + 1;
      }
    }
  }

  /** What fetching a pod returned. */
  datatype Fetched = Found(pod: Pod) | NotFound | Failed

  datatype Event =
    | PodEvent(name: string, fetched: Fetched)
    | PoolEvent(pool: EndpointPool, listing: Result<seq<Pod>>)
    | PoolGone

  // ---------- What operations do to the stored metadata ----------

  /** The metadata of every stored endpoint. */
  type View = map<Key, EndpointMetadata>

  /** The view after the first count ranks of the pod have been stored. */
  function WithRanks(view: View, pod: Pod, ports: seq<int>, count: nat): View
    requires count <= |ports|
  {
    if count == 0 then view
    else WithRanks(view, pod, ports, count - 1)[RankKey(pod, count - 1) := MetadataFor(pod, ports, count - 1)]
  }

  function WithoutPod(view: View, podName: string): View {
    map k | k in view && view[k].podName != podName :: view[k]
  }

  function WithoutPods(view: View, names: set<string>): View {
    map k | k in view && view[k].podName !in names :: view[k]
  }

  /** The view after every ready pod of the list has been stored, in order. */
  function WithPods(view: View, pods: seq<Pod>, ports: seq<int>): View {
    if pods == [] then view
    else
      var last := pods[|pods| - 1];
      var before := WithPods(view, pods[..|pods| - 1], ports);
      if last.ready then WithRanks(before, last, ports, |ports|) else before
  }

  function ReadyNames(pods: seq<Pod>): set<string> {
    set p | p in pods && p.ready :: p.name
  }

  function OnlyPods(view: View, names: set<string>): View {
    map k | k in view && view[k].podName in names :: view[k]
  }

  /** The view after a resync with this listing. */
  function Resynced(view: View, pods: seq<Pod>, ports: seq<int>): View {
    OnlyPods(WithPods(view, pods, ports), ReadyNames(pods))
  }

  predicate Selects(pool: Option<EndpointPool>, labels: Labels) {
    pool.Some? && forall k :: k in pool.value.selector ==> k in labels && labels[k] == pool.value.selector[k]
  }

  /** A pool whose selector differs from the last one seen, or that is the first, is resynced. */
  predicate NeedsResync(last: Option<EndpointPool>, latest: EndpointPool) {
    last.None? || last.value.selector != latest.selector
  }

  /** What the store holds, without its endpoint objects. */
  datatype State = State(pool: Option<EndpointPool>, view: View)

  /** What one event does to the state. */
  function Step(s: State, e: Event): State {
    match e
    case PodEvent(name, Failed) => s
    case PodEvent(name, NotFound) => s.(view := WithoutPod(s.view, name))
    case PodEvent(name, Found(pod)) =>
      if pod.ready && Selects(s.pool, pod.labels)
      then s.(view := WithRanks(s.view, pod, s.pool.value.targetPorts, |s.pool.value.targetPorts|))
      else s.(view := WithoutPod(s.view, pod.name))
    case PoolEvent(latest, listing) =>
      State(Some(latest),
        if NeedsResync(s.pool, latest) && listing.Ok? then Resynced(s.view, listing.value, latest.targetPorts) else s.view)
    case PoolGone => State(None, map[])
  }

  function Steps(s: State, events: seq<Event>): State {
    if events == [] then s else Step(Steps(s, events[..|events| - 1]), events[|events| - 1])
  }

  /** How far a delete is: what remains was stored before, keys no longer left to visit are of other pods, and
      only endpoints of the pod are gone. */
  ghost predicate Deleting(
    pods: map<Key, PodMetrics>, stored: map<Key, PodMetrics>, view: View, podName: string, left: set<Key>)
  {
    && stored.Keys == view.Keys && left <= pods.Keys <= stored.Keys
    && (forall k :: k in pods ==> pods[k] == stored[k] && (k in left || view[k].podName != podName))
    && (forall k :: k in view && k !in pods ==> view[k].podName == podName)
  }

  class Store {
    var pool: Option<EndpointPool>
    var pods: map<Key, PodMetrics>
    /** Every endpoint this store ever created. */
    ghost var created: set<PodMetrics>

    constructor ()
      ensures Valid() && pool == None && View() == map[] && created == {}
    {
      pool, pods, created := None, map[], {};
    }

    ghost predicate InMap(e: PodMetrics)
      reads this`pods, e`metadata
    {
      e.metadata.key in pods && pods[e.metadata.key] == e
    }

    /** Each endpoint ever created is either in the map with its loop running, or out of it with its loop
        stopped; an endpoint is stored under its own key. */
    ghost predicate Valid()
      reads this`pods, this`created, created
    {
      && (forall k :: k in pods ==> pods[k] in created && pods[k].metadata.key == k)
      && (forall e :: e in created ==> e.Fit() && (e.Running() <==> InMap(e)))
    }

    function View(): View
      reads this`pods, pods.Values`metadata
    {
      map k | k in pods :: pods[k].metadata
    }

    function Contents(): State
      reads this`pool, this`pods, pods.Values`metadata
    {
      State(pool, View())
    }

    predicate PoolLabelsMatch(labels: Labels)
      reads this`pool
    {
      Selects(pool, labels)
    }

    /** Stores the metadata in the endpoint of its key, creating and starting the endpoint if need be. */
    method AddOrUpdate(metadata: EndpointMetadata) returns (existed: bool)
      requires Valid()
      modifies this`pods, this`created, created`metadata
      ensures Valid() && old(created) <= created && fresh(created - old(created))
      ensures View() == old(View())[metadata.key := metadata]
      ensures forall k :: k in old(pods) ==> k in pods && pods[k] == old(pods)[k]
      ensures existed <==> metadata.key in old(pods)
    {
      existed := metadata.key in pods;
      if existed {
        pods[metadata.key].UpdateMetadata(metadata);
      } else {
        AddEndpoint(metadata);
      }
    }

    method AddEndpoint(metadata: EndpointMetadata)
      requires Valid() && metadata.key !in pods
      modifies this`pods, this`created
      ensures Valid() && old(created) <= created && fresh(created - old(created))
      ensures View() == old(View())[metadata.key := metadata]
      ensures forall k :: k in old(pods) ==> k in pods && pods[k] == old(pods)[k]
    {
      var podMetrics := new PodMetrics(metadata);
      Enter(podMetrics);
    }

    /** Puts a running endpoint into the map. */
    method Enter(podMetrics: PodMetrics)
      requires Valid() && podMetrics !in created && podMetrics.metadata.key !in pods
      requires podMetrics.Fit() && podMetrics.Running()
      modifies this`pods, this`created
      ensures Valid() && created == old(created) + {podMetrics}
      ensures View() == old(View())[podMetrics.metadata.key := podMetrics.metadata]
      ensures pods == old(pods)[podMetrics.metadata.key := podMetrics]
    {
      created := created + {podMetrics};
      pods := pods[podMetrics.metadata.key := podMetrics];
    }

    method AddOrUpdateRank(
      metadata: EndpointMetadata, ghost view: View, ghost pod: Pod, ghost ports: seq<int>, ghost rank: nat)
      returns (existed: bool)
      requires Valid() && rank < |ports| && metadata == MetadataFor(pod, ports, rank)
      requires View() == WithRanks(view, pod, ports, rank)
      modifies this`pods, this`created, created`metadata
      ensures Valid() && old(created) <= created && fresh(created - old(created))
      ensures View() == WithRanks(view, pod, ports, rank + 1)
      ensures forall k :: k in old(pods) ==> k in pods && pods[k] == old(pods)[k]
      ensures existed <==> RankKey(pod, rank) in view
    {
      KeysForStep(pod, rank);
      WithRanksKeys(view, pod, ports, rank);
      assert pods.Keys == View().Keys;
      existed := AddOrUpdate(metadata);
    }

    /** Adds or refreshes one endpoint per target port; says whether all of them were there already. */
    method PodUpdateOrAddIfNotExist(pod: Pod) returns (existed: bool)
      requires Valid() && pool.Some?
      modifies this`pods, this`created, created`metadata
      ensures Valid() && old(created) <= created && fresh(created - old(created))
      ensures View() == WithRanks(old(View()), pod, pool.value.targetPorts, |pool.value.targetPorts|)
      ensures forall k :: k in old(pods) ==> k in pods && pods[k] == old(pods)[k]
      ensures existed <==> KeysFor(pod, |pool.value.targetPorts|) <= old(View()).Keys
    {
      var ports := pool.value.targetPorts;
      var metadatas := MetadataPerPort(pod, ports);
      ghost var view, stored := View(), pods;
      existed := true;
      for rank := 0 to |metadatas|
        invariant Valid() && old(created) <= created && fresh(created - old(created))
        invariant View() == WithRanks(view, pod, ports, rank)
        invariant forall k :: k in stored ==> k in pods && pods[k] == stored[k]
        invariant existed <==> KeysFor(pod, rank) <= view.Keys
      {
        KeysForStep(pod, rank);
        var present := AddOrUpdateRank(metadatas[rank], view, pod, ports, rank);
        existed := existed && present;
      }
    }

    /** Takes one endpoint out of the map and stops its loop. */
    method Release(key: Key)
      requires Valid() && key in pods
      modifies this`pods, {pods[key]}`stopOnce, {pods[key]}`closes
      ensures Valid() && pods == old(pods) - {key}
    {
      var podMetrics := pods[key];
      pods := pods - {key};
      podMetrics.StopRefreshLoop();
    }

    /** One turn of the range: the endpoint shown goes if it is of the pod. */
    method DeleteIfOf(
      key: Key, podName: string, ghost stored: map<Key, PodMetrics>, ghost view: View, ghost left: set<Key>)
      requires Valid() && Deleting(pods, stored, view, podName, left) && key in left
      requires forall k :: k in stored ==> stored[k].metadata == view[k]
      modifies this`pods, created`stopOnce, created`closes
      ensures Valid() && Deleting(pods, stored, view, podName, left - {key})
    {
      if pods[key].metadata.podName == podName {
        Release(key);
      }
    }

    /** Removes every endpoint of the pod and stops its loop. */
    method PodDelete(podName: string)
      requires Valid()
      modifies this`pods, created`stopOnce, created`closes
      ensures Valid() && View() == WithoutPod(old(View()), podName)
      ensures forall k :: k in pods ==> k in old(pods) && pods[k] == old(pods)[k]
    {
      var left := pods.Keys;
      ghost var view, stored := View(), pods;
      while left != {}
        invariant Valid() && Deleting(pods, stored, view, podName, left)
        invariant forall k :: k in stored ==> stored[k].metadata == view[k]
      {
        var key :| key in left;
        DeleteIfOf(key, podName, stored, view, left);
        left := left - {key};
      }
    }

    /** The range-and-delete loops: every endpoint whose pod is not active is removed, although each
        removal also deletes entries the range has yet to reach.  Such an entry may still be shown to the
        loop, with its old value, or be skipped. */
    method RangeDelete(active: set<string>)
      requires Valid()
      modifies this`pods, created`stopOnce, created`closes
      ensures Valid() && View() == OnlyPods(old(View()), active)
      ensures forall k :: k in pods ==> k in old(pods) && pods[k] == old(pods)[k]
    {
      var snapshot := pods;
      var left := snapshot.Keys;
      ghost var view := View();
      ghost var removed: set<string> := {};
      while left != {}
        invariant Valid() && left <= snapshot.Keys && removed !! active
        invariant View() == WithoutPods(view, removed)
        invariant forall k :: k in pods ==> k in snapshot && pods[k] == snapshot[k]
        invariant forall k :: k in snapshot ==> k in view && snapshot[k].metadata == view[k]
        invariant forall k :: k in view && k !in left ==> view[k].podName in active || view[k].podName in removed
      {
        var key :| key in left;
        left := left - {key};
        var shown: bool := *;
        if key in pods || shown {
          var podMetrics := snapshot[key];
          if podMetrics.metadata.podName !in active {
            WithoutPodsStep(view, removed, podMetrics.metadata.podName);
            PodDelete(podMetrics.metadata.podName);
            removed := removed + {podMetrics.metadata.podName};
          }
        } else {
          assert key !in View();
        }
      }
      WithoutOthers(view, removed, active);
    }

    /** Stores every ready pod of the list and says which names are active. */
    method StoreReadyPods(items: seq<Pod>) returns (activePods: set<string>)
      requires Valid() && pool.Some?
      modifies this`pods, this`created, created`metadata
      ensures Valid() && old(created) <= created && fresh(created - old(created))
      ensures View() == WithPods(old(View()), items, pool.value.targetPorts) && activePods == ReadyNames(items)
      ensures forall k :: k in old(pods) ==> k in pods && pods[k] == old(pods)[k]
    {
      activePods := {};
      ghost var view, stored, ports := View(), pods, pool.value.targetPorts;
      for i := 0 to |items|
        invariant Valid() && old(created) <= created && fresh(created - old(created))
        invariant View() == WithPods(view, items[..i], ports) && activePods == ReadyNames(items[..i])
        invariant forall k :: k in stored ==> k in pods && pods[k] == stored[k]
      {
        ReadyNamesStep(items, i);
        assert items[..i + 1][..i] == items[..i];
        if !items[i].ready {
          continue;
        }
        activePods := activePods + {items[i].name};
        var existed := PodUpdateOrAddIfNotExist(items[i]);
      }
      assert items[..|items|] == items;
    }

    method Resync(items: seq<Pod>)
      requires Valid() && pool.Some?
      modifies this`pods, this`created, created`metadata, created`stopOnce, created`closes
      ensures Valid() && old(created) <= created && fresh(created - old(created))
      ensures View() == Resynced(old(View()), items, pool.value.targetPorts)
      ensures forall k :: k in old(pods) && k in pods ==> pods[k] == old(pods)[k]
    {
      var activePods := StoreReadyPods(items);
      RangeDelete(activePods);
    }

    method StartPodMetricsLoop(latest: EndpointPool, listing: Result<seq<Pod>>) returns (r: Result<()>)
      requires Valid()
      modifies this, created`metadata, created`stopOnce, created`closes
      ensures Valid() && pool == Some(latest) && old(created) <= created && fresh(created - old(created))
      ensures r.Err? <==> NeedsResync(old(pool), latest) && listing.Err?
      ensures Contents() == Step(old(Contents()), PoolEvent(latest, listing))
      ensures forall k :: k in old(pods) && k in pods ==> pods[k] == old(pods)[k]
    {
      var last := pool;
      pool := Some(latest);
      if last.None? || last.value.selector != latest.selector {
        if listing.Err? {
          return Err("failed to list pods: " + listing.message);
        }
        Resync(listing.value);
      }
      return Ok(());
    }

    method Clear()
      requires Valid()
      modifies this`pool, this`pods, created`stopOnce, created`closes
      ensures Valid() && pool == None && pods == map[] && created == old(created)
      ensures forall e :: e in created ==> !e.Running()
    {
      pool := None;
      RangeDelete({});
      assert View().Keys == pods.Keys;
      pods := map[];
    }

    /** The pod reconciler: a pod that is gone, not ready or no longer selected is removed, any other is
        stored. */
    method Reconcile(name: string, fetched: Fetched) returns (r: Result<()>)
      requires Valid()
      modifies this`pods, this`created, created`metadata, created`stopOnce, created`closes
      ensures Valid() && old(created) <= created && fresh(created - old(created))
      ensures r.Err? <==> fetched.Failed?
      ensures Contents() == Step(old(Contents()), PodEvent(name, fetched))
    {
      r := Ok(());
      match fetched
      case Failed =>
        r := Err("unable to get pod");
      case NotFound =>
        PodDelete(name);
      case Found(pod) =>
        if !pod.ready || !PoolLabelsMatch(pod.labels) {
          PodDelete(pod.name);
        } else {
          var existed := PodUpdateOrAddIfNotExist(pod);
        }
    }

    method Handle(event: Event)
      requires Valid()
      modifies this, created`metadata, created`stopOnce, created`closes
      ensures Valid() && old(created) <= created && fresh(created - old(created))
      ensures Contents() == Step(old(Contents()), event)
      ensures event.PoolGone? ==> forall e :: e in created ==> !e.Running()
    {
      match event
      case PodEvent(name, fetched) => var r := Reconcile(name, fetched);
      case PoolEvent(latest, listing) => var r := StartPodMetricsLoop(latest, listing);
      case PoolGone => Clear();
    }

    /** Over any sequence of events the store stays valid and holds what the events amount to. */
    method Run(events: seq<Event>)
      requires Valid()
      modifies this, created`metadata, created`stopOnce, created`closes
      ensures Valid() && old(created) <= created && fresh(created - old(created))
      ensures Contents() == Steps(old(Contents()), events)
    {
      ghost var start := Contents();
      for i := 0 to |events|
        invariant Valid() && old(created) <= created && fresh(created - old(created))
        invariant Contents() == Steps(start, events[..i])
      {
        assert events[..i + 1][..i] == events[..i];
        Handle(events[i]);
      }
      assert events[..|events|] == events;
    }
  }

  method MetadataPerPort(pod: Pod, ports: seq<int>) returns (metadatas: seq<EndpointMetadata>)
    ensures |metadatas| == |ports|
    ensures forall i :: 0 <= i < |ports| ==> metadatas[i] == MetadataFor(pod, ports, i)
  {
    metadatas := [];
    for rank := 0 to |ports|
      invariant |metadatas| == rank && forall i :: 0 <= i < rank ==> metadatas[i] == MetadataFor(pod, ports, i)
    {
      metadatas := metadatas + [MetadataFor(pod, ports, rank)];
    }
  }

  lemma WithoutPodsStep(view: View, names: set<string>, name: string)
    ensures WithoutPod(WithoutPods(view, names), name) == WithoutPods(view, names + {name})
  {
  }

  lemma WithoutOthers(view: View, removed: set<string>, active: set<string>)
    requires removed !! active
    requires forall k :: k in view ==> view[k].podName in active || view[k].podName in removed
    ensures WithoutPods(view, removed) == OnlyPods(view, active)
  {
  }

  lemma ReadyNamesStep(items: seq<Pod>, i: nat)
    requires i < |items|
    ensures ReadyNames(items[..i + 1]) == ReadyNames(items[..i]) + if items[i].ready then {items[i].name} else {}
  {
    assert items[..i + 1] == items[..i] + [items[i]];
  }

  lemma KeysForStep(pod: Pod, rank: nat)
    ensures KeysFor(pod, rank + 1) == KeysFor(pod, rank) + {RankKey(pod, rank)}
    ensures RankKey(pod, rank) !in KeysFor(pod, rank)
  {
    forall i | 0 <= i < rank ensures RankKey(pod, i) != RankKey(pod, rank) {
      if RankKey(pod, i) == RankKey(pod, rank) {
        RankKeyInjective(pod, pod, i, rank);
      }
    }
  }

  lemma {:induction false} WithRanksKeys(view: View, pod: Pod, ports: seq<int>, count: nat)
    requires count <= |ports|
    ensures WithRanks(view, pod, ports, count).Keys == view.Keys + KeysFor(pod, count)
  {
    if count > 0 {
      WithRanksKeys(view, pod, ports, count - 1);
      KeysForStep(pod, count - 1);
    }
  }
}
