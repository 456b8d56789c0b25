/** The router's scheduler: filter plugins in turn, a weighted sum of the score plugins, and the best few
    pods of the sum.  A plugin is a function of the pods it is given; a map is walked in any order and
    equal scores may come out in any order. */
module Scheduler {
  import opened Text

  const TOP_N := 5

  const TWO_63: int := 0x8000_0000_0000_0000
  const TWO_64: int := 0x1_0000_0000_0000_0000

  type Int64 = n: int | -TWO_63 <= n < TWO_63

  datatype FilterPlugin<!Pod> = FilterPlugin(name: string, filter: seq<Pod> -> seq<Pod>)

  datatype ScorePlugin<!Pod(==)> = ScorePlugin(name: string, score: seq<Pod> -> map<Pod, Int64>, weight: Int64)

  // ---------- Machine integers ----------

  /** Two's complement wrap-around to 64 bits. */
  function Wrap(n: int): Int64 {
    (n + TWO_63) % TWO_64 - TWO_63
  }

  function Times(score: Int64, weight: Int64): Int64 {
    Wrap(score * weight)
  }

  function Plus(a: Int64, b: Int64): Int64 {
    Wrap(a + b)
  }

  /** Wrapping each step of a sum is wrapping the sum. */
  lemma WrapSum(a: int, b: int)
    ensures Wrap(Wrap(a) + Wrap(b)) == Wrap(a + b)
  {
    var i, j := (a + TWO_63) / TWO_64, (b + TWO_63) / TWO_64;
    assert Wrap(a) + i * TWO_64 == a && Wrap(b) + j * TWO_64 == b;
    WrapTurns(Wrap(a) + Wrap(b), i + j);
  }

  lemma WrapTurns(n: int, turns: int)
    ensures Wrap(n + turns * TWO_64) == Wrap(n)
  {
    var q, r := (n + TWO_63) / TWO_64, (n + TWO_63) % TWO_64;
    assert n + turns * TWO_64 + TWO_63 == (q + turns) * TWO_64 + r;
  }

  // ---------- Filters ----------

  /** The pods each stage leaves: after no filter, after one, and so on. */
  function Stage<Pod>(filters: seq<FilterPlugin<Pod>>, pods: seq<Pod>, k: nat): seq<Pod>
    requires k <= |filters|
  {
    if k == 0 then pods else filters[k - 1].filter(Stage(filters, pods, k - 1))
  }

  /** A filter that drops pods and never makes one up. */
  ghost predicate OnlyDrops<Pod(!new)>(f: FilterPlugin<Pod>) {
    forall pods, p :: p in f.filter(pods) ==> p in pods
  }

  method RunFilterPlugins<Pod>(filters: seq<FilterPlugin<Pod>>, pods: seq<Pod>) returns (r: Result<seq<Pod>>)
    ensures r.Ok? <==> forall k :: 0 < k <= |filters| ==> |Stage(filters, pods, k)| > 0
    ensures r.Ok? ==> r.value == Stage(filters, pods, |filters|)
  {
    var left := pods;
    for i := 0 to |filters|
      invariant left == Stage(filters, pods, i)
      invariant forall k :: 0 < k <= i ==> |Stage(filters, pods, k)| > 0
    {
      left := filters[i].filter(left);
      assert left == Stage(filters, pods, i + 1);
      if |left| == 0 {
        return Err("pods have all been filtered out by " + filters[i].name);
      }
    }
    return Ok(left);
  }

  /** A pod left at the end was given at the start and survived every filter on the way. */
  lemma {:induction false} SurvivesEveryStage<Pod(!new)>(
    filters: seq<FilterPlugin<Pod>>, pods: seq<Pod>, p: Pod, k: nat, last: nat)
    requires forall f :: f in filters ==> OnlyDrops(f)
    requires k <= last <= |filters| && p in Stage(filters, pods, last)
    ensures p in Stage(filters, pods, k)
    decreases last
  {
    if k < last {
      assert OnlyDrops(filters[last - 1]);
      SurvivesEveryStage(filters, pods, p, k, last - 1);
    }
  }

  // ---------- Scores ----------

  /** What plugin i adds to pod p: its score times its weight, or nothing when it does not score p. */
  function Contribution<Pod(==)>(plugin: ScorePlugin<Pod>, pods: seq<Pod>, p: Pod): int {
    var scores := plugin.score(pods);
    if p in scores then scores[p] * plugin.weight else 0
  }

  /** The weighted sum in plain arithmetic. */
  function WeightedScore<Pod(==)>(plugins: seq<ScorePlugin<Pod>>, pods: seq<Pod>, p: Pod): int {
    if plugins == [] then 0
    else WeightedScore(plugins[..|plugins| - 1], pods, p) + Contribution(plugins[|plugins| - 1], pods, p)
  }

  function Scored<Pod(==)>(plugins: seq<ScorePlugin<Pod>>, pods: seq<Pod>): set<Pod> {
    if plugins == [] then {}
    else Scored(plugins[..|plugins| - 1], pods) + plugins[|plugins| - 1].score(pods).Keys
  }

  function ScoresOf<Pod(==)>(plugins: seq<ScorePlugin<Pod>>, pods: seq<Pod>): map<Pod, Int64> {
    map p | p in Scored(plugins, pods) :: Wrap(WeightedScore(plugins, pods, p))
  }

  /** The first weighted score of a pod is its total so far; a later one is added. */
  function Accumulated<Pod(==)>(total: map<Pod, Int64>, k: Pod, weighted: Int64): Int64 {
    if k !in total then weighted else Plus(total[k], weighted)
  }

  /** Adds one plugin's scores to the running totals, in any order of its pods. */
  method AddScores<Pod(==)>(res: map<Pod, Int64>, scores: map<Pod, Int64>, weight: Int64)
    returns (total: map<Pod, Int64>)
    ensures total == Added(res, scores, weight, {})
  {
    total := res;
    var left := scores.Keys;
    AddedNone(res, scores, weight);
    while left != {}
      invariant left <= scores.Keys
      invariant total == Added(res, scores, weight, left)
      decreases |left|
    {
      var k :| k in left;
      AddedStep(res, scores, weight, left, k);
      total := total[k := Accumulated(total, k, Times(scores[k], weight))];
      left := left - {k};
    }
  }

  /** The totals while the pods of left are still to be added. */
  function Added<Pod(==)>(res: map<Pod, Int64>, scores: map<Pod, Int64>, weight: Int64, left: set<Pod>): map<Pod, Int64>
  {
    map p | p in res.Keys + (scores.Keys - left) ::
      if p !in scores || p in left then res[p] else Accumulated(res, p, Times(scores[p], weight))
  }

  lemma AddedNone<Pod>(res: map<Pod, Int64>, scores: map<Pod, Int64>, weight: Int64)
    ensures Added(res, scores, weight, scores.Keys) == res
  {
  }

  lemma AddedStep<Pod>(res: map<Pod, Int64>, scores: map<Pod, Int64>, weight: Int64, left: set<Pod>, k: Pod)
    requires left <= scores.Keys && k in left
    ensures var total := Added(res, scores, weight, left);
            Added(res, scores, weight, left - {k}) == total[k := Accumulated(total, k, Times(scores[k], weight))]
  {
  }

  lemma AddedIsNext<Pod>(plugins: seq<ScorePlugin<Pod>>, pods: seq<Pod>, i: nat)
    requires i < |plugins|
    ensures var scores := plugins[i].score(pods);
            Added(ScoresOf(plugins[..i], pods), scores, plugins[i].weight, {})
            == ScoresOf(plugins[..i + 1], pods)
  {
    var before, after, plugin := plugins[..i], plugins[..i + 1], plugins[i];
    assert after[..|after| - 1] == before && after[|after| - 1] == plugin;
    var scores := plugin.score(pods);
    forall p | p in ScoresOf(after, pods)
      ensures Added(ScoresOf(before, pods), scores, plugin.weight, {})[p] == ScoresOf(after, pods)[p]
    {
      WrapSum(WeightedScore(before, pods, p), Contribution(plugin, pods, p));
      if p !in Scored(before, pods) {
        UnscoredIsZero(before, pods, p);
      }
    }
  }

  lemma {:induction false} UnscoredIsZero<Pod>(plugins: seq<ScorePlugin<Pod>>, pods: seq<Pod>, p: Pod)
    requires p !in Scored(plugins, pods)
    ensures WeightedScore(plugins, pods, p) == 0
  {
    if plugins != [] {
      UnscoredIsZero(plugins[..|plugins| - 1], pods, p);
    }
  }

  /** Fails only when there is a plugin to run and no pod to score. */
  method RunScorePlugins<Pod(==)>(plugins: seq<ScorePlugin<Pod>>, pods: seq<Pod>) returns (r: Result<map<Pod, Int64>>)
    ensures r.Ok? <==> plugins == [] || pods != []
    ensures r.Ok? ==> r.value == ScoresOf(plugins, pods)
  {
    var res: map<Pod, Int64> := map[];
    for i := 0 to |plugins|
      invariant i > 0 ==> pods != []
      invariant res == ScoresOf(plugins[..i], pods)
    {
      var scores := plugins[i].score(pods);
      if |pods| == 0 {
        return Err("pods have all been filtered out by " + plugins[i].name);
      }
      AddedIsNext(plugins, pods, i);
      res := AddScores(res, scores, plugins[i].weight);
    }
    assert plugins[..|plugins|] == plugins;
    return Ok(res);
  }

  // ---------- The best pods ----------

  predicate Distinct<T(==)>(s: seq<T>) {
    forall i, j :: 0 <= i < j < |s| ==> s[i] != s[j]
  }

  predicate Descending<Pod>(scores: map<Pod, Int64>, list: seq<Pod>) {
    && (forall p :: p in list ==> p in scores)
    && forall i, j :: 0 <= i < j < |list| ==> scores[list[i]] >= scores[list[j]]
  }

  /** best is a best choice of at most n scored pods. */
  predicate IsTop<Pod(==)>(scores: map<Pod, Int64>, n: int, best: seq<Pod>) {
    && |best| == (if n < 0 then 0 else if n < |scores| then n else |scores|)
    && Distinct(best)
    && Descending(scores, best)
    && forall p, q :: p in scores && p !in best && q in best ==> scores[p] <= scores[q]
  }

  /** The pods of a map, in whatever order it is walked. */
  method ListPods<Pod(==)>(scores: map<Pod, Int64>) returns (list: seq<Pod>)
    ensures Distinct(list) && (forall p :: p in list <==> p in scores)
  {
    list := [];
    var left := scores.Keys;
    while left != {}
      invariant left <= scores.Keys && Distinct(list)
      invariant forall p :: p in list <==> p in scores.Keys - left
      decreases |left|
    {
      var p :| p in left;
      assert p !in list;
      left := left - {p};
      list := list + [p];
    }
  }

  /** Part of the list is sorted, and nothing left is better than what is sorted already. */
  ghost predicate Halfway<Pod>(scores: map<Pod, Int64>, sorted: seq<Pod>, rest: seq<Pod>) {
    && (forall p :: p in rest ==> p in scores)
    && Descending(scores, sorted)
    && forall p, q :: p in sorted && q in rest ==> scores[p] >= scores[q]
  }

  predicate IsBest<Pod(==)>(scores: map<Pod, Int64>, rest: seq<Pod>, i: int) {
    && (forall p :: p in rest ==> p in scores)
    && 0 <= i < |rest| && forall p :: p in rest ==> scores[p] <= scores[rest[i]]
  }

  lemma SortStep<Pod>(scores: map<Pod, Int64>, sorted: seq<Pod>, rest: seq<Pod>, i: nat)
    requires Halfway(scores, sorted, rest) && IsBest(scores, rest, i)
    ensures Halfway(scores, sorted + [rest[i]], rest[..i] + rest[i + 1..])
    ensures multiset(sorted + [rest[i]]) + multiset(rest[..i] + rest[i + 1..]) == multiset(sorted) + multiset(rest)
  {
    Without(rest, i);
    assert rest[i] in rest;
  }

  /** An unstable sort by descending score: any pod of the greatest score left may come next. */
  method SortByScore<Pod(==)>(scores: map<Pod, Int64>, list: seq<Pod>) returns (sorted: seq<Pod>)
    requires forall p :: p in list ==> p in scores
    ensures multiset(sorted) == multiset(list) && Descending(scores, sorted)
  {
    sorted := [];
    var rest := list;
    while rest != []
      invariant multiset(sorted) + multiset(rest) == multiset(list) && Halfway(scores, sorted, rest)
      decreases |rest|
    {
      BestExists(scores, rest);
      var i: nat :| IsBest(scores, rest, i);
      SortStep(scores, sorted, rest, i);
      sorted := sorted + [rest[i]];
      rest := rest[..i] + rest[i + 1..];
    }
  }

  lemma {:induction false} BestExists<Pod>(scores: map<Pod, Int64>, list: seq<Pod>)
    requires list != [] && forall p :: p in list ==> p in scores
    ensures exists i: nat :: IsBest(scores, list, i)
  {
    var init, last := list[..|list| - 1], list[|list| - 1];
    assert list == init + [last];
    if init == [] {
      assert IsBest(scores, list, 0);
    } else {
      BestExists(scores, init);
      var i: nat :| IsBest(scores, init, i);
      assert IsBest(scores, list, if scores[last] >= scores[init[i]] then |list| - 1 else i);
    }
  }

  lemma Without<T>(s: seq<T>, i: nat)
    requires i < |s|
    ensures multiset(s[..i] + s[i + 1..]) + multiset([s[i]]) == multiset(s)
    ensures forall x :: x in s[..i] + s[i + 1..] ==> x in s
  {
    assert s == s[..i] + [s[i]] + s[i + 1..];
  }

  lemma {:induction false} DistinctIff<T>(s: seq<T>)
    ensures Distinct(s) <==> forall x :: multiset(s)[x] <= 1
  {
    if s != [] {
      var init, last := s[..|s| - 1], s[|s| - 1];
      assert s == init + [last];
      DistinctIff(init);
      assert Distinct(s) <==> Distinct(init) && last !in init;
      assert multiset(s)[last] == multiset(init)[last] + 1;
      assert forall x :: multiset(s)[x] >= multiset(init)[x];
    }
  }

  lemma {:induction false} DistinctSize<T>(s: seq<T>)
    requires Distinct(s)
    ensures |set x | x in s| == |s|
  {
    if s == [] {
      assert (set x | x in s) == {};
    } else {
      var init, last := s[..|s| - 1], s[|s| - 1];
      assert s == init + [last];
      DistinctSize(init);
      assert (set x | x in s) == (set x | x in init) + {last};
    }
  }

  /** Sorting keeps the list a list of all scored pods, each once. */
  lemma SortedPods<Pod>(m: map<Pod, Int64>, list: seq<Pod>, sorted: seq<Pod>)
    requires Distinct(list) && (forall p :: p in list <==> p in m) && multiset(sorted) == multiset(list)
    ensures Distinct(sorted) && (forall p :: p in sorted <==> p in m) && |sorted| == |m|
  {
    DistinctIff(list);
    DistinctIff(sorted);
    assert forall p :: p in sorted <==> p in multiset(sorted);
    DistinctSize(sorted);
    assert (set p | p in sorted) == m.Keys;
  }

  lemma IndexOf<T>(s: seq<T>, x: T) returns (i: nat)
    requires x in s
    ensures i < |s| && s[i] == x
  {
    i :| 0 <= i < |s| && s[i] == x;
  }

  /** A listed pod outside the first k comes after every pod inside. */
  lemma LaterIsNoBetter<Pod>(m: map<Pod, Int64>, list: seq<Pod>, k: nat, p: Pod, q: Pod)
    requires Descending(m, list) && k <= |list| && p in list && p !in list[..k] && q in list[..k]
    ensures p in m && q in m && m[p] <= m[q]
  {
    assert forall h :: 0 <= h < k ==> list[..k][h] == list[h];
    var i := IndexOf(list, p);
    var j := IndexOf(list[..k], q);
    assert list[j] == q;
  }

  lemma PrefixIsTop<Pod>(m: map<Pod, Int64>, n: int, list: seq<Pod>, k: nat)
    requires Distinct(list) && (forall p :: p in list <==> p in m) && |list| == |m| && Descending(m, list)
    requires k == if n < 0 then 0 else if n < |m| then n else |m|
    ensures IsTop(m, n, list[..k])
  {
    forall p, q | p in m && p !in list[..k] && q in list[..k] ensures m[p] <= m[q] {
      LaterIsNoBetter(m, list, k, p, q);
    }
  }

  /** The first n pods of a list, or all of a shorter one. */
  method FirstPods<Pod>(list: seq<Pod>, n: int) returns (res: seq<Pod>)
    ensures res <= list && |res| == if n < 0 then 0 else if n < |list| then n else |list|
  {
    res := [];
    for i := 0 to |list|
      invariant res == list[..i] && (i == 0 || i <= n)
    {
      if i >= n {
        break;
      }
      res := res + [list[i]];
    }
  }

  method TopNPodInfos<Pod(==)>(m: map<Pod, Int64>, n: int) returns (res: seq<Pod>)
    ensures IsTop(m, n, res)
  {
    var listed := ListPods(m);
    var list := SortByScore(m, listed);
    SortedPods(m, listed, list);
    res := FirstPods(list, n);
    PrefixIsTop(m, n, list, |res|);
    assert res == list[..|res|];
  }

  // ---------- Scheduling ----------

  class SchedulerContext<Pod(==)> {
    var bestPods: seq<Pod>

    constructor ()
      ensures bestPods == []
    {
      bestPods := [];
    }
  }

  method Schedule<Pod(==)>(
    filters: seq<FilterPlugin<Pod>>, scorers: seq<ScorePlugin<Pod>>, ctx: SchedulerContext<Pod>, pods: seq<Pod>)
    returns (r: Result<()>)
    modifies ctx
    ensures r.Ok? <==> (forall k :: 0 < k <= |filters| ==> |Stage(filters, pods, k)| > 0)
                       && (scorers == [] || Stage(filters, pods, |filters|) != [])
    ensures r.Ok? ==> IsTop(ScoresOf(scorers, Stage(filters, pods, |filters|)), TOP_N, ctx.bestPods)
    ensures r.Err? ==> ctx.bestPods == old(ctx.bestPods)
  {
    var kept := RunFilterPlugins(filters, pods);
    if kept.Err? {
      return Err(kept.message);
    }
    var scores := RunScorePlugins(scorers, kept.value);
    if scores.Err? {
      return Err(scores.message);
    }
    ctx.bestPods := TopNPodInfos(scores.value, TOP_N);
    return Ok(());
  }

  // ---------- What the best pods are ----------

  /** A scorer that scores only pods it is given, some or all of them, on the documented scale of 0 to 100. */
  ghost predicate ScoresGiven<Pod(!new)>(plugin: ScorePlugin<Pod>) {
    forall pods, p :: p in plugin.score(pods) ==> p in pods && 0 <= plugin.score(pods)[p] <= 100
  }

  lemma {:induction false} ScoredAreGiven<Pod(!new)>(plugins: seq<ScorePlugin<Pod>>, pods: seq<Pod>, p: Pod)
    requires forall g :: g in plugins ==> ScoresGiven(g)
    ensures p in Scored(plugins, pods) ==> p in pods
  {
    if plugins != [] {
      assert ScoresGiven(plugins[|plugins| - 1]);
      ScoredAreGiven(plugins[..|plugins| - 1], pods, p);
    }
  }

  /** The weights, sign set aside. */
  function TotalWeight<Pod(==)>(plugins: seq<ScorePlugin<Pod>>): nat {
    if plugins == [] then 0
    else
      var w: int := plugins[|plugins| - 1].weight;
      TotalWeight(plugins[..|plugins| - 1]) + if w < 0 then -w else w
  }

  lemma {:induction false} SumBound<Pod(!new)>(plugins: seq<ScorePlugin<Pod>>, pods: seq<Pod>, p: Pod)
    requires forall g :: g in plugins ==> ScoresGiven(g)
    ensures -100 * TotalWeight(plugins) <= WeightedScore(plugins, pods, p) <= 100 * TotalWeight(plugins)
  {
    if plugins != [] {
      var last := plugins[|plugins| - 1];
      assert ScoresGiven(last);
      SumBound(plugins[..|plugins| - 1], pods, p);
      if p in last.score(pods) {
        ProductBound(last.score(pods)[p], last.weight);
      }
    }
  }

  lemma ProductBound(score: int, weight: int)
    requires 0 <= score <= 100
    ensures -100 * (if weight < 0 then -weight else weight) <= score * weight
    ensures score * weight <= 100 * (if weight < 0 then -weight else weight)
  {
  }

  /** On the documented scale no sum wraps around unless the weights together reach 2^63 / 100, so the
      compared totals are the true weighted sums. */
  lemma TotalsAreExact<Pod(!new)>(plugins: seq<ScorePlugin<Pod>>, pods: seq<Pod>, p: Pod)
    requires forall g :: g in plugins ==> ScoresGiven(g)
    requires 100 * TotalWeight(plugins) < TWO_63
    ensures p in ScoresOf(plugins, pods) ==> ScoresOf(plugins, pods)[p] == WeightedScore(plugins, pods, p)
  {
    SumBound(plugins, pods, p);
  }

  // ---------- Stages and sums, written out ----------

  /** The pods before the first filter, and after each one. */
  ghost predicate RunsStages<Pod>(filters: seq<FilterPlugin<Pod>>, pods: seq<Pod>, stages: seq<seq<Pod>>) {
    && |stages| == |filters| + 1 && stages[0] == pods
    && forall k :: 0 <= k < |filters| ==> stages[k + 1] == filters[k].filter(stages[k])
  }

  lemma {:induction false} StagesAre<Pod>(
    filters: seq<FilterPlugin<Pod>>, pods: seq<Pod>, stages: seq<seq<Pod>>, k: nat)
    requires RunsStages(filters, pods, stages) && k <= |filters|
    ensures Stage(filters, pods, k) == stages[k]
  {
    if k > 0 {
      StagesAre(filters, pods, stages, k - 1);
    }
  }

  /** The running sums of one pod: a plugin that scores it adds the score times the weight. */
  ghost predicate RunsSums<Pod>(plugins: seq<ScorePlugin<Pod>>, pods: seq<Pod>, p: Pod, sums: seq<int>) {
    && |sums| == |plugins| + 1 && sums[0] == 0
    && forall k :: 0 <= k < |plugins| ==>
         var scores, weight := plugins[k].score(pods), plugins[k].weight;
         sums[k + 1] == sums[k] + (if p in scores then scores[p] * weight else 0)
  }

  lemma {:induction false} SumsAre<Pod>(plugins: seq<ScorePlugin<Pod>>, pods: seq<Pod>, p: Pod, sums: seq<int>)
    requires RunsSums(plugins, pods, p, sums)
    ensures WeightedScore(plugins, pods, p) == sums[|plugins|]
  {
    if plugins != [] {
      assert RunsSums(plugins[..|plugins| - 1], pods, p, sums[..|plugins|]);
      SumsAre(plugins[..|plugins| - 1], pods, p, sums[..|plugins|]);
    }
  }

  lemma {:induction false} ScoredIff<Pod>(plugins: seq<ScorePlugin<Pod>>, pods: seq<Pod>, p: Pod)
    ensures p in Scored(plugins, pods) <==> exists k :: 0 <= k < |plugins| && p in plugins[k].score(pods)
  {
    if plugins != [] {
      var init, last := plugins[..|plugins| - 1], plugins[|plugins| - 1];
      ScoredIff(init, pods, p);
      assert forall k :: 0 <= k < |init| ==> init[k] == plugins[k];
      assert p in last.score(pods).Keys <==> p in plugins[|plugins| - 1].score(pods);
    }
  }

  /** Raising one score of a pod raises its total by the raise times the weight, so a greater score never
      lowers a total under a positive weight. */
  lemma {:induction false} RaisedScore<Pod>(
    plugins: seq<ScorePlugin<Pod>>, pods: seq<Pod>, p: Pod, i: nat, raised: ScorePlugin<Pod>)
    requires i < |plugins| && raised.weight == plugins[i].weight
    requires p in plugins[i].score(pods) && p in raised.score(pods)
    ensures var before: int, after: int := plugins[i].score(pods)[p], raised.score(pods)[p];
            var raise := after - before;
            && WeightedScore(plugins[i := raised], pods, p) - WeightedScore(plugins, pods, p) == raise * raised.weight
            && (raise > 0 && raised.weight > 0 ==>
                  WeightedScore(plugins[i := raised], pods, p) > WeightedScore(plugins, pods, p))
  {
    var init, last := plugins[..|plugins| - 1], plugins[|plugins| - 1];
    RaiseProduct(plugins[i].score(pods)[p], raised.score(pods)[p], raised.weight);
    if i < |init| {
      RaisedScore(init, pods, p, i, raised);
      assert plugins[i := raised][..|plugins| - 1] == init[i := raised];
    } else {
      assert plugins[i := raised][..|plugins| - 1] == init;
    }
  }

  lemma RaiseProduct(a: int, b: int, w: int)
    ensures (b - a) * w == b * w - a * w
    ensures b > a && w > 0 ==> b * w > a * w
  {
  }

  /** A single scorer of weight 1: its scores are the totals, and the best pods are its best. */
  lemma SingleScorer<Pod>(plugin: ScorePlugin<Pod>, pods: seq<Pod>, n: int, best: seq<Pod>)
    requires plugin.weight == 1 && IsTop(ScoresOf([plugin], pods), n, best)
    ensures ScoresOf([plugin], pods) == plugin.score(pods) && IsTop(plugin.score(pods), n, best)
  {
    assert [plugin][..0] == [];
    assert Scored([plugin], pods) == plugin.score(pods).Keys;
    forall p | p in plugin.score(pods) ensures ScoresOf([plugin], pods)[p] == plugin.score(pods)[p] {
      assert WeightedScore([plugin], pods, p) == plugin.score(pods)[p];
    }
    assert ScoresOf([plugin], pods) == plugin.score(pods);
  }

  /** The pods some scorer scored. */
  ghost function Candidates<Pod>(scorers: seq<ScorePlugin<Pod>>, kept: seq<Pod>): set<Pod> {
    set p | p in kept && exists k :: 0 <= k < |scorers| && p in scorers[k].score(kept)
  }

  lemma CandidatesAreScored<Pod(!new)>(scorers: seq<ScorePlugin<Pod>>, kept: seq<Pod>)
    requires forall g :: g in scorers ==> ScoresGiven(g)
    ensures Candidates(scorers, kept) == ScoresOf(scorers, kept).Keys
  {
    forall p ensures p in Candidates(scorers, kept) <==> p in ScoresOf(scorers, kept).Keys {
      ScoredIff(scorers, kept, p);
      ScoredAreGiven(scorers, kept, p);
    }
  }

  lemma SumsAreTotals<Pod(!new)>(scorers: seq<ScorePlugin<Pod>>, kept: seq<Pod>, sums: Pod -> seq<int>, p: Pod)
    requires forall g :: g in scorers ==> ScoresGiven(g)
    requires 100 * TotalWeight(scorers) < TWO_63
    requires RunsSums(scorers, kept, p, sums(p))
    ensures p in ScoresOf(scorers, kept) ==> ScoresOf(scorers, kept)[p] == sums(p)[|scorers|]
  {
    TotalsAreExact(scorers, kept, p);
    SumsAre(scorers, kept, p, sums(p));
  }

  /** A best choice of at most five candidates, greatest total first. */
  predicate BestFive<Pod(==)>(candidates: set<Pod>, total: Pod -> int, best: seq<Pod>) {
    && |best| == (if |candidates| < 5 then |candidates| else 5)
    && Distinct(best)
    && (forall p :: p in best ==> p in candidates)
    && (forall i, j :: 0 <= i < j < |best| ==> total(best[i]) >= total(best[j]))
    && (forall p, q :: p in candidates && p !in best && q in best ==> total(p) <= total(q))
  }

  lemma TopIsBestFive<Pod>(scores: map<Pod, Int64>, total: Pod -> int, best: seq<Pod>)
    requires IsTop(scores, TOP_N, best) && forall p :: p in scores ==> scores[p] == total(p)
    ensures BestFive(scores.Keys, total, best)
  {
  }

  /** The five best, given the stages the filters went through and the running sums of every pod: as many as
      some scorer scored, at most five, and all different, greatest sum first; no scored pod that was left
      out has a greater sum than a chosen one; and each chosen pod survived every filter. */
  lemma BestPods<Pod(!new)>(
    filters: seq<FilterPlugin<Pod>>, scorers: seq<ScorePlugin<Pod>>, pods: seq<Pod>, best: seq<Pod>,
    stages: seq<seq<Pod>>, sums: Pod -> seq<int>)
    requires forall f :: f in filters ==> OnlyDrops(f)
    requires forall g :: g in scorers ==> ScoresGiven(g)
    requires 100 * TotalWeight(scorers) < TWO_63
    requires IsTop(ScoresOf(scorers, Stage(filters, pods, |filters|)), TOP_N, best)
    requires RunsStages(filters, pods, stages)
    requires forall p :: RunsSums(scorers, stages[|filters|], p, sums(p))
    ensures var total := p => if sums(p) == [] then 0 else sums(p)[|sums(p)| - 1];
            BestFive(Candidates(scorers, stages[|filters|]), total, best)
    ensures forall p, k :: p in best && 0 <= k <= |filters| ==> p in stages[k]
  {
    StagesAre(filters, pods, stages, |filters|);
    var kept := stages[|filters|];
    var scores := ScoresOf(scorers, kept);
    CandidatesAreScored(scorers, kept);
    var total := p => if sums(p) == [] then 0 else sums(p)[|sums(p)| - 1];
    forall p | p in scores ensures scores[p] == total(p) {
      assert RunsSums(scorers, kept, p, sums(p));
      SumsAreTotals(scorers, kept, sums, p);
    }
    TopIsBestFive(scores, total, best);
    forall p, k | p in best && 0 <= k <= |filters| ensures p in stages[k] {
      assert p in scores;
      BestSurvives(filters, pods, stages, p, k);
    }
  }

  lemma BestSurvives<Pod(!new)>(
    filters: seq<FilterPlugin<Pod>>, pods: seq<Pod>, stages: seq<seq<Pod>>, p: Pod, k: nat)
    requires forall f :: f in filters ==> OnlyDrops(f)
    requires RunsStages(filters, pods, stages) && k <= |filters| && p in stages[|filters|]
    ensures p in stages[k]
  {
    StagesAre(filters, pods, stages, |filters|);
    StagesAre(filters, pods, stages, k);
    SurvivesEveryStage(filters, pods, p, k, |filters|);
  }

  lemma {:induction false} ScoredEmptyIff<Pod>(plugins: seq<ScorePlugin<Pod>>, pods: seq<Pod>)
    ensures Scored(plugins, pods) == {} <==> forall g :: g in plugins ==> g.score(pods) == map[]
  {
    if plugins != [] {
      var init, last := plugins[..|plugins| - 1], plugins[|plugins| - 1];
      ScoredEmptyIff(init, pods);
      assert forall g :: g in plugins <==> g in init || g == last;
      assert last.score(pods).Keys == {} <==> last.score(pods) == map[];
    }
  }

  /** Nobody is chosen exactly when no scorer scored anyone: without scorers, however many pods are left. */
  lemma NobodyChosenIff<Pod>(scorers: seq<ScorePlugin<Pod>>, kept: seq<Pod>, best: seq<Pod>)
    requires IsTop(ScoresOf(scorers, kept), TOP_N, best)
    ensures best == [] <==> forall g :: g in scorers ==> g.score(kept) == map[]
  {
    ScoredEmptyIff(scorers, kept);
    assert ScoresOf(scorers, kept).Keys == Scored(scorers, kept);
    assert |best| == 0 <==> |ScoresOf(scorers, kept)| == 0;
  }

  /** Map order and an unstable sort decide only between equals: any two outcomes have the same scores, place
      by place. */
  lemma TopScoresAreDetermined<Pod>(scores: map<Pod, Int64>, n: int, a: seq<Pod>, b: seq<Pod>, i: nat)
    requires IsTop(scores, n, a) && IsTop(scores, n, b) && i < |a|
    ensures scores[a[i]] == scores[b[i]]
  {
    if scores[a[i]] > scores[b[i]] {
      NotBetter(scores, n, a, b, i);
    } else if scores[b[i]] > scores[a[i]] {
      NotBetter(scores, n, b, a, i);
    }
  }

  lemma NotBetter<Pod>(scores: map<Pod, Int64>, n: int, a: seq<Pod>, b: seq<Pod>, i: nat)
    requires IsTop(scores, n, a) && IsTop(scores, n, b) && i < |a|
    ensures scores[a[i]] <= scores[b[i]]
  {
    if scores[a[i]] > scores[b[i]] {
      // The first i + 1 pods of a all beat b[i], so they are among the first i of b.
      BetterIsEarlier(scores, n, a, b, i);
      var better, earlier := a[..i + 1], b[..i];
      DistinctSize(better);
      DistinctSize(earlier);
      Subset(set p | p in better, set p | p in earlier);
      assert false;
    }
  }

  lemma BetterIsEarlier<Pod>(scores: map<Pod, Int64>, n: int, a: seq<Pod>, b: seq<Pod>, i: nat)
    requires IsTop(scores, n, a) && IsTop(scores, n, b) && i < |a| && scores[a[i]] > scores[b[i]]
    ensures forall p :: p in a[..i + 1] ==> p in b[..i]
  {
    forall p | p in a[..i + 1] ensures p in b[..i] {
      var j := IndexOf(a[..i + 1], p);
      assert a[j] == p && scores[p] >= scores[a[i]];
      assert b[i] in b;
      var k := IndexOf(b, p);
      assert k < i;
      assert b[..i][k] == p;
    }
  }

  lemma {:induction false} Subset<T>(x: set<T>, y: set<T>)
    requires x <= y
    ensures |x| <= |y|
  {
    if x != {} {
      var e :| e in x;
      Subset(x - {e}, y - {e});
    }
  }

  /** So when no two scores are equal there is only one outcome. */
  lemma TopIsUnique<Pod>(scores: map<Pod, Int64>, n: int, a: seq<Pod>, b: seq<Pod>)
    requires IsTop(scores, n, a) && IsTop(scores, n, b)
    requires forall p, q :: p in scores && q in scores && p != q ==> scores[p] != scores[q]
    ensures a == b
  {
    forall i | 0 <= i < |a| ensures a[i] == b[i] {
      TopScoresAreDetermined(scores, n, a, b, i);
    }
  }
}