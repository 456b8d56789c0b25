/** The waiting-queue and running-queue scorers: shortest queue first, normalised to [0, 1].  Both plugins
    run the same two passes, each over its own metric, so the metric is a parameter; scores are exact reals. */
module QueueScore {

  const MAX_INT: int := 0x7fff_ffff_ffff_ffff
  const MIN_INT: int := -0x8000_0000_0000_0000

  /** A queue length as the metrics hold it. */
  type QueueSize = n: int | 0 <= n <= MAX_INT

  function Least<Pod>(pods: seq<Pod>, size: Pod -> QueueSize): int {
    if pods == [] then MAX_INT
    else
      var least, last := Least(pods[..|pods| - 1], size), size(pods[|pods| - 1]);
      if last < least then last else least
  }

  function Greatest<Pod>(pods: seq<Pod>, size: Pod -> QueueSize): int {
    if pods == [] then MIN_INT
    else
      var greatest, last := Greatest(pods[..|pods| - 1], size), size(pods[|pods| - 1]);
      if last > greatest then last else greatest
  }

  lemma {:induction false} ExtremesBound<Pod>(pods: seq<Pod>, size: Pod -> QueueSize, p: Pod)
    requires p in pods
    ensures Least(pods, size) <= size(p) <= Greatest(pods, size)
  {
    if p != pods[|pods| - 1] {
      assert p in pods[..|pods| - 1];
      ExtremesBound(pods[..|pods| - 1], size, p);
    }
  }

  lemma {:induction false} ExtremesReached<Pod>(pods: seq<Pod>, size: Pod -> QueueSize)
    requires pods != []
    ensures exists p :: p in pods && size(p) == Least(pods, size)
    ensures exists p :: p in pods && size(p) == Greatest(pods, size)
  {
    var init, last := pods[..|pods| - 1], pods[|pods| - 1];
    if init == [] {
      assert Least(init, size) == MAX_INT && Greatest(init, size) == MIN_INT;
      assert last in pods && size(last) == Least(pods, size) && size(last) == Greatest(pods, size);
    } else {
      ExtremesReached(init, size);
      var p :| p in init && size(p) == Least(init, size);
      var q :| q in init && size(q) == Greatest(init, size);
      var least := if size(last) < size(p) then last else p;
      var greatest := if size(last) > size(q) then last else q;
      assert least in pods && size(least) == Least(pods, size);
      assert greatest in pods && size(greatest) == Greatest(pods, size);
    }
  }

  /** How far a queue is from the longest one, in units of the spread; 1 when all are equally long. */
  function Normalised(least: int, greatest: int, queue: int): real {
    if greatest - least == 0 then 1.0 else (greatest - queue) as real / (greatest - least) as real
  }

  function ScoreOf<Pod>(pods: seq<Pod>, size: Pod -> QueueSize, p: Pod): real {
    Normalised(Least(pods, size), Greatest(pods, size), size(p))
  }

  /** The scores, among all pods, of some of them. */
  function ScoresOf<Pod(==)>(pods: seq<Pod>, size: Pod -> QueueSize, some: seq<Pod>): map<Pod, real> {
    map p | p in some :: ScoreOf(pods, size, p)
  }

  /** The first pass: the running minimum and maximum. */
  method QueueBounds<Pod>(pods: seq<Pod>, size: Pod -> QueueSize) returns (minQueueSize: int, maxQueueSize: int)
    ensures minQueueSize == Least(pods, size) && maxQueueSize == Greatest(pods, size)
  {
    minQueueSize, maxQueueSize := MAX_INT, MIN_INT;
    for i := 0 to |pods|
      invariant minQueueSize == Least(pods[..i], size) && maxQueueSize == Greatest(pods[..i], size)
    {
      assert pods[..i + 1][..i] == pods[..i];
      var queueSize := size(pods[i]);
      if queueSize < minQueueSize {
        minQueueSize := queueSize;
      }
      if queueSize > maxQueueSize {
        maxQueueSize := queueSize;
      }
    }
    assert pods[..|pods|] == pods;
  }

  method Score<Pod(==)>(pods: seq<Pod>, size: Pod -> QueueSize) returns (scores: map<Pod, real>)
    ensures scores == ScoresOf(pods, size, pods)
  {
    var minQueueSize, maxQueueSize := QueueBounds(pods, size);
    scores := map[];
    for i := 0 to |pods|
      invariant scores == ScoresOf(pods, size, pods[..i])
    {
      ScoresStep(pods, size, i);
      if maxQueueSize - minQueueSize == 0 {
        scores := scores[pods[i] := 1.0];
        continue;
      }
      scores := scores[pods[i] := (maxQueueSize - size(pods[i])) as real / (maxQueueSize - minQueueSize) as real];
    }
    assert pods[..|pods|] == pods;
  }

  lemma ScoresStep<Pod>(pods: seq<Pod>, size: Pod -> QueueSize, i: nat)
    requires i < |pods|
    ensures ScoresOf(pods, size, pods[..i + 1])
         == ScoresOf(pods, size, pods[..i])[pods[i] := ScoreOf(pods, size, pods[i])]
  {
    assert pods[..i + 1] == pods[..i] + [pods[i]];
  }

  // ---------- What the scores mean ----------

  lemma DivideOrder(a: real, b: real, d: real)
    requires d > 0.0
    ensures a / d < b / d <==> a < b
    ensures 0.0 / d == 0.0 && d / d == 1.0
  {
    var x, y := a / d, b / d;
    assert x * d == a && y * d == b;
    assert (y - x) * d == b - a;
    if x < y { assert (y - x) * d > 0.0; }
    if y < x { assert (x - y) * d > 0.0; }
  }

  /** Scores lie in [0, 1]; exactly the shortest queues score 1 and, when queues differ, exactly the longest
      score 0. */
  lemma ScoreRange<Pod>(pods: seq<Pod>, size: Pod -> QueueSize, p: Pod)
    requires p in pods
    ensures 0.0 <= ScoreOf(pods, size, p) <= 1.0
    ensures ScoreOf(pods, size, p) == 1.0 <==> size(p) == Least(pods, size)
    ensures ScoreOf(pods, size, p) == 0.0 <==> size(p) == Greatest(pods, size) != Least(pods, size)
  {
    ExtremesBound(pods, size, p);
    var least, greatest := Least(pods, size), Greatest(pods, size);
    if least < greatest {
      var spread := (greatest - least) as real;
      DivideOrder((greatest - size(p)) as real, spread, spread);
      DivideOrder(0.0, (greatest - size(p)) as real, spread);
    }
  }

  /** A pod scores higher than another exactly when its queue is shorter. */
  lemma ScoreReversesOrder<Pod>(pods: seq<Pod>, size: Pod -> QueueSize, p: Pod, q: Pod)
    requires p in pods && q in pods
    ensures ScoreOf(pods, size, p) > ScoreOf(pods, size, q) <==> size(p) < size(q)
  {
    ExtremesBound(pods, size, p);
    ExtremesBound(pods, size, q);
    var least, greatest := Least(pods, size), Greatest(pods, size);
    if least < greatest {
      DivideOrder((greatest - size(q)) as real, (greatest - size(p)) as real, (greatest - least) as real);
    }
  }

  /** A difference of scores, over the whole spread of queues, is the difference of the two queues. */
  predicate Proportional(spread: int, scores: real, queues: int) {
    scores * spread as real == queues as real
  }

  /** Scores are evenly spread: they differ as their queues do, the longer queue scoring less. */
  lemma ScoreDifference<Pod>(pods: seq<Pod>, size: Pod -> QueueSize, p: Pod, q: Pod)
    requires p in pods && q in pods
    ensures Proportional(Greatest(pods, size) - Least(pods, size),
              ScoreOf(pods, size, p) - ScoreOf(pods, size, q), size(q) - size(p))
  {
    ExtremesBound(pods, size, p);
    ExtremesBound(pods, size, q);
    NormalisedDifference(Least(pods, size), Greatest(pods, size), size(p), size(q));
  }

  lemma NormalisedDifference(least: int, greatest: int, a: int, b: int)
    requires least <= a <= greatest && least <= b <= greatest
    ensures Proportional(greatest - least, Normalised(least, greatest, a) - Normalised(least, greatest, b), b - a)
  {
    if least < greatest {
      DivideDifference((greatest - a) as real, (greatest - b) as real, (greatest - least) as real);
    }
  }

  lemma DivideDifference(a: real, b: real, d: real)
    requires d > 0.0
    ensures (a / d - b / d) * d == a - b
  {
    var x, y := a / d, b / d;
    assert x * d == a && y * d == b;
  }

  /** size2 is size1 in other units, shifted. */
  ghost predicate Rescaled<Pod>(pods: seq<Pod>, size1: Pod -> QueueSize, size2: Pod -> QueueSize, factor: int, shift: int) {
    factor > 0 && forall p :: p in pods ==> size2(p) == factor * size1(p) + shift
  }

  lemma {:induction false} ExtremesRescaled<Pod>(
    pods: seq<Pod>, size1: Pod -> QueueSize, size2: Pod -> QueueSize, factor: int, shift: int)
    requires pods != [] && Rescaled(pods, size1, size2, factor, shift)
    ensures Least(pods, size2) == factor * Least(pods, size1) + shift
    ensures Greatest(pods, size2) == factor * Greatest(pods, size1) + shift
  {
    ExtremesReached(pods, size1);
    ExtremesReached(pods, size2);
    var a :| a in pods && size1(a) == Least(pods, size1);
    var b :| b in pods && size2(b) == Least(pods, size2);
    var c :| c in pods && size1(c) == Greatest(pods, size1);
    var d :| d in pods && size2(d) == Greatest(pods, size2);
    ExtremesBound(pods, size2, a);
    ExtremesBound(pods, size1, b);
    ExtremesBound(pods, size2, c);
    ExtremesBound(pods, size1, d);
    Scale(factor, size1(a), size1(b));
    Scale(factor, size1(d), size1(c));
  }

  lemma Scale(factor: int, a: int, b: int)
    requires factor > 0 && a <= b
    ensures factor * a <= factor * b
  {
  }

  lemma NormalisedRescaled(least: int, greatest: int, queue: int, factor: int, shift: int)
    requires factor > 0
    ensures Normalised(factor * least + shift, factor * greatest + shift, factor * queue + shift)
         == Normalised(least, greatest, queue)
  {
    var spread, gap := greatest - least, greatest - queue;
    assert factor * greatest + shift - (factor * least + shift) == factor * spread;
    assert factor * greatest + shift - (factor * queue + shift) == factor * gap;
    if spread != 0 {
      RatioScale(factor, gap, spread);
    }
  }

  lemma RatioScale(factor: int, a: int, b: int)
    requires factor > 0 && b != 0
    ensures factor * b != 0 && (factor * a) as real / (factor * b) as real == a as real / b as real
  {
    assert factor * b != 0;
    var f, x := factor as real, a as real / b as real;
    assert a as real == x * b as real;
    RealProduct(factor, a);
    RealProduct(factor, b);
    assert f * (x * b as real) == x * (f * b as real);
  }

  lemma RealProduct(a: int, b: int)
    ensures (a * b) as real == a as real * b as real
  {
  }

  /** Only the relative position among the given pods counts: scores do not change when every queue is
      shifted by a constant or measured in another unit. */
  lemma ScoreRescaled<Pod>(
    pods: seq<Pod>, size1: Pod -> QueueSize, size2: Pod -> QueueSize, factor: int, shift: int, p: Pod)
    requires p in pods && Rescaled(pods, size1, size2, factor, shift)
    ensures ScoreOf(pods, size2, p) == ScoreOf(pods, size1, p)
  {
    ExtremesRescaled(pods, size1, size2, factor, shift);
    NormalisedRescaled(Least(pods, size1), Greatest(pods, size1), size1(p), factor, shift);
  }

  // ---------- Both metrics together ----------

  function Combined<Pod>(
    pods: seq<Pod>, waiting: Pod -> QueueSize, running: Pod -> QueueSize, u: real, v: real, p: Pod): real
  {
    u * ScoreOf(pods, waiting, p) + v * ScoreOf(pods, running, p)
  }

  /** Under non-negative weights a pod no less loaded on both metrics never scores higher; it scores lower as
      soon as it is more loaded on a metric of positive weight. */
  lemma CombinedRespectsLoad<Pod>(
    pods: seq<Pod>, waiting: Pod -> QueueSize, running: Pod -> QueueSize, u: real, v: real, p: Pod, q: Pod)
    requires p in pods && q in pods && u >= 0.0 && v >= 0.0
    requires waiting(p) >= waiting(q) && running(p) >= running(q)
    ensures Combined(pods, waiting, running, u, v, p) <= Combined(pods, waiting, running, u, v, q)
    ensures (u > 0.0 && waiting(p) > waiting(q)) || (v > 0.0 && running(p) > running(q))
            ==> Combined(pods, waiting, running, u, v, p) < Combined(pods, waiting, running, u, v, q)
  {
    ScoreReversesOrder(pods, waiting, p, q);
    ScoreReversesOrder(pods, waiting, q, p);
    ScoreReversesOrder(pods, running, p, q);
    ScoreReversesOrder(pods, running, q, p);
    var a, b := ScoreOf(pods, waiting, p), ScoreOf(pods, waiting, q);
    var c, d := ScoreOf(pods, running, p), ScoreOf(pods, running, q);
    WeightedSum(u, a, b, v, c, d);
    if u > 0.0 && a < b {
      StrictSum(u, a, b, v, c, d);
    }
    if v > 0.0 && c < d {
      StrictSum(v, c, d, u, a, b);
    }
  }

  lemma WeightedSum(u: real, a: real, b: real, v: real, c: real, d: real)
    requires u >= 0.0 && v >= 0.0 && a <= b && c <= d
    ensures u * a + v * c <= u * b + v * d
  {
    Weighted(u, a, b);
    Weighted(v, c, d);
  }

  lemma StrictSum(u: real, a: real, b: real, v: real, c: real, d: real)
    requires u > 0.0 && v >= 0.0 && a < b && c <= d
    ensures u * a + v * c < u * b + v * d
  {
    StrictlyWeighted(u, a, b);
    Weighted(v, c, d);
  }

  lemma Weighted(w: real, a: real, b: real)
    requires w >= 0.0 && a <= b
    ensures w * a <= w * b
  {
    if w > 0.0 && a < b {
      StrictlyWeighted(w, a, b);
    }
  }

  lemma StrictlyWeighted(w: real, a: real, b: real)
    requires w > 0.0 && a < b
    ensures w * a < w * b
  {
    var gap := b - a;
    assert w * gap > 0.0;
    assert w * gap == w * b - w * a;
  }
}
