/** Scraping a pod's metrics: choosing a sample for a specification, folding a scrape into the previous
    readings, and publishing the result as a new snapshot. */
module MetricsClient {
  import opened Text
  import opened MetricSpec

  datatype Label = Label(name: string, value: string)

  /** One sample of a metric family; a sample without timestamp carries 0. */
  datatype Sample = Sample(labels: seq<Label>, gauge: real, timestampMs: int)

  type Families = map<string, seq<Sample>>

  /** Which metric, if any, each reading is taken from. */
  datatype Mapping = Mapping(
    totalQueuedRequests: Option<Spec>, totalRunningRequests: Option<Spec>,
    kvCacheUtilization: Option<Spec>, cacheConfigInfo: Option<Spec>)

  // ---------- Choosing a sample ----------

  predicate HasLabel(labels: seq<Label>, name: string, value: string) {
    exists i :: 0 <= i < |labels| && labels[i] == Label(name, value)
  }

  /** The sample carries every label the specification asks for. */
  predicate Matches(sample: Sample, spec: Spec) {
    forall name :: name in spec.labels ==> HasLabel(sample.labels, name, spec.labels[name])
  }

  method LabelsMatch(metricLabels: seq<Label>, specLabels: map<string, string>) returns (matching: bool)
    ensures matching <==> forall name :: name in specLabels ==> HasLabel(metricLabels, name, specLabels[name])
  {
    if |specLabels| == 0 {
      return true;
    }
    var left := specLabels.Keys;
    while left != {}
      invariant left <= specLabels.Keys
      invariant forall name :: name in specLabels && name !in left ==> HasLabel(metricLabels, name, specLabels[name])
      decreases |left|
    {
      var specName :| specName in left;
      left := left - {specName};
      var found := false;
      for i := 0 to |metricLabels|
        invariant !found && forall j :: 0 <= j < i ==> metricLabels[j] != Label(specName, specLabels[specName])
      {
        if metricLabels[i].name == specName && metricLabels[i].value == specLabels[specName] {
          found := true;
          break;
        }
      }
      if !found {
        return false;
      }
    }
    return true;
  }

  /** A sample that can be chosen: it matches, and its timestamp is not negative. */
  predicate Eligible(sample: Sample, spec: Spec) {
    Matches(sample, spec) && sample.timestampMs >= 0
  }

  /** Sample i is the newest eligible one, the first of its timestamp. */
  predicate IsNewest(samples: seq<Sample>, spec: Spec, i: nat) {
    && i < |samples| && Eligible(samples[i], spec)
    && forall j :: 0 <= j < |samples| && Eligible(samples[j], spec) ==>
         samples[j].timestampMs <= samples[i].timestampMs && (j < i ==> samples[j].timestampMs < samples[i].timestampMs)
  }

  /** The newest eligible sample of the specification's family, if there is any. */
  function Lookup(families: Families, spec: Spec): Option<Sample> {
    if spec.metricName !in families then None
    else match NewestIndex(families[spec.metricName], spec)
      case None => None
      case Some(i) => Some(families[spec.metricName][i])
  }

  function NewestIndex(samples: seq<Sample>, spec: Spec): (index: Option<nat>)
    ensures index.Some? ==> IsNewest(samples, spec, index.value)
    ensures index.None? ==> forall i :: 0 <= i < |samples| ==> !Eligible(samples[i], spec)
  {
    if samples == [] then None
    else
      var last := |samples| - 1;
      var before := NewestIndex(samples[..last], spec);
      assert forall i :: 0 <= i < last ==> samples[..last][i] == samples[i];
      if Matches(samples[last], spec)
         && samples[last].timestampMs > (if before.None? then -1 else samples[before.value].timestampMs)
      then Some(last) else before
  }

  /** The chosen sample, said of the samples themselves: it carries every label of the specification, has no
      negative timestamp, and no other such sample is newer, nor as new and earlier in the family; none is
      chosen exactly when the family is missing or no sample is like that. */
  lemma LookupExact(families: Families, spec: Spec)
    ensures var family := if spec.metricName in families then families[spec.metricName] else [];
            var fits := (s: Sample) => s.timestampMs >= 0 && forall name :: name in spec.labels ==>
                          Label(name, spec.labels[name]) in s.labels;
            && (Lookup(families, spec).None? <==> forall i :: 0 <= i < |family| ==> !fits(family[i]))
            && (Lookup(families, spec).Some? ==>
                  exists i :: 0 <= i < |family| && family[i] == Lookup(families, spec).value && fits(family[i])
                    && (forall j :: 0 <= j < |family| && fits(family[j]) ==> family[j].timestampMs <= family[i].timestampMs)
                    && (forall j :: 0 <= j < i && fits(family[j]) ==> family[j].timestampMs < family[i].timestampMs))
  {
    var family := if spec.metricName in families then families[spec.metricName] else [];
    forall i | 0 <= i < |family|
      ensures Eligible(family[i], spec)
              <==> family[i].timestampMs >= 0
                   && forall name :: name in spec.labels ==> Label(name, spec.labels[name]) in family[i].labels
    {
      assert forall name :: name in spec.labels ==>
          (HasLabel(family[i].labels, name, spec.labels[name]) <==> Label(name, spec.labels[name]) in family[i].labels);
    }
    var index := NewestIndex(family, spec);
    assert index.Some? ==> IsNewest(family, spec, index.value);
  }

  method GetMetric(families: Families, spec: Spec) returns (r: Result<Sample>)
    ensures r.Ok? <==> Lookup(families, spec).Some?
    ensures r.Ok? ==> r.value == Lookup(families, spec).value
  {
    if spec.metricName !in families {
      return Err("metric family not found");
    }
    var samples := families[spec.metricName];
    if |samples| == 0 {
      return Err("no metrics available");
    }
    var latestMetric: Option<Sample> := None;
    var latestTimestamp := -1;
    for i := 0 to |samples|
      invariant var newest := NewestIndex(samples[..i], spec);
                && (newest.None? ==> latestMetric == None && latestTimestamp == -1)
                && (newest.Some? ==> latestMetric == Some(samples[newest.value])
                                     && latestTimestamp == samples[newest.value].timestampMs)
    {
      assert samples[..i + 1][..i] == samples[..i];
      var matching := LabelsMatch(samples[i].labels, spec.labels);
      assert matching <==> Matches(samples[i], spec);
      if matching && samples[i].timestampMs > latestTimestamp {
        latestTimestamp := samples[i].timestampMs;
        latestMetric := Some(samples[i]);
      }
    }
    assert samples[..|samples|] == samples;
    if latestMetric.Some? {
      return Ok(latestMetric.value);
    }
    return Err("no matching metric found");
  }

  // ---------- Readings ----------

  datatype Readings = Readings(
    activeModels: map<string, int>, waitingModels: map<string, int>, maxActiveModels: int,
    runningRequestsSize: int, waitingQueueSize: int, kvCacheUsagePercent: real, kvCacheMaxTokenCapacity: int,
    cacheBlockSize: int, cacheNumGPUBlocks: int, updateTime: int)

  const MAX_INT: int := 0x7fff_ffff_ffff_ffff

  /** Conversion to an integer drops the fraction. */
  function Truncate(x: real): int {
    if x >= 0.0 then x.Floor else -((-x).Floor)
  }

  /** strconv.Atoi: the number and whether it was read; without it the number is 0 for text that is no
      number, and the nearest bound for one out of range. */
  function Atoi(s: string): (int, bool) {
    var signed := s != [] && (s[0] == '-' || s[0] == '+');
    var digits := if signed then s[1..] else s;
    if digits == [] || !AllDigits(digits) then (0, false)
    else
      var magnitude: int := DigitsValue(digits);
      if signed && s[0] == '-' then
        if magnitude > MAX_INT + 1 then (-MAX_INT - 1, false) else (-magnitude, true)
      else if magnitude > MAX_INT then (MAX_INT, false) else (magnitude, true)
  }

  /** The value of the last label of a name. */
  function LastLabel(labels: seq<Label>, name: string): Option<string> {
    if labels == [] then None
    else if labels[|labels| - 1].name == name then Some(labels[|labels| - 1].value)
    else LastLabel(labels[..|labels| - 1], name)
  }

  /** Truncation moves towards zero by less than one. */
  lemma TruncateTowardsZero(x: real)
    ensures x >= 0.0 ==> Truncate(x) as real <= x < Truncate(x) as real + 1.0
    ensures x <= 0.0 ==> x <= Truncate(x) as real && Truncate(x) as real - 1.0 < x
  {
  }

  /** Atoi undoes decimal printing within 64 bits, and beyond gives the nearest bound and an error. */
  lemma AtoiOfItoa(n: int)
    ensures -MAX_INT - 1 <= n <= MAX_INT ==> Atoi(Itoa(n)) == (n, true)
    ensures n > MAX_INT ==> Atoi(Itoa(n)) == (MAX_INT, false)
    ensures n < -MAX_INT - 1 ==> Atoi(Itoa(n)) == (-MAX_INT - 1, false)
  {
    DecimalDigits(if n < 0 then -n else n);
    if n < 0 {
      assert Itoa(n)[1..] == Decimal(-n);
    } else {
      assert IsDigit(Itoa(n)[0]);
    }
  }

  /** Text that is no number gives 0 and an error. */
  lemma AtoiOfOther(s: string)
    ensures Atoi(s).1 ==> s != [] && (s[0] == '-' || s[0] == '+' || IsDigit(s[0])) && (forall i :: 1 <= i < |s| ==> IsDigit(s[i]))
    ensures (exists i :: 1 <= i < |s| && !IsDigit(s[i])) || s == [] || s == "-" || s == "+" ==> Atoi(s) == (0, false)
  {
    if s != [] {
      assert s == [s[0]] + s[1..];
      assert forall i :: 1 <= i < |s| ==> s[1..][i - 1] == s[i] && s[i] in s[1..] && s[i] in s;
    }
  }

  /** What the labels say of one cache property: the last label of that name decides, readable or not. */
  function CacheValue(labels: seq<Label>, name: string, previous: int): int {
    match LastLabel(labels, name) case None => previous case Some(text) => Atoi(text).0
  }

  const BLOCK_SIZE := "block_size"
  const NUM_GPU_BLOCKS := "num_gpu_blocks"

  predicate CacheReadable(labels: seq<Label>) {
    forall i :: 0 <= i < |labels| && (labels[i].name == BLOCK_SIZE || labels[i].name == NUM_GPU_BLOCKS) ==>
      Atoi(labels[i].value).1
  }

  /** The sample a reading is to be taken from in this scrape. */
  function Source(families: Families, spec: Option<Spec>): Option<Sample> {
    match spec
    case None => None
    case Some(s) => Lookup(families, s)
  }

  function QueuedAfter(m: Mapping, families: Families, previous: int): int {
    match Source(families, m.totalQueuedRequests) case None => previous case Some(s) => Truncate(s.gauge)
  }

  function RunningAfter(m: Mapping, families: Families, previous: int): int {
    match Source(families, m.totalRunningRequests) case None => previous case Some(s) => Truncate(s.gauge)
  }

  function UsageAfter(m: Mapping, families: Families, previous: real): real {
    match Source(families, m.kvCacheUtilization) case None => previous case Some(s) => s.gauge
  }

  function CacheAfter(m: Mapping, families: Families, name: string, previous: int): int {
    match Source(families, m.cacheConfigInfo) case None => previous case Some(s) => CacheValue(s.labels, name, previous)
  }

  /** The readings after a scrape: each taken from its source, or kept when there is none. */
  function Scraped(m: Mapping, families: Families, r: Readings): Readings {
    r.(waitingQueueSize := QueuedAfter(m, families, r.waitingQueueSize),
       runningRequestsSize := RunningAfter(m, families, r.runningRequestsSize),
       kvCacheUsagePercent := UsageAfter(m, families, r.kvCacheUsagePercent),
       cacheBlockSize := CacheAfter(m, families, BLOCK_SIZE, r.cacheBlockSize),
       cacheNumGPUBlocks := CacheAfter(m, families, NUM_GPU_BLOCKS, r.cacheNumGPUBlocks))
  }

  /** The metric, if it is configured, was found. */
  predicate Delivers(families: Families, spec: Option<Spec>) {
    spec.Some? ==> Source(families, spec).Some?
  }

  predicate CacheDelivers(m: Mapping, families: Families) {
    && Delivers(families, m.cacheConfigInfo)
    && (m.cacheConfigInfo.Some? ==> CacheReadable(Source(families, m.cacheConfigInfo).value.labels))
  }

  /** Every configured metric was found, and every cache label could be read. */
  predicate CleanScrape(m: Mapping, families: Families) {
    && Delivers(families, m.totalQueuedRequests) && Delivers(families, m.totalRunningRequests)
    && Delivers(families, m.kvCacheUtilization) && CacheDelivers(m, families)
  }

  /** A map of model counts, shared by reference. */
  class Counts {
    var entries: map<string, int>

    constructor ()
      ensures entries == map[]
    {
      entries := map[];
    }

    /** A new map with the same entries, filled in any order. */
    method Copy() returns (copy: Counts)
      ensures fresh(copy) && copy.entries == entries
    {
      copy := new Counts();
      var left := entries.Keys;
      while left != {}
        invariant left <= entries.Keys && copy.entries == map k | k in entries && k !in left :: entries[k]
        decreases |left|
      {
        var key :| key in left;
        left := left - {key};
        copy.entries := copy.entries[key := entries[key]];
      }
    }
  }

  /** A snapshot of a pod's readings.  Once published it is never written again. */
  class Metrics {
    var activeModels: Counts
    var waitingModels: Counts
    var maxActiveModels: int
    var runningRequestsSize: int
    var waitingQueueSize: int
    var kvCacheUsagePercent: real
    var kvCacheMaxTokenCapacity: int
    var cacheBlockSize: int
    var cacheNumGPUBlocks: int
    var updateTime: int

    constructor ()
      ensures Values() == Readings(map[], map[], 0, 0, 0, 0.0, 0, 0, 0, 0)
      ensures fresh(activeModels) && fresh(waitingModels)
    {
      activeModels := new Counts();
      waitingModels := new Counts();
      maxActiveModels, runningRequestsSize, waitingQueueSize := 0, 0, 0;
      kvCacheUsagePercent, kvCacheMaxTokenCapacity := 0.0, 0;
      cacheBlockSize, cacheNumGPUBlocks, updateTime := 0, 0, 0;
    }

    /** A snapshot of these readings that holds the given maps. */
    constructor Holding(active: Counts, waiting: Counts, r: Readings)
      requires active.entries == r.activeModels && waiting.entries == r.waitingModels
      ensures Values() == r && activeModels == active && waitingModels == waiting
    {
      activeModels, waitingModels := active, waiting;
      maxActiveModels := r.maxActiveModels;
      runningRequestsSize := r.runningRequestsSize;
      waitingQueueSize := r.waitingQueueSize;
      kvCacheUsagePercent := r.kvCacheUsagePercent;
      kvCacheMaxTokenCapacity := r.kvCacheMaxTokenCapacity;
      cacheBlockSize := r.cacheBlockSize;
      cacheNumGPUBlocks := r.cacheNumGPUBlocks;
      updateTime := r.updateTime;
    }

    function Values(): Readings
      reads this, activeModels, waitingModels
    {
      Readings(activeModels.entries, waitingModels.entries, maxActiveModels, runningRequestsSize, waitingQueueSize,
               kvCacheUsagePercent, kvCacheMaxTokenCapacity, cacheBlockSize, cacheNumGPUBlocks, updateTime)
    }

    /** A snapshot that shares nothing with this one, not even its maps. */
    method Clone() returns (copy: Metrics)
      ensures fresh(copy) && fresh(copy.activeModels) && fresh(copy.waitingModels)
      ensures copy.Values() == Values()
    {
      var active := activeModels.Copy();
      var waiting := waitingModels.Copy();
      copy := new Metrics.Holding(active, waiting, Values());
    }

    method ReadQueued(m: Mapping, families: Families) returns (ok: bool)
      modifies this`waitingQueueSize
      ensures waitingQueueSize == QueuedAfter(m, families, old(waitingQueueSize))
      ensures ok <==> Delivers(families, m.totalQueuedRequests)
    {
      var queued, found := ReadSource(families, m.totalQueuedRequests);
      if queued.Some? {
        waitingQueueSize := Truncate(queued.value.gauge);
      }
      ok := found;
    }

    method ReadRunning(m: Mapping, families: Families) returns (ok: bool)
      modifies this`runningRequestsSize
      ensures runningRequestsSize == RunningAfter(m, families, old(runningRequestsSize))
      ensures ok <==> Delivers(families, m.totalRunningRequests)
    {
      var running, found := ReadSource(families, m.totalRunningRequests);
      if running.Some? {
        runningRequestsSize := Truncate(running.value.gauge);
      }
      ok := found;
    }

    method ReadUsage(m: Mapping, families: Families) returns (ok: bool)
      modifies this`kvCacheUsagePercent
      ensures kvCacheUsagePercent == UsageAfter(m, families, old(kvCacheUsagePercent))
      ensures ok <==> Delivers(families, m.kvCacheUtilization)
    {
      var usage, found := ReadSource(families, m.kvCacheUtilization);
      if usage.Some? {
        kvCacheUsagePercent := usage.value.gauge;
      }
      ok := found;
    }

    method ReadCache(m: Mapping, families: Families) returns (ok: bool)
      modifies this`cacheBlockSize, this`cacheNumGPUBlocks
      ensures cacheBlockSize == CacheAfter(m, families, BLOCK_SIZE, old(cacheBlockSize))
      ensures cacheNumGPUBlocks == CacheAfter(m, families, NUM_GPU_BLOCKS, old(cacheNumGPUBlocks))
      ensures ok <==> CacheDelivers(m, families)
    {
      var cache, found := ReadSource(families, m.cacheConfigInfo);
      ok := found;
      if cache.Some? {
        ok := ReadCacheLabels(cache.value.labels);
      }
    }

    /** The cache properties from the labels of a sample, one label at a time. */
    method ReadCacheLabels(labels: seq<Label>) returns (clean: bool)
      modifies this`cacheBlockSize, this`cacheNumGPUBlocks
      ensures cacheBlockSize == CacheValue(labels, BLOCK_SIZE, old(cacheBlockSize))
      ensures cacheNumGPUBlocks == CacheValue(labels, NUM_GPU_BLOCKS, old(cacheNumGPUBlocks))
      ensures clean <==> CacheReadable(labels)
    {
      clean := true;
      for i := 0 to |labels|
        invariant cacheBlockSize == CacheValue(labels[..i], BLOCK_SIZE, old(cacheBlockSize))
        invariant cacheNumGPUBlocks == CacheValue(labels[..i], NUM_GPU_BLOCKS, old(cacheNumGPUBlocks))
        invariant clean <==> CacheReadable(labels[..i])
      {
        CacheStep(labels, i, BLOCK_SIZE, old(cacheBlockSize));
        CacheStep(labels, i, NUM_GPU_BLOCKS, old(cacheNumGPUBlocks));
        var (value, read) := Atoi(labels[i].value);
        if labels[i].name == BLOCK_SIZE {
          cacheBlockSize := value;
          clean := clean && read;
        } else if labels[i].name == NUM_GPU_BLOCKS {
          cacheNumGPUBlocks := value;
          clean := clean && read;
        }
      }
      assert labels[..|labels|] == labels;
    }
  }

  lemma CacheStep(labels: seq<Label>, i: nat, name: string, previous: int)
    requires i < |labels|
    ensures CacheValue(labels[..i + 1], name, previous)
         == if labels[i].name == name then Atoi(labels[i].value).0 else CacheValue(labels[..i], name, previous)
    ensures CacheReadable(labels[..i + 1])
            <==> CacheReadable(labels[..i])
                 && (labels[i].name == BLOCK_SIZE || labels[i].name == NUM_GPU_BLOCKS ==> Atoi(labels[i].value).1)
  {
    assert labels[..i + 1][..i] == labels[..i];
    assert labels[..i + 1] == labels[..i] + [labels[i]];
  }

  /** Looks up one configured metric; no specification is no failure. */
  method ReadSource(families: Families, spec: Option<Spec>) returns (sample: Option<Sample>, ok: bool)
    ensures sample == Source(families, spec)
    ensures ok <==> Delivers(families, spec)
  {
    if spec.None? {
      return None, true;
    }
    var found := GetMetric(families, spec.value);
    if found.Err? {
      return None, false;
    }
    return Some(found.value), true;
  }

  method PromToPodMetrics(m: Mapping, families: Families, existing: Metrics) returns (updated: Metrics, clean: bool)
    ensures fresh(updated) && fresh(updated.activeModels) && fresh(updated.waitingModels)
    ensures updated.Values() == Scraped(m, families, existing.Values())
    ensures clean <==> CleanScrape(m, families)
  {
    updated := existing.Clone();
    var queuedOk := updated.ReadQueued(m, families);
    var runningOk := updated.ReadRunning(m, families);
    var usageOk := updated.ReadUsage(m, families);
    var cacheOk := updated.ReadCache(m, families);
    clean := queuedOk && runningOk && usageOk && cacheOk;
  }

  // ---------- Refreshing ----------

  /** One turn of the refresh loop: what was fetched, if anything, and when. */
  datatype Scrape = Scrape(families: Option<Families>, now: int)

  function AfterScrape(m: Mapping, r: Readings, s: Scrape): Readings {
    match s.families
    case None => r
    case Some(families) => Scraped(m, families, r).(updateTime := s.now)
  }

  function AfterScrapes(m: Mapping, r: Readings, scrapes: seq<Scrape>): Readings {
    if scrapes == [] then r
    else AfterScrape(m, AfterScrapes(m, r, scrapes[..|scrapes| - 1]), scrapes[|scrapes| - 1])
  }

  /** The pod's current snapshot, shared with its readers. */
  class MetricsCell {
    var latestMetrics: Metrics

    constructor ()
      ensures fresh(latestMetrics) && latestMetrics.Values() == Readings(map[], map[], 0, 0, 0, 0.0, 0, 0, 0, 0)
    {
      latestMetrics := new Metrics();
    }

    /** Publishes a new snapshot and leaves every earlier one as it was: only the pointer is written. */
    method RefreshMetrics(m: Mapping, scrape: Scrape)
      modifies this`latestMetrics
      ensures latestMetrics.Values() == AfterScrape(m, old(latestMetrics.Values()), scrape)
      ensures if scrape.families.None? then latestMetrics == old(latestMetrics) else fresh(latestMetrics)
    {
      if scrape.families.None? {
        return;
      }
      var updated, clean := PromToPodMetrics(m, scrape.families.value, latestMetrics);
      UpdateMetrics(updated, scrape.now);
    }

    method UpdateMetrics(updated: Metrics, now: int)
      modifies this`latestMetrics, updated`updateTime
      ensures latestMetrics == updated && updated.Values() == old(updated.Values()).(updateTime := now)
    {
      updated.updateTime := now;
      latestMetrics := updated;
    }

    /** Over any run of the loop, no snapshot that existed before it is written. */
    method RefreshLoop(m: Mapping, scrapes: seq<Scrape>)
      modifies this`latestMetrics
      ensures latestMetrics.Values() == AfterScrapes(m, old(latestMetrics.Values()), scrapes)
    {
      ghost var start := latestMetrics.Values();
      for i := 0 to |scrapes|
        invariant latestMetrics.Values() == AfterScrapes(m, start, scrapes[..i])
      {
        assert scrapes[..i + 1][..i] == scrapes[..i];
        RefreshMetrics(m, scrapes[i]);
      }
      assert scrapes[..|scrapes|] == scrapes;
    }
  }

  // ---------- What the readings mean over a run ----------

  /** The sample of the last turn that delivered one. */
  function LastSource(spec: Option<Spec>, scrapes: seq<Scrape>): Option<Sample> {
    if scrapes == [] then None
    else
      var last := scrapes[|scrapes| - 1];
      var found := if last.families.Some? then Source(last.families.value, spec) else None;
      if found.Some? then found else LastSource(spec, scrapes[..|scrapes| - 1])
  }

  /** After any run each gauge shows the newest sample of the last turn that had one for it, whatever failed
      in other turns or for other metrics. */
  lemma {:induction false} GaugesShowLastSource(m: Mapping, r: Readings, scrapes: seq<Scrape>)
    ensures var now := AfterScrapes(m, r, scrapes);
            var queued, running := LastSource(m.totalQueuedRequests, scrapes), LastSource(m.totalRunningRequests, scrapes);
            var usage := LastSource(m.kvCacheUtilization, scrapes);
            && now.waitingQueueSize == (if queued.Some? then Truncate(queued.value.gauge) else r.waitingQueueSize)
            && now.runningRequestsSize == (if running.Some? then Truncate(running.value.gauge) else r.runningRequestsSize)
            && now.kvCacheUsagePercent == (if usage.Some? then usage.value.gauge else r.kvCacheUsagePercent)
  {
    if scrapes != [] {
      GaugesShowLastSource(m, r, scrapes[..|scrapes| - 1]);
    }
  }

  /** A cache property keeps its previous value when no label of its name is there. */
  lemma {:induction false} CacheValueKept(labels: seq<Label>, name: string, previous: int)
    requires forall i :: 0 <= i < |labels| ==> labels[i].name != name
    ensures CacheValue(labels, name, previous) == previous
  {
    if labels != [] {
      CacheValueKept(labels[..|labels| - 1], name, previous);
    }
  }

  /** Otherwise the last label of its name decides, readable or not. */
  lemma {:induction false} CacheValueLast(labels: seq<Label>, name: string, previous: int, i: nat)
    requires i < |labels| && labels[i].name == name
    requires forall j :: i < j < |labels| ==> labels[j].name != name
    ensures LastLabel(labels, name) == Some(labels[i].value)
    ensures CacheValue(labels, name, previous) == Atoi(labels[i].value).0
  {
    if i < |labels| - 1 {
      CacheValueLast(labels[..|labels| - 1], name, previous, i);
    }
  }

  /** The reading is the previous one or the number the last label of its name spells. */
  predicate KeptOrRead(labels: seq<Label>, name: string, previous: int, now: int) {
    now == previous || (LastLabel(labels, name).Some? && Atoi(LastLabel(labels, name).value) == (now, true))
  }

  /** No label to read, a readable last one, or one whose fallback happens to be the previous reading. */
  predicate NothingLost(labels: seq<Label>, name: string, previous: int) {
    match LastLabel(labels, name)
    case None => true
    case Some(text) => Atoi(text).1 || Atoi(text).0 == previous
  }

  /** Exactly when a cache property is kept or read, and not lost, in a scrape that delivered a cache sample. */
  lemma CacheReadingIff(m: Mapping, families: Families, r: Readings)
    requires Source(families, m.cacheConfigInfo).Some?
    ensures var labels, now := Source(families, m.cacheConfigInfo).value.labels, Scraped(m, families, r);
            && (KeptOrRead(labels, BLOCK_SIZE, r.cacheBlockSize, now.cacheBlockSize)
                <==> NothingLost(labels, BLOCK_SIZE, r.cacheBlockSize))
            && (KeptOrRead(labels, NUM_GPU_BLOCKS, r.cacheNumGPUBlocks, now.cacheNumGPUBlocks)
                <==> NothingLost(labels, NUM_GPU_BLOCKS, r.cacheNumGPUBlocks))
  {
  }

  lemma {:induction false} ReadableLast(labels: seq<Label>, name: string)
    requires CacheReadable(labels) && (name == BLOCK_SIZE || name == NUM_GPU_BLOCKS)
    ensures LastLabel(labels, name).Some? ==> Atoi(LastLabel(labels, name).value).1
  {
    if labels != [] {
      assert forall i :: 0 <= i < |labels| - 1 ==> labels[..|labels| - 1][i] == labels[i];
      ReadableLast(labels[..|labels| - 1], name);
    }
  }

  /** A clean scrape loses no reading: each cache property is kept or read. */
  lemma CleanScrapeLosesNothing(m: Mapping, families: Families, r: Readings)
    requires CleanScrape(m, families) && Source(families, m.cacheConfigInfo).Some?
    ensures var labels, now := Source(families, m.cacheConfigInfo).value.labels, Scraped(m, families, r);
            && KeptOrRead(labels, BLOCK_SIZE, r.cacheBlockSize, now.cacheBlockSize)
            && KeptOrRead(labels, NUM_GPU_BLOCKS, r.cacheNumGPUBlocks, now.cacheNumGPUBlocks)
  {
    var labels := Source(families, m.cacheConfigInfo).value.labels;
    ReadableLast(labels, BLOCK_SIZE);
    ReadableLast(labels, NUM_GPU_BLOCKS);
    CacheReadingIff(m, families, r);
  }

  /** An unreadable cache label does not keep the old reading: it is lost. */
  lemma UnreadableCacheLabelLosesReading(m: Mapping, families: Families, r: Readings)
    requires Source(families, m.cacheConfigInfo).Some?
    requires Source(families, m.cacheConfigInfo).value.labels == [Label(BLOCK_SIZE, "?")]
    ensures Scraped(m, families, r).cacheBlockSize == 0
    ensures r.cacheBlockSize != 0 ==> !KeptOrRead([Label(BLOCK_SIZE, "?")], BLOCK_SIZE, r.cacheBlockSize, 0)
  {
    assert !IsDigit('?');
    assert '?' in "?";
    CacheValueLast([Label(BLOCK_SIZE, "?")], BLOCK_SIZE, r.cacheBlockSize, 0);
  }

  /** The sample in the comment beside the code: cache_config_info{block_size="16",num_gpu_blocks="1024"}. */
  lemma CacheExample(m: Mapping, families: Families, r: Readings)
    requires Source(families, m.cacheConfigInfo).Some?
    requires Source(families, m.cacheConfigInfo).value.labels == [Label("block_size", "16"), Label("num_gpu_blocks", "1024")]
    ensures Scraped(m, families, r).cacheBlockSize == 16 && Scraped(m, families, r).cacheNumGPUBlocks == 1024
  {
    var labels := Source(families, m.cacheConfigInfo).value.labels;
    assert labels[0] == Label("block_size", "16") && labels[1] == Label("num_gpu_blocks", "1024");
    SizesInDecimal();
    AtoiOfItoa(16);
    AtoiOfItoa(1024);
    TwoCacheLabels(labels, r.cacheBlockSize, r.cacheNumGPUBlocks);
  }

  lemma TwoCacheLabels(labels: seq<Label>, size: int, count: int)
    requires |labels| == 2 && labels[0].name == BLOCK_SIZE && labels[1].name == NUM_GPU_BLOCKS
    ensures CacheValue(labels, BLOCK_SIZE, size) == Atoi(labels[0].value).0
    ensures CacheValue(labels, NUM_GPU_BLOCKS, count) == Atoi(labels[1].value).0
  {
    assert |BLOCK_SIZE| != |NUM_GPU_BLOCKS|;
    CacheValueLast(labels, BLOCK_SIZE, size, 0);
    CacheValueLast(labels, NUM_GPU_BLOCKS, count, 1);
  }

  lemma SizesInDecimal()
    ensures Itoa(16) == "16" && Itoa(1024) == "1024"
  {
    DecimalStep(1, 6);
    DecimalStep(1, 0);
    DecimalStep(10, 2);
    DecimalStep(102, 4);
    assert Decimal(1) == "1" && Decimal(10) == "10" && Decimal(102) == "102";
  }
}
