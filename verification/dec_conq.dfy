/** DecConq.py: the decrease-and-conquer analyzer. Each sample is counted
    into the running table item by item, then sorted IN PLACE (the caller's
    list is changed), its middle element pushed onto a heap of medians, and
    then re-scanned with counts LOCAL to the sample: an item is reported
    every time its in-sample count, just incremented, reaches the threshold,
    so reports repeat and come out in sorted order. */
module DecConq {
  import opened Outcomes
  import opened Folding
  import opened FreqTable
  import opened Ordering
  import opened Slicing
  import opened Heavy
  import opened Medians

  /** `frequency_counts`, `quantile_estimators` (the heap of sample medians,
      as the multiset it holds) and the "Heavy Hitter Detected" lines. */
  datatype Analyzer = Analyzer(counts: Counts, medians: multiset<int>, reports: seq<int>)

  const Fresh := Analyzer(map[], multiset{}, [])

  /** The analyzer after a call, and the caller's list after `sample.sort()`. */
  datatype Processed = Processed(analyzer: Analyzer, sample: seq<int>)

  /** `process_sample(sample)`. An empty sample raises `IndexError` at the
      median read; it counted nothing before failing. */
  function ProcessSample(a: Analyzer, sample: seq<int>, t: int): (r: Result<Processed>)
    ensures r.Ok? <==> sample != []
    ensures r.Err? ==> r.error == IndexError
    ensures r.Ok? ==> Sorted(r.value.sample) && multiset(r.value.sample) == multiset(sample)
    ensures r.Ok? ==> forall v :: Get(r.value.analyzer.counts, v) == Get(a.counts, v) + multiset(sample)[v]
    ensures r.Ok? ==> r.value.analyzer.counts.Keys == a.counts.Keys + Seen(sample)
    ensures r.Ok? ==> r.value.analyzer.medians == a.medians + multiset{MedianOf(sample)}
    ensures r.Ok? ==> |r.value.analyzer.reports| >= |a.reports|
                      && r.value.analyzer.reports[..|a.reports|] == a.reports
  {
    var counted := CountAll(a.counts, sample);
    var sorted := Sort(sample);
    match At(sorted, |sorted| / 2)
    case Err(e) => Err(e)
    case Ok(median) =>
      Ok(Processed(Analyzer(counted, a.medians + multiset{median}, a.reports + HitLog(map[], sorted, t)), sorted))
  }

  /** The reports one sample adds: counted against the sample alone, a value
      with `c` occurrences in the sample is reported once for each running
      count from the threshold up to `c`, and the reports are in ascending
      order. */
  lemma SampleReports(a: Analyzer, sample: seq<int>, t: int)
    requires sample != []
    ensures ProcessSample(a, sample, t).Ok?
    ensures var added := ProcessSample(a, sample, t).value.analyzer.reports[|a.reports|..];
            && Sorted(added)
            && forall v :: multiset(added)[v] == Reports(multiset(sample)[v], t)
  {
    var sorted := Sort(sample);
    var added := HitLog(map[], sorted, t);
    assert ProcessSample(a, sample, t).value.analyzer.reports == a.reports + added;
    assert (a.reports + added)[|a.reports|..] == added;
    HitLogSorted(map[], sorted, t);
    FreshHitLogCounts(sorted, t);
  }

  /** Counting before sorting, as the script does, or after would give the
      same table. */
  lemma CountingIgnoresSort(m: Counts, sample: seq<int>)
    ensures CountAll(m, Sort(sample)) == CountAll(m, sample)
  {
    OrderIrrelevant(m, Sort(sample), sample);
  }

  /** `get_quantile_estimate()`: the middle of the sorted sample medians. */
  function QuantileEstimate(a: Analyzer): (r: Result<int>)
    ensures r.Ok? <==> a.medians != multiset{}
    ensures r.Ok? ==> r.value in a.medians
  {
    MiddleOf(a.medians)
  }

  /** A sequence of `process_sample` calls; the first failing sample aborts.
      The run stops with `IndexError` exactly when some sample is empty, and
      otherwise pushes one median per sample, in sample order. */
  function Run(a: Analyzer, samples: seq<seq<int>>, t: int): (r: Result<Analyzer>)
    ensures r.Ok? <==> NoEmptyBatch(samples)
    ensures r.Err? ==> r.error == IndexError
    ensures r.Ok? ==> r.value.medians == a.medians + multiset(BatchMedians(samples))
    decreases |samples|
  {
    if samples == [] then Ok(a)
    else
      NoEmptyBatchSnoc(samples);
      match Run(a, samples[..|samples| - 1], t)
      case Err(e) => Err(e)
      case Ok(a') =>
        match ProcessSample(a', samples[|samples| - 1], t)
        case Err(e) => Err(e)
        case Ok(p) => Ok(p.analyzer)
  }

  /** The driver loop over `stream[i:i + size]`: a size of 0 raises
      `ValueError`, a negative size processes nothing, and any positive size
      finishes with the counts of the whole stream. */
  function Driver(stream: seq<int>, size: int, t: int): (r: Result<Analyzer>)
    ensures r == Err(ValueError) <==> size == 0
    ensures size < 0 ==> r == Ok(Fresh)
    ensures size > 0 ==> r.Ok? && r.value.counts == CountsOf(stream)
  {
    match SliceStream(stream, size)
    case Err(e) => Err(e)
    case Ok(samples) =>
      RunCounts(samples, t);
      Run(Fresh, samples, t)
  }

  /** Over all samples, the running table holds the counts of the whole
      stream the samples came from. */
  lemma {:induction false} RunCounts(samples: seq<seq<int>>, t: int)
    requires NoEmptyBatch(samples)
    ensures Run(Fresh, samples, t).Ok?
    ensures Run(Fresh, samples, t).value.counts == CountsOf(Flatten(samples))
    decreases |samples|
  {
    if samples != [] {
      var front := samples[..|samples| - 1];
      var b := samples[|samples| - 1];
      SplitLast(samples);
      NoEmptyBatchSnoc(samples);
      RunCounts(front, t);
      var a' := Run(Fresh, front, t).value;
      var r := ProcessSample(a', b, t);
      assert Run(Fresh, samples, t) == Ok(r.value.analyzer);
      CountsOfAppend(a'.counts, Flatten(front), b, r.value.analyzer.counts);
      FlattenAppend(front, [b]);
    }
  }

  /** The estimate is the median of the sample medians; with no sample
      processed it raises `IndexError`. */
  lemma EstimateIsMedianOfMedians(samples: seq<seq<int>>, t: int)
    requires NoEmptyBatch(samples)
    ensures Run(Fresh, samples, t).Ok?
    ensures samples == [] ==> QuantileEstimate(Run(Fresh, samples, t).value) == Err(IndexError)
    ensures samples != [] ==>
              && QuantileEstimate(Run(Fresh, samples, t).value).Ok?
              && HasRank(BatchMedians(samples), QuantileEstimate(Run(Fresh, samples, t).value).value, |samples| / 2)
  {
    assert Run(Fresh, samples, t).value.medians == multiset(BatchMedians(samples));
    MiddleRank(BatchMedians(samples));
  }
}
