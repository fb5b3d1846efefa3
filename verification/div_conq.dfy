/** DivConq.py: the divide-and-conquer analyzer. Each batch gets its own
    count table, merged into the running table by summing counts; its own
    median, `sorted(batch)[len // 2]`, pushed onto a heap of medians; and its
    own heavy-hitter report, one line per value whose count WITHIN THE BATCH
    reaches the threshold. The estimate is the median of the batch medians,
    not of the stream. */
module DivConq {
  import opened Outcomes
  import opened Folding
  import opened FreqTable
  import opened Ordering
  import opened Slicing
  import opened Medians

  /** `frequency_counts`, `quantile_estimators` (the heap of medians, as the
      multiset it holds) and the "Heavy Hitter Detected in Batch" lines. */
  datatype Analyzer = Analyzer(counts: Counts, medians: multiset<int>, reports: seq<int>)

  const Fresh := Analyzer(map[], multiset{}, [])

  /** The keys, in order, whose count is at least `t`. */
  function KeepHeavy(keys: seq<int>, counts: Counts, t: int): (r: seq<int>)
    ensures forall v :: v in r <==> v in keys && Get(counts, v) >= t
    decreases |keys|
  {
    if keys == [] then []
    else (if Get(counts, keys[0]) >= t then [keys[0]] else []) + KeepHeavy(keys[1..], counts, t)
  }

  lemma {:induction false} KeepHeavyOnce(keys: seq<int>, counts: Counts, t: int)
    requires forall i, j :: 0 <= i < j < |keys| ==> keys[i] != keys[j]
    ensures forall v :: multiset(KeepHeavy(keys, counts, t))[v]
                        == if v in keys && Get(counts, v) >= t then 1 else 0
    decreases |keys|
  {
    if keys != [] {
      var rest := keys[1..];
      assert forall i, j :: 0 <= i < j < |rest| ==> rest[i] == keys[i + 1] && rest[j] == keys[j + 1];
      KeepHeavyOnce(rest, counts, t);
      assert keys[0] !in rest;
      assert keys == [keys[0]] + rest;
    }
  }

  /** The values reported for one batch: each value at most once, exactly
      when its count inside the batch reaches the threshold. */
  function BatchReports(batch: seq<int>, t: int): (r: seq<int>)
    ensures forall v :: multiset(r)[v] == if v in batch && multiset(batch)[v] >= t then 1 else 0
  {
    KeepHeavyOnce(Distinct(batch), CountsOf(batch), t);
    KeepHeavy(Distinct(batch), CountsOf(batch), t)
  }

  /** `process_batch(data_batch)`. The counts are merged by summation; the
      script's loop that does it is `MergeLoopIsMergeSum`. An empty batch
      raises `IndexError` at the median read (its count table is empty, so
      nothing was merged). */
  function ProcessBatch(a: Analyzer, batch: seq<int>, t: int): (r: Result<Analyzer>)
    ensures r.Ok? <==> batch != []
    ensures r.Err? ==> r.error == IndexError
    ensures r.Ok? ==> forall v :: Get(r.value.counts, v) == Get(a.counts, v) + multiset(batch)[v]
    ensures r.Ok? ==> r.value.counts.Keys == a.counts.Keys + Seen(batch)
    ensures r.Ok? ==> r.value.medians == a.medians + multiset{MedianOf(batch)}
    ensures r.Ok? ==> r.value.reports == a.reports + BatchReports(batch, t)
  {
    var merged := MergeSum(a.counts, CountsOf(batch));
    MergeIsRecording(a.counts, batch);
    match MiddleOf(multiset(batch))
    case Err(e) => Err(e)
    case Ok(median) =>
      MedianIsMiddle(batch);
      Ok(Analyzer(merged, a.medians + multiset{median}, a.reports + BatchReports(batch, t)))
  }

  /** The loop over `batch_counts.items()`, visiting the keys in dict
      order, adds up to the merge by summation that `ProcessBatch` applies. */
  lemma MergeLoopIsMergeSum(m: Counts, batch: seq<int>)
    ensures AddCounts(m, Distinct(batch), CountsOf(batch)) == MergeSum(m, CountsOf(batch))
  {
    var c := CountsOf(batch);
    assert forall v :: v in Distinct(batch) <==> v in c;
    AddCountsIsMerge(m, Distinct(batch), c);
  }

  /** `get_quantile_estimate()`: the middle of the sorted batch medians. */
  function QuantileEstimate(a: Analyzer): (r: Result<int>)
    ensures r.Ok? <==> a.medians != multiset{}
    ensures r.Ok? ==> r.value in a.medians
  {
    MiddleOf(a.medians)
  }

  /** A sequence of `process_batch` calls; the first failing batch aborts.
      The run stops with `IndexError` exactly when some batch is empty, and
      otherwise pushes one median per batch, in batch order. */
  function Run(a: Analyzer, bs: seq<seq<int>>, t: int): (r: Result<Analyzer>)
    ensures r.Ok? <==> NoEmptyBatch(bs)
    ensures r.Err? ==> r.error == IndexError
    ensures r.Ok? ==> r.value.medians == a.medians + multiset(BatchMedians(bs))
    decreases |bs|
  {
    if bs == [] then Ok(a)
    else
      NoEmptyBatchSnoc(bs);
      match Run(a, bs[..|bs| - 1], t)
      case Err(e) => Err(e)
      case Ok(a') => ProcessBatch(a', bs[|bs| - 1], t)
  }

  /** The driver loop over `stream[i:i + size]`: a size of 0 raises
      `ValueError`, a negative size processes nothing, and any positive size
      finishes with the counts of the whole stream. */
  function Driver(stream: seq<int>, size: int, t: int): (r: Result<Analyzer>)
    ensures r == Err(ValueError) <==> size == 0
    ensures size < 0 ==> r == Ok(Fresh)
    ensures size > 0 ==> r.Ok? && r.value.counts == CountsOf(stream)
  {
    match SliceStream(stream, size)
    case Err(e) => Err(e)
    case Ok(bs) =>
      RunCounts(bs, t);
      Run(Fresh, bs, t)
  }

  /** Over any sequence of non-empty batches, the merged counts are the
      counts of the concatenated stream. */
  lemma {:induction false} RunCounts(bs: seq<seq<int>>, t: int)
    requires NoEmptyBatch(bs)
    ensures Run(Fresh, bs, t).Ok?
    ensures Run(Fresh, bs, t).value.counts == CountsOf(Flatten(bs))
    decreases |bs|
  {
    if bs != [] {
      var front := bs[..|bs| - 1];
      var b := bs[|bs| - 1];
      SplitLast(bs);
      NoEmptyBatchSnoc(bs);
      RunCounts(front, t);
      var a' := Run(Fresh, front, t).value;
      var r := ProcessBatch(a', b, t);
      assert Run(Fresh, bs, t) == r;
      CountsOfAppend(a'.counts, Flatten(front), b, r.value.counts);
      FlattenAppend(front, [b]);
    }
  }

  /** The estimate after a run is the median of the batch medians: the
      value of rank `k // 2` among the `k` medians. With no batch processed
      it raises `IndexError`. */
  lemma EstimateIsMedianOfMedians(bs: seq<seq<int>>, t: int)
    requires NoEmptyBatch(bs)
    ensures Run(Fresh, bs, t).Ok?
    ensures bs == [] ==> QuantileEstimate(Run(Fresh, bs, t).value) == Err(IndexError)
    ensures bs != [] ==> QuantileEstimate(Run(Fresh, bs, t).value).Ok?
                         && HasRank(BatchMedians(bs), QuantileEstimate(Run(Fresh, bs, t).value).value, |bs| / 2)
  {
    assert Run(Fresh, bs, t).value.medians == multiset(BatchMedians(bs));
    MiddleRank(BatchMedians(bs));
  }

  /** With one batch covering the whole stream (the script's own driver), the
      median of medians is the stream's median, `sorted(stream)[n // 2]`. */
  lemma SingleBatchIsStreamMedian(stream: seq<int>, size: int, t: int)
    requires stream != [] && size >= |stream|
    ensures Driver(stream, size, t).Ok?
    ensures QuantileEstimate(Driver(stream, size, t).value) == Ok(Sort(stream)[|stream| / 2])
  {
    OneSliceWhenStepCoversStream(stream, size);
    var m := Sort(stream)[|stream| / 2];
    assert Run(Fresh, [stream], t) == ProcessBatch(Fresh, stream, t);
    assert Driver(stream, size, t).value.medians == multiset{m};
    assert SortedOf(multiset{m}) == [m] by {
      SortedOfUnique(multiset{m}, [m]);
    }
  }
}
