/** EachAlgo.py: three analyzers with the same per-item body — bump the
    item's count, push the item onto a `heapq` list — and the same query,
    `sorted(list)[len // 2]`. The heavy-hitter branch is `pass`, so the
    threshold influences nothing. `process_batch` and `process_sample` are
    the per-item body in a loop; both are `ProcessBatch` here. */
module EachAlgo {
  import opened Outcomes
  import opened Folding
  import opened FreqTable
  import opened Ordering
  import opened Slicing

  /** `frequency_counts` and `quantile_estimators` (kept as the multiset of
      values the heap list holds; every read sorts it first). */
  datatype Analyzer = Analyzer(counts: Counts, pool: multiset<int>)

  const Fresh := Analyzer(map[], multiset{})

  /** `process_item(item)`. The threshold is taken and not used: the branch
      that tests it does nothing. */
  function ProcessItem(a: Analyzer, x: int, t: int): (r: Analyzer)
    ensures r.pool == a.pool + multiset{x} && |r.pool| == |a.pool| + 1
    ensures Get(r.counts, x) == Get(a.counts, x) + 1
    ensures forall v :: v != x ==> Get(r.counts, v) == Get(a.counts, v)
  {
    Analyzer(Record(a.counts, x), a.pool + multiset{x})
  }

  function ItemStep(t: int): (Analyzer, int) -> Analyzer {
    (a: Analyzer, x: int) => ProcessItem(a, x, t)
  }

  /** `process_batch(data_batch)` and `process_sample(sample)`: from any
      state, the batch's occurrence counts are added to the table and its
      items to the pool. */
  function ProcessBatch(a: Analyzer, batch: seq<int>, t: int): (r: Analyzer)
    ensures r.counts == CountAll(a.counts, batch)
    ensures r.pool == a.pool + multiset(batch)
  {
    ProcessBatchAdds(a, batch, t);
    FoldL(ItemStep(t), a, batch)
  }

  /** `get_quantile_estimate()`: the middle of the sorted pool; an empty
      pool raises `IndexError`. Reading does not change the analyzer. */
  function QuantileEstimate(a: Analyzer): (r: Result<int>)
    ensures r.Ok? <==> a.pool != multiset{}
    ensures r.Ok? ==> r.value in a.pool
  {
    MiddleOf(a.pool)
  }

  /** The driver: slices of `size` fed to `process_batch`. */
  function RunBatches(stream: seq<int>, size: int, t: int): (r: Result<Analyzer>)
    ensures r.Err? <==> size == 0
    ensures r.Err? ==> r.error == ValueError
    ensures size < 0 ==> r == Ok(Fresh)
  {
    match SliceStream(stream, size)
    case Err(e) => Err(e)
    case Ok(bs) => Ok(BatchFold(ItemStep(t), Fresh, bs))
  }

  /** The per-item loop, from any state, adds the items' counts to the
      table and their values to the pool. */
  lemma {:induction false} ProcessBatchAdds(a: Analyzer, items: seq<int>, t: int)
    ensures FoldL(ItemStep(t), a, items).counts == CountAll(a.counts, items)
    ensures FoldL(ItemStep(t), a, items).pool == a.pool + multiset(items)
    decreases |items|
  {
    if items != [] {
      var front := items[..|items| - 1];
      assert items == front + [items[|items| - 1]];
      ProcessBatchAdds(a, front, t);
    }
  }

  /** From fresh, the counts are the occurrence counts of the items and the
      pool is exactly the multiset of the items, so its length is the
      number of items processed. */
  lemma FreshRun(items: seq<int>, t: int)
    ensures ProcessBatch(Fresh, items, t).counts == CountsOf(items)
    ensures ProcessBatch(Fresh, items, t).pool == multiset(items)
    ensures |ProcessBatch(Fresh, items, t).pool| == |items|
  {
  }

  /** The estimate over a stream is its element at index `n // 2` after
      sorting: the value of rank `n // 2` (at most `n // 2` items below it,
      more than `n // 2` at or below it). No items, `IndexError`. */
  lemma EstimateIsMiddleRank(items: seq<int>, t: int)
    ensures items == [] ==> QuantileEstimate(ProcessBatch(Fresh, items, t)) == Err(IndexError)
    ensures items != [] ==>
              && QuantileEstimate(ProcessBatch(Fresh, items, t)) == Ok(Sort(items)[|items| / 2])
              && HasRank(items, QuantileEstimate(ProcessBatch(Fresh, items, t)).value, |items| / 2)
  {
    FreshRun(items, t);
    MiddleRank(items);
  }

  /** Neither the order of the items nor the threshold changes the final
      analyzer. */
  lemma OrderAndThresholdIrrelevant(a: seq<int>, b: seq<int>, t1: int, t2: int)
    requires multiset(a) == multiset(b)
    ensures ProcessBatch(Fresh, a, t1) == ProcessBatch(Fresh, b, t2)
  {
    FreshRun(a, t1);
    FreshRun(b, t2);
    OrderIrrelevant(map[], a, b);
  }

  /** Batch boundaries do not matter: the slicing driver ends where item by
      item processing of the whole stream ends. */
  lemma BatchesMatchItems(stream: seq<int>, size: int, t: int)
    requires size > 0
    ensures RunBatches(stream, size, t) == Ok(ProcessBatch(Fresh, stream, t))
  {
    FoldFlatten(ItemStep(t), Fresh, Slices(stream, size));
  }
}
