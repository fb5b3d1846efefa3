# Stream analytics kernel, modelled in Dafny

The repository is a set of Python scripts. Each one feeds a stream of integers to an
analyzer that keeps three things:

- per-value frequency counts;
- a "quantile estimate" (usually labelled the median);
- heavy hitters, the values whose count reaches a threshold.

The scripts use three ways of cutting up the stream:

- **greedy**: one item at a time;
- **divide and conquer**: fixed-size slices `stream[i:i + size]`;
- **decrease and conquer**: fixed-size samples.

This project models the analyzers of `EachAlgoWithMPL.py`, `EachAlgo.py`, `DivConq.py`,
`DecConq.py` and `Greedy.py` as pure functions over `seq<int>`.

| module | file | what it holds |
|---|---|---|
| `Outcomes` | outcomes.dfy | `Option`, `Result` with Python's `IndexError`/`ValueError`, and Python list indexing (`At`, negative indices included) |
| `Folding` | folding.dfy | left folds over a stream and over a stream cut into batches |
| `FreqTable` | freq_table.dfy | the count table as `map<int, nat>`, item-by-item recording and merge-by-sum |
| `Ordering` | ordering.dfy | `sorted()` on a multiset, rank characterisation of `sorted(s)[k]`, the `[len // 2]` read |
| `Slicing` | slicing.dfy | the driver loop `for i in range(0, len, size)` |
| `Heavy` | heavy.dfy | the heavy-hitter set and the running report log |
| `Medians` | medians.dfy | one median per batch, `sorted(batch)[len // 2]` |
| `EachAlgoMpl` | each_algo_mpl.dfy | EachAlgoWithMPL.py |
| `EachAlgo` | each_algo.dfy | EachAlgo.py |
| `DivConq` | div_conq.dfy | DivConq.py |
| `DecConq` | dec_conq.dfy | DecConq.py |
| `Greedy` | greedy.dfy | Greedy.py |

Modelling choices:

- **Heaps are multisets.** Every `heapq` list is read only through `sorted(...)` or
  `heappop`. So only its contents matter: a push is a multiset add, and a pop removes
  a least element.
- **Errors are values.** The exceptions the code can raise are returned as `Err`.
  Reading `sorted(...)[i]` out of range gives `IndexError`. `range(0, n, 0)` gives
  `ValueError`.
- **Printed reports are a log.** The printed "Heavy Hitter Detected" lines become a
  `reports` sequence in the analyzer state.
- **The threshold and sizes are parameters.** Both the threshold and the batch or
  sample size are parameters, except in Greedy.py, where the threshold is the
  constant 5.

What the code does, as the proofs establish it:

- **EachAlgoWithMPL.py.**
  - The field printed as the "Median" is a *running mode*: a most frequent value.
    On a tie it keeps the value that reached the top count first.
  - For every positive batch size, the batch and sample analyzers end with the same
    counts, the same mode and, once de-duplicated, the same heavy-hitter set as the
    one-pass analyzer. A batch size of 0 raises `ValueError` in `range`, and a negative
    one processes nothing.
  - Their internal heavy-hitter list repeats a value once per occurrence at or above
    the threshold.
- **EachAlgo.py.** Every analyzer's estimate is `sorted(items)[n // 2]`. That is the
  value of rank `n // 2`. The threshold has no effect.
- **DivConq.py.** The estimate is the median of the per-batch medians. Heavy hitters
  are judged per batch, once per value. The merged counts are the counts of the
  whole stream.
- **DecConq.py.** Heavy hitters are judged on counts local to the sample. They are
  reported once for each count from the threshold up, in sorted order.
- **Greedy.py.**
  - After a stream of length `n`, the heap holds exactly the `n // 2` largest
    values.
  - `get_quantile_estimate(q)` therefore indexes into that upper half.
  - With `q = 1`, or with fewer than two items, the query raises `IndexError`.

Two behaviours worth stating on their own:

- No script clamps the index for quantile `1.0` (Greedy.py:35-36;
  `Greedy.WholeQuantileFails`).
- A value is reported again at every count from the threshold up (Greedy.py:23-24,
  DecConq.py:27-28, EachAlgoWithMPL.py:51-52; `Heavy.HitLogCounts`,
  `Greedy.FreshCountsAndReports`).

## Model

| member | source | states |
|---|---|---|
| `Outcomes.At` | Greedy.py:36 | Python `s[i]` succeeds exactly for `-len <= i < len` and yields an element of `s`; otherwise `IndexError` |
| `Folding.FoldFlatten` | EachAlgoWithMPL.py:123-125 | folding batch after batch ends in the same state as folding the concatenated stream item by item |
| `FreqTable.Record` | EachAlgoWithMPL.py:18-21 | recording `v` raises its count by one, leaves every other count alone, and adds `v` as a key |
| `FreqTable.CountAll` | EachAlgoWithMPL.py:17-21 | recording a stream adds each value's number of occurrences to its count; keys grow by exactly the values seen |
| `FreqTable.CountsOf` | DivConq.py:14-16 | a fresh table filled from a batch holds each value's occurrence count, keyed by exactly the values present |
| `FreqTable.MergeCommutative` | DivConq.py:17-18 | merge order does not matter |
| `FreqTable.MergeAssociative` | DivConq.py:17-18 | merge grouping does not matter |
| `FreqTable.MergeIsRecording` | DivConq.py:14-18 | merging a batch's own table equals recording the batch's items one by one into the running table |
| `FreqTable.CountsOfAppend` | DivConq.py:17-18 | a table adding `b`'s counts to the table of `front` is the table of `front + b` |
| `FreqTable.Distinct` | DivConq.py:14-17 | the keys of `batch_counts` in iteration order: exactly the batch's values, without repeats |
| `FreqTable.AddCounts` | DivConq.py:17-18 | the merge loop over a key list touches only the listed keys and leaves every other count as it was; its key set grows by exactly the listed keys |
| `FreqTable.AddCountsGet` | DivConq.py:17-18 | over a repeat-free key list, the loop adds `c[v]` to each listed `v` and nothing to any other value |
| `FreqTable.AddCountsIsMerge` | DivConq.py:17-18 | the loop over a repeat-free list of exactly `c`'s keys is the merge-by-sum of `c` into the table |
| `FreqTable.OrderIrrelevant` | EachAlgo.py:33-34 | two streams with the same multiset give the same table |
| `Ordering.MinOf` | Greedy.py:28 | the value `heappop` removes is at or below every element of the heap |
| `Ordering.SortedOf` | EachAlgo.py:22 | `sorted()` of a buffer is ascending and a permutation of its contents |
| `Ordering.SortedUnique` | EachAlgo.py:22 | two ascending permutations of the same values are equal, so `sorted()` has one answer |
| `Ordering.OrderStatistic` | EachAlgo.py:21-24 | `r == sorted(s)[k]` if and only if fewer than `k + 1` items are below `r` and more than `k` are at or below it |
| `Ordering.MiddleOf` | EachAlgo.py:21-24 | the `[len // 2]` read succeeds exactly on a non-empty buffer, yields one of its values, and raises `IndexError` otherwise |
| `Ordering.MiddleRank` | EachAlgo.py:21-24 | on a non-empty stream the `[len // 2]` read is `sorted(s)[n // 2]`, the value of rank `n // 2`; on an empty one it is `IndexError` |
| `Slicing.Slices` | EachAlgoWithMPL.py:123-124 | the slices of a positive step are non-empty, no longer than the step, and concatenate back to the stream |
| `Slicing.SliceCount` | EachAlgoWithMPL.py:123-124 | there are `ceil(len / size)` slices |
| `Slicing.SliceWindow` | EachAlgoWithMPL.py:123-124 | slice `i` is `stream[i * size : i * size + size]`, cut short at the end |
| `Slicing.SliceStream` | EachAlgoWithMPL.py:123-125 | step 0 raises `ValueError`, a negative step yields no batch, a positive step yields non-empty slices whose concatenation is the stream |
| `Slicing.OneSliceWhenStepCoversStream` | DivConq.py:46-52 | with a step at least the stream length, the driver makes one batch, the whole stream |
| `Heavy.Reports` | EachAlgoWithMPL.py:51-52 | a value with count `c` is logged a positive number of times, at most `c`, exactly when `c >= 1` and `c` reaches the threshold |
| `Heavy.HitLog` | EachAlgoWithMPL.py:51-52 | every entry of the running report log is an item of the stream |
| `Heavy.HitLogCounts` | EachAlgoWithMPL.py:51-52 | starting from a table, each value is logged once for every count it reaches at or above the threshold |
| `Heavy.FreshHitLogCounts` | EachAlgoWithMPL.py:51-52 | from an empty table, a value with `c` occurrences is logged `Reports(c, t)` times |
| `Heavy.HitLogSorted` | DecConq.py:24-28 | a log taken over a sorted sample is itself sorted |
| `Heavy.FreshHitLogValues` | EachAlgoWithMPL.py:61 | the set of logged values is exactly the heavy-hitter set of the final counts |
| `Medians.BatchMedians` | DivConq.py:21-24 | one median per batch |
| `Medians.BatchMediansRank` | DivConq.py:21-24 | the `i`-th pushed median has rank `len // 2` within batch `i` |
| `Medians.BatchMedianAt` | DivConq.py:21-24 | the `i`-th pushed median is `sorted(batch_i)[len // 2]` |
| `Medians.MedianOf` | DivConq.py:21-23 | `sorted(batch)[len // 2]` of a non-empty batch is one of its values and has rank `len // 2` in it |
| `EachAlgoMpl.Promote` | EachAlgoWithMPL.py:23-24 | after an update the mode field is set, and is either the new item or the old holder |
| `EachAlgoMpl.ModeStep` | EachAlgoWithMPL.py:23-24 | one update keeps the field a running mode: a value of top count that, among ties, reached that count first |
| `EachAlgoMpl.GreedyItem` | EachAlgoWithMPL.py:17-27 | the item's count rises by one and no other count moves; the mode field is set; the heavy-hitter set only grows, gains no value but the item, and holds the item exactly when it already did or the item's new count reaches the threshold |
| `EachAlgoMpl.NewGreedy` | EachAlgoWithMPL.py:9-27 | the constructor ends with the occurrence counts of `data`, a running mode of `data` in the "median" field, and exactly the values whose final count reaches the threshold as heavy hitters |
| `EachAlgoMpl.GreedyRun` | EachAlgoWithMPL.py:16-27 | the loop of `_process_data`, run item by item from the empty fields, keeps counts equal to the occurrence counts so far, the "median" a running mode (`None` only on empty data), and the set equal to the values whose count reaches the threshold |
| `EachAlgoMpl.GreedyHittersAntitone` | EachAlgoWithMPL.py:26-27 | a higher threshold flags a subset of the values |
| `EachAlgoMpl.BatchItem` | EachAlgoWithMPL.py:46-52 | the item's count rises by one and no other count moves; the list grows by the item exactly when its new count reaches the threshold, and otherwise stays as it was |
| `EachAlgoMpl.ProcessBatch` | EachAlgoWithMPL.py:45-52 | from any state, a batch is recorded into the counts, and the list is extended by the running report log, with counts continuing from the existing table |
| `EachAlgoMpl.BatchStreamLog` | EachAlgoWithMPL.py:45-52 | the per-item loop, by induction on the batch, adds the batch's counts and appends exactly the report log |
| `EachAlgoMpl.HeavyHitters` | EachAlgoWithMPL.py:60-61 | `list(set(...))` holds every value of the internal list and no other, each exactly once |
| `EachAlgoMpl.RunBatches` | EachAlgoWithMPL.py:123-125 | the driver fails, with `ValueError`, exactly when the batch size is 0, and a negative size processes nothing |
| `EachAlgoMpl.BatchMatchesGreedy` | EachAlgoWithMPL.py:45-52 | the batch analyzer's counts and mode field equal those the constructor computes on the same items |
| `EachAlgoMpl.BatchRun` | EachAlgoWithMPL.py:45-52 | item by item, the batch analyzer has the greedy analyzer's counts and mode field, and its list is the running report log |
| `EachAlgoMpl.BatchHitters` | EachAlgoWithMPL.py:45-61 | the internal list holds a value once per occurrence at or above the threshold; de-duplicated it holds exactly the greedy analyzer's heavy hitters |
| `EachAlgoMpl.BatchesMatchGreedy` | EachAlgoWithMPL.py:121-139 | for any positive batch size the sliced driver succeeds and ends with the greedy analyzer's counts and mode, and its de-duplicated heavy hitters are exactly the greedy set |
| `EachAlgo.ProcessItem` | EachAlgo.py:12-16 | an item raises its own count by one, leaves every other count alone, and joins the buffer, which grows by exactly that item |
| `EachAlgo.QuantileEstimate` | EachAlgo.py:21-24 | the estimate exists exactly when the buffer is non-empty, and is one of its values |
| `EachAlgo.ProcessBatch` | EachAlgo.py:32-37 | from any state, a batch adds its items' occurrence counts to the table and its items to the buffer |
| `EachAlgo.RunBatches` | EachAlgo.py:103-105 | the driver fails, with `ValueError`, exactly when the batch size is 0, and a negative size processes nothing |
| `EachAlgo.ProcessBatchAdds` | EachAlgo.py:32-37 | a batch adds its occurrence counts to the table and its items to the buffer |
| `EachAlgo.FreshRun` | EachAlgo.py:53-58 | from fresh, counts are occurrence counts and the buffer is exactly the multiset of items processed |
| `EachAlgo.EstimateIsMiddleRank` | EachAlgo.py:21-24 | the estimate is `sorted(items)[n // 2]`, of rank `n // 2`; on no items it is `IndexError` |
| `EachAlgo.OrderAndThresholdIrrelevant` | EachAlgo.py:12-16 | the final analyzer depends neither on item order nor on the threshold |
| `EachAlgo.BatchesMatchItems` | EachAlgo.py:103-105 | the sliced driver ends where item-by-item processing of the whole stream ends |
| `DivConq.KeepHeavy` | DivConq.py:27-28 | the reported keys are exactly those whose batch count reaches the threshold |
| `DivConq.KeepHeavyOnce` | DivConq.py:27-29 | over distinct keys, each qualifying key is reported once and no other is |
| `DivConq.BatchReports` | DivConq.py:27-29 | one batch reports a value exactly once when its count within the batch reaches the threshold, otherwise never |
| `DivConq.ProcessBatch` | DivConq.py:12-29 | success exactly on a non-empty batch (`IndexError` otherwise); counts add the batch's counts, the batch median is pushed, the batch's reports are appended |
| `DivConq.MergeLoopIsMergeSum` | DivConq.py:14-18 | the `for item, count in batch_counts.items()` loop over the batch's distinct values is the merge-by-sum of the batch's table |
| `DivConq.QuantileEstimate` | DivConq.py:34-37 | the estimate exists exactly when some median was pushed, and is one of them |
| `DivConq.Run` | DivConq.py:12-29 | a run of `process_batch` calls succeeds exactly when no batch is empty (`IndexError` otherwise), and then pushes exactly one median per batch |
| `DivConq.RunCounts` | DivConq.py:14-18 | after any run of non-empty batches the counts are those of the concatenated stream |
| `DivConq.EstimateIsMedianOfMedians` | DivConq.py:34-37 | the estimate has rank `k // 2` among the `k` batch medians; with no batch it is `IndexError` |
| `DivConq.Driver` | DivConq.py:46-52 | the driver raises `ValueError` exactly for batch size 0, processes nothing for a negative size, and for a positive size succeeds with the stream's counts |
| `DivConq.SingleBatchIsStreamMedian` | DivConq.py:46-52 | with one batch covering the stream, the estimate is the stream's `sorted(s)[n // 2]` |
| `DecConq.ProcessSample` | DecConq.py:12-28 | success exactly on a non-empty sample (`IndexError` otherwise); the caller's list ends sorted and is a permutation of the sample; counts add the sample's counts; the sample median is pushed; earlier reports are kept |
| `DecConq.SampleReports` | DecConq.py:23-28 | one sample's reports are sorted, and a value with `c` occurrences in the sample is reported once per count from the threshold to `c` |
| `DecConq.CountingIgnoresSort` | DecConq.py:14-18 | counting the sorted sample gives the same table as counting it unsorted |
| `DecConq.QuantileEstimate` | DecConq.py:33-36 | the estimate exists exactly when some median was pushed, and is one of them |
| `DecConq.Run` | DecConq.py:12-28 | a run of `process_sample` calls succeeds exactly when no sample is empty (`IndexError` otherwise), and then pushes exactly one median per sample |
| `DecConq.RunCounts` | DecConq.py:14-15 | after any run of non-empty samples the counts are those of the concatenated stream |
| `DecConq.EstimateIsMedianOfMedians` | DecConq.py:33-36 | the estimate has rank `k // 2` among the `k` sample medians; with no sample it is `IndexError` |
| `DecConq.Driver` | DecConq.py:44-50 | the driver raises `ValueError` exactly for sample size 0, processes nothing for a negative size, and for a positive size succeeds with the stream's counts |
| `Greedy.ProcessItem` | Greedy.py:14-28 | one item raises its count by one and leaves every other count alone; it is reported exactly when its count reaches 5; the heap takes the item and loses at most one element, a least one, exactly when it would exceed half the stream |
| `Greedy.Trim` | Greedy.py:26-28 | the pop keeps a sub-multiset of the pushed heap, removes one element exactly when the heap exceeds half the stream, and never removes a value above one it keeps |
| `Greedy.ProcessDataStream` | Greedy.py:14-28 | on any analyzer, a stream adds its occurrence counts and appends the running report log continued from the existing counts |
| `Greedy.TruncateBounds` | Greedy.py:35 | `int()` of `num / den` truncates toward zero: the result times `den` lies between 0 and `num`, less than `den` away from `num` |
| `Greedy.Truncate` | Greedy.py:35 | `int()` of `num / den` lies between 0 and `num` whatever the sign of `num` |
| `Greedy.QuantileIndex` | Greedy.py:35 | `int(len * q)` is a valid index of a non-empty buffer for `q` in `[0, 1)`, equals `len` for `q = 1`, and `len // 2` for `q = 0.5` |
| `Greedy.GetQuantile` | Greedy.py:33-36 | the query succeeds exactly when `int(len * q)` is a valid Python index and then yields a heap value; otherwise `IndexError` |
| `Greedy.StreamCountsAndReports` | Greedy.py:14-24 | on any analyzer, a stream adds its occurrence counts and appends the running report log continued from the existing counts |
| `Greedy.FreshCountsAndReports` | Greedy.py:12-24 | on a fresh analyzer, counts are occurrence counts, and a value with `c >= 5` occurrences is reported `c - 4` times, otherwise never |
| `Greedy.HeapStep` | Greedy.py:20-28 | one item keeps the heap the largest `min(i, n // 2)` of the items seen |
| `Greedy.HeapInvariant` | Greedy.py:20-28 | before every item `i` the heap holds `min(i, n // 2)` items, drawn from those seen and none below a left-out one |
| `Greedy.KeptIsSortedSuffix` | Greedy.py:26-28 | a set of largest elements, sorted, is the top places of the sorted stream |
| `Greedy.FinalHeap` | Greedy.py:20-28 | at the end the heap is exactly `sorted(stream)[n - n // 2:]`, as a multiset |
| `Greedy.FreshQuantile` | Greedy.py:33-36 | on a fresh run, quantile `q` in `[0, 1)` is `sorted(stream)[n - k + int(k * q)]` with `k = n // 2`; on fewer than two items it is `IndexError` |
| `Greedy.HalfQuantile` | Greedy.py:53 | the script's `get_quantile_estimate(0.5)` is `sorted(stream)[n - k + k // 2]`, the middle of the upper half, not the stream median |
| `Greedy.WholeQuantileFails` | Greedy.py:35-36 | quantile `1.0` always raises `IndexError`: nothing clamps the index |

## Left out

- Random stream generation in every `__main__` block: the stream is an arbitrary `seq<int>`.
- Timing with `time.time()`, the comparison of which algorithm was quickest, and the
  matplotlib plotting in EachAlgoWithMPL.py: these only observe and present the results.
- `print`: the heavy-hitter lines become the `reports` log, and the other printing is
  presentation.
- The mislabelled `print("Heavy Hitters:", get_frequency_counts())` in EachAlgo.py: it is
  presentation only.
- The array layout of `heapq`: every read sorts first or pops the minimum, so only the
  multiset of contents is modelled.
- Float arithmetic. The quantile `q` of Greedy.py is the exact rational `num / den` with
  `den > 0`, so `len * q` is computed without rounding. A float product that rounds across
  an integer is not modelled. The test `len(heap) > len(stream) / 2` is the exact integer
  test `2 * len(heap) > n`. The drivers' `int(0.05 * N)` and `int(0.1 * N)` settings are
  caller-side, so the threshold and the sizes are parameters.
- `get_frequency_counts`, the `get_quantile_estimate` of EachAlgoWithMPL.py and the
  `get_heavy_hitters` of `GreedyAnalyzer`: each returns a field as it is, so the fields of
  the model's analyzer state are those results.
- Greedy.HeapInvariant: the top-half property is stated for the first call on a fresh
  analyzer. A second `process_data_stream` call on the same analyzer is modelled by
  `Greedy.ProcessDataStream` and `Greedy.StreamCountsAndReports` (counts and reports from
  any state), but the heap then mixes two bounds, and no property of it is stated.
- EachAlgoMpl.HeavyHitters: Python leaves the order of `list(set(...))` unspecified; the
  model returns first-occurrence order, and the contract states only membership and the
  absence of repeats.
- DivConq.ProcessBatch: the dict iteration order of the reports is modelled as
  first-occurrence order, and the contract states the reports as a multiset.
