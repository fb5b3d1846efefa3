/** Greedy.py: one pass over the whole stream. Each item is counted, pushed
    onto a min-heap, reported when its running count reaches the fixed
    threshold 5, and then, if the heap holds more than half the stream's
    length, the heap's minimum is popped. The heap therefore keeps the
    largest `n // 2` values of a stream of length `n`, and the quantile query
    indexes into that upper half, not into the whole stream. */
module Greedy {
  import opened Outcomes
  import opened Folding
  import opened FreqTable
  import opened Ordering
  import opened Slicing
  import opened Heavy

  /** `heavy_hitters_threshold`, set in the constructor. */
  const Threshold: int := 5

  /** `frequency_counts`, `quantile_estimator` (the heap, as the multiset it
      holds) and the "Heavy Hitter Detected" lines. */
  datatype Analyzer = Analyzer(counts: Counts, heap: multiset<int>, reports: seq<int>)

  const Fresh := Analyzer(map[], multiset{}, [])

  /** One iteration of `process_data_stream`'s loop over a stream of length
      `n`: count the item, push it, report it if its count reaches the
      threshold, then trim the heap back to half the stream. */
  function ProcessItem(a: Analyzer, x: int, n: nat): (r: Analyzer)
    ensures Get(r.counts, x) == Get(a.counts, x) + 1
    ensures forall v :: v != x ==> Get(r.counts, v) == Get(a.counts, v)
    ensures r.reports == a.reports || (r.reports == a.reports + [x] && Get(r.counts, x) >= Threshold)
    ensures |r.reports| == |a.reports| + 1 <==> Get(r.counts, x) >= Threshold
    ensures r.heap <= a.heap + multiset{x}
    ensures |r.heap| == |a.heap| + 1 <==> 2 * (|a.heap| + 1) <= n
    ensures |r.heap| == |a.heap| <==> 2 * (|a.heap| + 1) > n
    ensures forall y, z :: y in (a.heap + multiset{x}) - r.heap && z in r.heap ==> y <= z
  {
    var counts := Record(a.counts, x);
    var reports := if Get(counts, x) >= Threshold then a.reports + [x] else a.reports;
    Analyzer(counts, Trim(a.heap + multiset{x}, n), reports)
  }

  /** The pop after the push: `if len(heap) > n / 2: heappop(heap)`. The
      test is Python's float division, the same as `2 * len(heap) > n`. The
      pop drops one least element and nothing else. */
  function Trim(pushed: multiset<int>, n: nat): (r: multiset<int>)
    ensures r <= pushed
    ensures |r| == |pushed| <==> 2 * |pushed| <= n
    ensures |r| == |pushed| - 1 <==> 2 * |pushed| > n
    ensures forall y, z :: y in pushed - r && z in r ==> y <= z
  {
    if 2 * |pushed| > n then
      var least := MinOf(pushed);
      assert pushed - (pushed - multiset{least}) == multiset{least};
      pushed - multiset{least}
    else
      pushed
  }

  function ItemStep(n: nat): (Analyzer, int) -> Analyzer {
    (a: Analyzer, x: int) => ProcessItem(a, x, n)
  }

  /** `process_data_stream(data_stream)`, on any analyzer: the bound uses the
      length of the stream of this call. The stream's occurrence counts are
      added to the table, and the reports grow by the running log, with
      counts continuing from the table the analyzer already had. */
  function ProcessDataStream(a: Analyzer, s: seq<int>): (r: Analyzer)
    ensures r.counts == CountAll(a.counts, s)
    ensures r.reports == a.reports + HitLog(a.counts, s, Threshold)
  {
    StreamCountsAndReports(a, |s|, s);
    FoldL(ItemStep(|s|), a, s)
  }

  /** Python's `int(x)` on a non-integral value: truncation toward zero. The
      product `len * quantile` is the rational `len * num / den`. */
  function Truncate(num: int, den: int): (r: int)
    requires den > 0
    ensures 0 <= num ==> 0 <= r <= num
    ensures num < 0 ==> num <= r <= 0
  {
    if num >= 0 then
      QuotientAtMost(num, den);
      num / den
    else
      QuotientAtMost(-num, den);
      -((-num) / den)
  }

  lemma QuotientAtMost(a: int, b: int)
    requires a >= 0 && b > 0
    ensures 0 <= a / b <= a
  {
    DivBounds(a, b);
    if a / b > 0 {
      MulMono(1, b, a / b);
    }
  }

  /** `int()` moves toward zero by less than one: the result's multiple of
      `den` lies between zero and `num`, within `den` of `num`. */
  lemma TruncateBounds(num: int, den: int)
    requires den > 0
    ensures 0 <= num ==> 0 <= Truncate(num, den) && Truncate(num, den) * den <= num < Truncate(num, den) * den + den
    ensures num < 0 ==> Truncate(num, den) <= 0 && -Truncate(num, den) * den <= -num < -Truncate(num, den) * den + den
  {
    if num >= 0 {
      DivBounds(num, den);
    } else {
      DivBounds(-num, den);
    }
  }

  lemma DivBounds(a: int, b: int)
    requires a >= 0 && b > 0
    ensures 0 <= a / b && (a / b) * b <= a < (a / b) * b + b
  {
  }

  lemma MulMono(r: int, a: int, q: int)
    requires q > 0
    ensures r <= a ==> r * q <= a * q
  {
    assert a * q == r * q + (a - r) * q;
    if r <= a {
      assert (a - r) * q >= 0;
    }
  }

  /** The quotient is the only `r` with `r * q <= x < r * q + q`. */
  lemma DivUnique(x: int, q: int, r: int)
    requires x >= 0 && q > 0
    requires r * q <= x < r * q + q
    ensures x / q == r
  {
    var d := x / q;
    assert (d + 1) * q == d * q + q;
    assert (r + 1) * q == r * q + q;
    MulMono(d + 1, r, q);
    MulMono(r + 1, d, q);
  }

  /** `int(len * quantile)` for `quantile == num / den`. A quantile in
      `[0, 1)` of a non-empty buffer gives an index inside it; `quantile == 1`
      gives `len`, one past the end; `0.5` gives `len // 2`. */
  function QuantileIndex(len: nat, num: int, den: int): (i: int)
    requires den > 0
    ensures 0 <= num < den && len > 0 ==> 0 <= i < len
    ensures num == den ==> i == len
    ensures num == 1 && den == 2 ==> i == len / 2
  {
    QuantileIndexFacts(len, num, den);
    Truncate(Scaled(len, num), den)
  }

  /** `len * num`, spelled as repeated addition so that the solver unfolds
      it only on demand. */
  function Scaled(len: nat, num: int): int
    decreases len
  {
    if len == 0 then 0 else Scaled(len - 1, num) + num
  }

  lemma {:induction false} ScaledIsProduct(len: nat, num: int)
    ensures Scaled(len, num) == len * num
    decreases len
  {
    if len > 0 {
      ScaledIsProduct(len - 1, num);
      assert (len - 1) * num + num == len * num;
    }
  }

  /** `get_quantile_estimate(quantile)` with `quantile == num / den`: the
      element at `int(len * quantile)` of the sorted heap. No index is
      clamped, so `quantile == 1` or an empty heap raises `IndexError`, and a
      negative quantile counts from the end as Python does. The heap is
      only read. */
  function GetQuantile(a: Analyzer, num: int, den: int): (r: Result<int>)
    requires den > 0
    ensures r.Ok? <==> -|a.heap| <= QuantileIndex(|a.heap|, num, den) < |a.heap|
    ensures r.Err? ==> r.error == IndexError
    ensures r.Ok? ==> r.value in a.heap
  {
    At(SortedOf(a.heap), QuantileIndex(|a.heap|, num, den))
  }

  // -----------------------------------------------------------------------
  // Counts and reports, from any starting analyzer.

  /** Processing `s` adds the occurrence counts of `s` to the table, and
      appends the running heavy-hitter log, with counts continuing from the
      table the analyzer already had. */
  lemma StreamCountsAndReports(a: Analyzer, n: nat, s: seq<int>)
    ensures FoldL(ItemStep(n), a, s).counts == CountAll(a.counts, s)
    ensures FoldL(ItemStep(n), a, s).reports == a.reports + HitLog(a.counts, s, Threshold)
  {
    StreamCounts(a, n, s);
    StreamReports(a, n, s);
  }

  lemma {:induction false} StreamCounts(a: Analyzer, n: nat, s: seq<int>)
    ensures FoldL(ItemStep(n), a, s).counts == CountAll(a.counts, s)
    decreases |s|
  {
    if s != [] {
      var front := s[..|s| - 1];
      StreamCounts(a, n, front);
      assert FoldL(ItemStep(n), a, s) == ProcessItem(FoldL(ItemStep(n), a, front), s[|s| - 1], n);
      CountAllSnoc(a.counts, s);
    }
  }

  lemma {:induction false} StreamReports(a: Analyzer, n: nat, s: seq<int>)
    ensures FoldL(ItemStep(n), a, s).reports == a.reports + HitLog(a.counts, s, Threshold)
    decreases |s|
  {
    if s != [] {
      var front := s[..|s| - 1];
      StreamReports(a, n, front);
      StreamCounts(a, n, s);
      assert FoldL(ItemStep(n), a, s) == ProcessItem(FoldL(ItemStep(n), a, front), s[|s| - 1], n);
      HitLogSnoc(a.counts, s, Threshold);
    }
  }

  /** On a fresh analyzer the counts are the stream's occurrence counts, and
      a value that occurs `c` times is reported `c - 4` times when `c >= 5`
      (once per occurrence from the fifth on), never otherwise. */
  lemma FreshCountsAndReports(s: seq<int>)
    ensures ProcessDataStream(Fresh, s).counts == CountsOf(s)
    ensures forall v :: multiset(ProcessDataStream(Fresh, s).reports)[v]
                        == if multiset(s)[v] >= Threshold then multiset(s)[v] - (Threshold - 1) else 0
  {
    FreshHitLogCounts(s, Threshold);
  }

  // -----------------------------------------------------------------------
  // The heap keeps the largest half.

  /** `kept` is drawn from `seen`, and nothing of `seen` left out of `kept`
      is larger than anything kept. */
  ghost predicate KeepsLargest(seen: multiset<int>, kept: multiset<int>) {
    && kept <= seen
    && forall y, z :: y in seen - kept && z in kept ==> y <= z
  }

  lemma SameSizeSubset(kept: multiset<int>, seen: multiset<int>)
    requires kept <= seen && |kept| == |seen|
    ensures kept == seen
  {
    assert seen == kept + (seen - kept);
  }

  /** One item, the `i`-th of a stream of length `n`, keeps the heap the
      largest `min(i, n // 2)` of the items seen. */
  lemma HeapStep(seen: multiset<int>, a: Analyzer, x: int, n: nat)
    requires |seen| < n
    requires KeepsLargest(seen, a.heap) && |a.heap| == Min(|seen|, n / 2)
    ensures KeepsLargest(seen + multiset{x}, ProcessItem(a, x, n).heap)
    ensures |ProcessItem(a, x, n).heap| == Min(|seen| + 1, n / 2)
  {
    var pushed := a.heap + multiset{x};
    var r := ProcessItem(a, x, n).heap;
    var seen' := seen + multiset{x};
    if 2 * |pushed| > n {
      var least := MinOf(pushed);
      assert r == pushed - multiset{least};
      forall y, z | y in seen' - r && z in r
        ensures y <= z
      {
        if y in seen - a.heap && z !in a.heap {
          assert z == x;
          assert least != x;
          assert least in a.heap;
        }
      }
    } else {
      SameSizeSubset(a.heap, seen);
      assert seen' - r == multiset{};
    }
  }

  /** Before each item `i` of the stream and after the last, the heap holds
      `min(i, n // 2)` of the items seen, the largest ones; in particular
      `2 * len(heap) <= n` throughout. */
  lemma {:induction false} HeapInvariant(s: seq<int>, u: seq<int>)
    requires |u| <= |s|
    ensures KeepsLargest(multiset(u), FoldL(ItemStep(|s|), Fresh, u).heap)
    ensures |FoldL(ItemStep(|s|), Fresh, u).heap| == Min(|u|, |s| / 2)
    decreases |u|
  {
    if u != [] {
      var front := u[..|u| - 1];
      var x := u[|u| - 1];
      assert u == front + [x];
      HeapInvariant(s, front);
      HeapStep(multiset(front), FoldL(ItemStep(|s|), Fresh, front), x, |s|);
    }
  }

  /** Two sorted runs, the lower entirely at or below the upper, glue into
      a sorted sequence. */
  lemma GlueSorted(lo: seq<int>, hi: seq<int>)
    requires Sorted(lo) && Sorted(hi)
    requires forall i, j :: 0 <= i < |lo| && 0 <= j < |hi| ==> lo[i] <= hi[j]
    ensures Sorted(lo + hi)
  {
  }

  /** If `kept` holds the largest elements of `s`, sorted it is the top
      `|kept|` places of `sorted(s)`. */
  lemma KeptIsSortedSuffix(s: seq<int>, kept: multiset<int>)
    requires KeepsLargest(multiset(s), kept)
    ensures |kept| <= |s|
    ensures SortedOf(kept) == Sort(s)[|s| - |kept|..]
  {
    var lo := SortedOf(multiset(s) - kept);
    var hi := SortedOf(kept);
    assert multiset(s) == (multiset(s) - kept) + kept;
    LowBelowHigh(multiset(s), kept, lo, hi);
    assert multiset(lo + hi) == multiset(s);
    SortedUnique(lo + hi, Sort(s));
    assert (lo + hi)[|lo|..] == hi;
  }

  lemma LowBelowHigh(seen: multiset<int>, kept: multiset<int>, lo: seq<int>, hi: seq<int>)
    requires KeepsLargest(seen, kept)
    requires Sorted(lo) && multiset(lo) == seen - kept
    requires Sorted(hi) && multiset(hi) == kept
    ensures Sorted(lo + hi)
  {
    forall i, j | 0 <= i < |lo| && 0 <= j < |hi|
      ensures lo[i] <= hi[j]
    {
      assert lo[i] in multiset(lo);
      assert hi[j] in multiset(hi);
    }
    GlueSorted(lo, hi);
  }

  /** At the end of the stream the heap holds exactly the `n // 2` largest
      values, as a multiset: `sorted(stream)[n - n // 2:]`. */
  lemma FinalHeap(s: seq<int>)
    ensures |ProcessDataStream(Fresh, s).heap| == |s| / 2
    ensures SortedOf(ProcessDataStream(Fresh, s).heap) == Sort(s)[|s| - |s| / 2..]
    ensures ProcessDataStream(Fresh, s).heap == multiset(Sort(s)[|s| - |s| / 2..])
  {
    HeapInvariant(s, s);
    KeptIsSortedSuffix(s, ProcessDataStream(Fresh, s).heap);
  }

  lemma QuantileIndexFacts(len: nat, num: int, den: int)
    requires den > 0
    ensures 0 <= num < den && len > 0 ==> 0 <= Truncate(Scaled(len, num), den) < len
    ensures num == den ==> Truncate(Scaled(len, num), den) == len
    ensures num == 1 && den == 2 ==> Truncate(Scaled(len, num), den) == len / 2
  {
    ScaledIsProduct(len, num);
    if 0 <= num < den && len > 0 {
      QuantileIndexInRange(len, num, den);
    }
    if num == den {
      DivUnique(len * num, den, len);
    }
    if num == 1 && den == 2 {
      assert len * num == len;
    }
  }

  lemma QuantileIndexInRange(k: int, num: int, den: int)
    requires k >= 1 && 0 <= num < den
    ensures 0 <= Truncate(k * num, den) < k
  {
    var r := Truncate(k * num, den);
    assert 0 <= k * num by {
      MulMono(0, num, k);
    }
    TruncateBounds(k * num, den);
    MulMono(num + 1, den, k);
    assert (num + 1) * k == num * k + k;
    MulMono(k, r, den);
  }

  /** On a fresh run, a quantile `q = num / den` in `[0, 1)` reads place
      `n - k + int(k * q)` of the sorted stream, `k = n // 2`: it ranges over
      the upper half only, so `q = 0` gives the least retained value, not
      the stream's minimum. With fewer than two items the heap is empty and
      every quantile raises `IndexError`. */
  lemma FreshQuantile(s: seq<int>, num: int, den: int)
    requires 0 <= num < den
    ensures |s| <= 1 ==> GetQuantile(ProcessDataStream(Fresh, s), num, den) == Err(IndexError)
    ensures |s| >= 2 ==>
              && 0 <= QuantileIndex(|s| / 2, num, den) < |s| / 2
              && GetQuantile(ProcessDataStream(Fresh, s), num, den)
                 == Ok(Sort(s)[|s| - |s| / 2 + QuantileIndex(|s| / 2, num, den)])
  {
    FinalHeap(s);
    QuantileOfTopHalf(s, ProcessDataStream(Fresh, s), num, den);
  }

  /** A query on any analyzer whose heap, sorted, is the top half of
      `sorted(s)`. */
  lemma QuantileOfTopHalf(s: seq<int>, a: Analyzer, num: int, den: int)
    requires 0 <= num < den
    requires |a.heap| == |s| / 2 && SortedOf(a.heap) == Sort(s)[|s| - |s| / 2..]
    ensures |s| <= 1 ==> GetQuantile(a, num, den) == Err(IndexError)
    ensures |s| >= 2 ==>
              && 0 <= QuantileIndex(|s| / 2, num, den) < |s| / 2
              && GetQuantile(a, num, den) == Ok(Sort(s)[|s| - |s| / 2 + QuantileIndex(|s| / 2, num, den)])
  {
  }

  /** The script's query `get_quantile_estimate(0.5)` is the middle of the
      upper half: `sorted(stream)[n - k + k // 2]` with `k = n // 2`, which
      is not the stream median. */
  lemma HalfQuantile(s: seq<int>)
    ensures |s| <= 1 ==> GetQuantile(ProcessDataStream(Fresh, s), 1, 2) == Err(IndexError)
    ensures |s| >= 2 ==> GetQuantile(ProcessDataStream(Fresh, s), 1, 2)
                         == Ok(Sort(s)[|s| - |s| / 2 + |s| / 2 / 2])
  {
    var k := |s| / 2;
    var i := QuantileIndex(k, 1, 2);
    assert i == k / 2;
    FreshQuantile(s, 1, 2);
  }

  /** `quantile == 1.0` always indexes one past the end. */
  lemma WholeQuantileFails(a: Analyzer, q: int)
    requires q > 0
    ensures GetQuantile(a, q, q) == Err(IndexError)
  {
  }
}
