/** EachAlgoWithMPL.py: three analyzers that share one per-item step —
    count the item, let it take over the `quantile_estimate` field when its
    count strictly exceeds the current holder's, and flag it as a heavy
    hitter when its count reaches the threshold.

    The field printed as "Quantile Estimate (Median)" is a running MODE: a
    most frequent value, ties going to whichever value reached the top count
    first. `DecreaseAndConquerAnalyzer.process_sample` has the same text as
    `DivideAndConquerAnalyzer.process_batch`, so both are `ProcessBatch`. */
module EachAlgoMpl {
  import opened Outcomes
  import opened Folding
  import opened FreqTable
  import opened Slicing
  import opened Heavy

  /** The `quantile_estimate` update, with `counts` already incremented for
      `x`: `x` takes over from an empty field, or when its count is strictly
      greater than the holder's. */
  function Promote(holder: Option<int>, counts: Counts, x: int): (r: Option<int>)
    ensures r.Some?
    ensures r.value == x || r == holder
  {
    if holder.None? || Get(counts, x) > Get(counts, holder.value) then Some(x) else holder
  }

  // -----------------------------------------------------------------------
  // The reference meaning of the mode field.

  /** Length of the shortest prefix of `s` in which `v` occurs `c` times:
      the moment `v`'s count reached `c`. */
  ghost function ReachLen(s: seq<int>, v: int, c: nat): (n: nat)
    requires 1 <= c <= multiset(s)[v]
    ensures 1 <= n <= |s| && s[n - 1] == v
    ensures multiset(s[..n])[v] == c && multiset(s[..n - 1])[v] < c
    decreases |s|
  {
    var front := s[..|s| - 1];
    assert s == front + [s[|s| - 1]];
    if multiset(front)[v] >= c then
      var n := ReachLen(front, v, c);
      assert s[..n] == front[..n] && s[..n - 1] == front[..n - 1];
      n
    else
      assert s[..|s|] == s;
      |s|
  }

  lemma ReachLenExtend(s: seq<int>, x: int, v: int, c: nat)
    requires 1 <= c <= multiset(s)[v]
    ensures multiset(s + [x])[v] >= c
    ensures ReachLen(s + [x], v, c) == ReachLen(s, v, c)
  {
    assert (s + [x])[..|s + [x]| - 1] == s;
  }

  lemma ReachLenNew(s: seq<int>, x: int)
    ensures multiset(s + [x])[x] == multiset(s)[x] + 1
    ensures ReachLen(s + [x], x, multiset(s)[x] + 1) == |s| + 1
  {
    assert (s + [x])[..|s + [x]| - 1] == s;
  }

  /** `holder` is what the mode field must hold after the items `s`: empty
      exactly when nothing has been processed; otherwise an item of `s` whose
      count is at least every value's count, and, among the values sharing
      that top count, the one whose count reached it first. */
  ghost predicate IsRunningMode(s: seq<int>, holder: Option<int>) {
    && (holder.None? <==> s == [])
    && (holder.Some? ==>
          var m := holder.value;
          var c := multiset(s)[m];
          && m in s
          && (forall v :: multiset(s)[v] <= c)
          && (forall w :: w != m && multiset(s)[w] == c ==> ReachLen(s, m, c) < ReachLen(s, w, c)))
  }

  /** One more item keeps the field a running mode. */
  lemma ModeStep(s: seq<int>, x: int, holder: Option<int>)
    requires IsRunningMode(s, holder)
    ensures IsRunningMode(s + [x], Promote(holder, CountsOf(s + [x]), x))
  {
    var s' := s + [x];
    assert multiset(s') == multiset(s) + multiset{x};
    var r := Promote(holder, CountsOf(s'), x);
    if holder.None? {
      assert s == [] && s' == [x];
      assert r == Some(x);
      forall v
        ensures multiset(s')[v] <= 1
      {
        assert multiset(s')[v] == if v == x then 1 else 0;
      }
    } else {
      var m := holder.value;
      var c := multiset(s)[m];
      var cx := multiset(s)[x];
      if x != m && cx + 1 > c {
        assert r == Some(x);
        assert multiset(s')[x] == c + 1;
      } else if x == m {
        assert r == holder;
        assert multiset(s')[m] == c + 1;
      } else {
        assert r == holder;
        assert multiset(s')[m] == c;
        forall w | w != m && multiset(s')[w] == c
          ensures ReachLen(s', m, c) < ReachLen(s', w, c)
        {
          ReachLenExtend(s, x, m, c);
          if w == x {
            ReachLenNew(s, x);
          } else {
            ReachLenExtend(s, x, w, c);
          }
        }
      }
    }
  }

  // -----------------------------------------------------------------------
  // GreedyAnalyzer: the whole stream in the constructor, heavy hitters as a set.

  datatype GreedyAnalyzer = GreedyAnalyzer(counts: Counts, estimate: Option<int>, hitters: set<int>)

  /** One iteration of `_process_data`'s loop. Only the item's count moves,
      by one; a flagged value stays flagged, and only the item can join. */
  function GreedyItem(a: GreedyAnalyzer, x: int, t: int): (r: GreedyAnalyzer)
    ensures Get(r.counts, x) == Get(a.counts, x) + 1
    ensures forall v :: v != x ==> Get(r.counts, v) == Get(a.counts, v)
    ensures a.hitters <= r.hitters <= a.hitters + {x}
    ensures r.estimate.Some?
    ensures x in r.hitters <==> x in a.hitters || Get(r.counts, x) >= t
  {
    var c := Record(a.counts, x);
    GreedyAnalyzer(c, Promote(a.estimate, c, x), if Get(c, x) >= t then a.hitters + {x} else a.hitters)
  }

  function GreedyStep(t: int): (GreedyAnalyzer, int) -> GreedyAnalyzer {
    (a: GreedyAnalyzer, x: int) => GreedyItem(a, x, t)
  }

  /** The fields before `_process_data` runs. */
  const EmptyGreedy := GreedyAnalyzer(map[], None, {})

  /** `GreedyAnalyzer(data, threshold)`: the counts are the occurrence counts
      of `data`, the "median" field is a running mode of `data`, and the
      heavy-hitter set is exactly the values whose final count reaches the
      threshold. */
  function NewGreedy(data: seq<int>, t: int): (r: GreedyAnalyzer)
    ensures r.counts == CountsOf(data)
    ensures IsRunningMode(data, r.estimate)
    ensures r.hitters == HeavySet(CountsOf(data), t)
  {
    GreedyRun(data, t);
    FoldL(GreedyStep(t), EmptyGreedy, data)
  }

  /** The loop of `_process_data`, item by item, keeps the three fields in
      step with the items processed so far. */
  lemma {:induction false} GreedyRun(data: seq<int>, t: int)
    ensures FoldL(GreedyStep(t), EmptyGreedy, data).counts == CountsOf(data)
    ensures IsRunningMode(data, FoldL(GreedyStep(t), EmptyGreedy, data).estimate)
    ensures FoldL(GreedyStep(t), EmptyGreedy, data).hitters == HeavySet(CountsOf(data), t)
    decreases |data|
  {
    if data != [] {
      var front := data[..|data| - 1];
      var x := data[|data| - 1];
      assert data == front + [x];
      GreedyRun(front, t);
      var prev := FoldL(GreedyStep(t), EmptyGreedy, front);
      assert FoldL(GreedyStep(t), EmptyGreedy, data) == GreedyItem(prev, x, t);
      RecordExtends(front, x);
      ModeStep(front, x, prev.estimate);
      HeavySetStep(CountsOf(front), prev.hitters, x, t);
    }
  }

  /** Counting one more item is counting the longer stream. */
  lemma RecordExtends(s: seq<int>, x: int)
    ensures Record(CountsOf(s), x) == CountsOf(s + [x])
  {
    CountsOfAppend(CountsOf(s), s, [x], Record(CountsOf(s), x));
  }

  lemma HeavySetStep(m: Counts, hitters: set<int>, x: int, t: int)
    requires hitters == HeavySet(m, t)
    ensures (if Get(Record(m, x), x) >= t then hitters + {x} else hitters) == HeavySet(Record(m, x), t)
  {
  }

  /** A higher threshold flags a subset of the values. */
  lemma GreedyHittersAntitone(data: seq<int>, t1: int, t2: int)
    requires t1 <= t2
    ensures NewGreedy(data, t2).hitters <= NewGreedy(data, t1).hitters
  {
  }

  // -----------------------------------------------------------------------
  // DivideAndConquerAnalyzer / DecreaseAndConquerAnalyzer: batches, and the
  // heavy hitters as a list that gets an entry per qualifying occurrence.

  datatype BatchAnalyzer = BatchAnalyzer(counts: Counts, estimate: Option<int>, hitters: seq<int>)

  const FreshBatch := BatchAnalyzer(map[], None, [])

  /** One iteration of `process_batch`'s (or `process_sample`'s) loop. */
  function BatchItem(a: BatchAnalyzer, x: int, t: int): (r: BatchAnalyzer)
    ensures Get(r.counts, x) == Get(a.counts, x) + 1
    ensures forall v :: v != x ==> Get(r.counts, v) == Get(a.counts, v)
    ensures r.hitters == a.hitters || r.hitters == a.hitters + [x]
    ensures |r.hitters| == |a.hitters| + 1 <==> Get(r.counts, x) >= t
  {
    var c := Record(a.counts, x);
    BatchAnalyzer(c, Promote(a.estimate, c, x), if Get(c, x) >= t then a.hitters + [x] else a.hitters)
  }

  function BatchStep(t: int): (BatchAnalyzer, int) -> BatchAnalyzer {
    (a: BatchAnalyzer, x: int) => BatchItem(a, x, t)
  }

  /** `process_batch(data_batch)`; also `process_sample(sample)`. From any
      state, the batch is recorded into the counts and the list is extended
      by the running report log, counts continuing from the existing table. */
  function ProcessBatch(a: BatchAnalyzer, batch: seq<int>, t: int): (r: BatchAnalyzer)
    ensures r.counts == CountAll(a.counts, batch)
    ensures r.hitters == a.hitters + HitLog(a.counts, batch, t)
  {
    BatchStreamLog(a, batch, t);
    FoldL(BatchStep(t), a, batch)
  }

  lemma {:induction false} BatchStreamLog(a: BatchAnalyzer, s: seq<int>, t: int)
    ensures FoldL(BatchStep(t), a, s).counts == CountAll(a.counts, s)
    ensures FoldL(BatchStep(t), a, s).hitters == a.hitters + HitLog(a.counts, s, t)
    decreases |s|
  {
    if s != [] {
      var front := s[..|s| - 1];
      var x := s[|s| - 1];
      BatchStreamLog(a, front, t);
      assert FoldL(BatchStep(t), a, s) == BatchItem(FoldL(BatchStep(t), a, front), x, t);
      CountAllSnoc(a.counts, s);
      HitLogSnoc(a.counts, s, t);
    }
  }

  /** `get_heavy_hitters()`: `list(set(self.heavy_hitters))`, each value of
      the internal list once. Python leaves the order unspecified; here it is
      first occurrence. */
  function HeavyHitters(a: BatchAnalyzer): (r: seq<int>)
    ensures forall v :: v in r <==> v in a.hitters
    ensures forall i, j :: 0 <= i < j < |r| ==> r[i] != r[j]
  {
    Distinct(a.hitters)
  }

  /** The driver loop over `stream[i:i + size]` for `i in range(0, len, size)`. */
  function RunBatches(stream: seq<int>, size: int, t: int): (r: Result<BatchAnalyzer>)
    ensures r.Err? <==> size == 0
    ensures r.Err? ==> r.error == ValueError
    ensures size < 0 ==> r == Ok(FreshBatch)
  {
    match SliceStream(stream, size)
    case Err(e) => Err(e)
    case Ok(bs) => Ok(BatchFold(BatchStep(t), FreshBatch, bs))
  }

  /** Item by item from fresh, the batch analyzer keeps the same counts and
      the same mode field as `GreedyAnalyzer`, and its list is the running
      heavy-hitter log. */
  lemma BatchRun(s: seq<int>, t: int)
    ensures ProcessBatch(FreshBatch, s, t).counts == CountsOf(s)
    ensures ProcessBatch(FreshBatch, s, t).estimate == NewGreedy(s, t).estimate
    ensures ProcessBatch(FreshBatch, s, t).hitters == HitLog(map[], s, t)
  {
    BatchMatchesGreedy(s, t);
    assert FreshBatch.hitters + HitLog(map[], s, t) == HitLog(map[], s, t);
  }

  lemma {:induction false} BatchMatchesGreedy(s: seq<int>, t: int)
    ensures ProcessBatch(FreshBatch, s, t).counts == NewGreedy(s, t).counts
    ensures ProcessBatch(FreshBatch, s, t).estimate == NewGreedy(s, t).estimate
    decreases |s|
  {
    if s != [] {
      var front := s[..|s| - 1];
      var x := s[|s| - 1];
      BatchMatchesGreedy(front, t);
      assert ProcessBatch(FreshBatch, s, t) == BatchItem(ProcessBatch(FreshBatch, front, t), x, t);
      assert NewGreedy(s, t) == GreedyItem(NewGreedy(front, t), x, t);
    }
  }

  /** The internal list holds a value once per occurrence whose running
      count is at or above the threshold; `get_heavy_hitters` removes the
      repeats and gives the greedy analyzer's set. */
  lemma BatchHitters(s: seq<int>, t: int)
    ensures forall v :: multiset(ProcessBatch(FreshBatch, s, t).hitters)[v] == Reports(multiset(s)[v], t)
    ensures forall v :: v in HeavyHitters(ProcessBatch(FreshBatch, s, t)) <==> v in NewGreedy(s, t).hitters
  {
    BatchRun(s, t);
    FreshHitLogCounts(s, t);
    FreshHitLogValues(s, t);
  }

  /** Whatever positive batch size the driver uses, the batch analyzer ends
      with the greedy analyzer's counts, mode and heavy-hitter set. */
  lemma BatchesMatchGreedy(s: seq<int>, size: int, t: int)
    requires size > 0
    ensures RunBatches(s, size, t).Ok?
    ensures RunBatches(s, size, t).value.counts == NewGreedy(s, t).counts
    ensures RunBatches(s, size, t).value.estimate == NewGreedy(s, t).estimate
    ensures forall v :: v in HeavyHitters(RunBatches(s, size, t).value) <==> v in NewGreedy(s, t).hitters
  {
    var bs := Slices(s, size);
    FoldFlatten(BatchStep(t), FreshBatch, bs);
    assert RunBatches(s, size, t).value == ProcessBatch(FreshBatch, s, t);
    BatchRun(s, t);
    BatchHitters(s, t);
  }
}
