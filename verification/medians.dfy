/** Per-batch medians, shared by the divide-and-conquer and the
    decrease-and-conquer scripts: each non-empty batch (or sample)
    contributes `sorted(batch)[len(batch) // 2]`. */
module Medians {
  import opened Outcomes
  import opened Ordering

  predicate NoEmptyBatch(bs: seq<seq<int>>) {
    forall i :: 0 <= i < |bs| ==> |bs[i]| > 0
  }

  lemma NoEmptyBatchSnoc(bs: seq<seq<int>>)
    requires bs != []
    ensures NoEmptyBatch(bs) <==> NoEmptyBatch(bs[..|bs| - 1]) && |bs[|bs| - 1]| > 0
  {
    var front := bs[..|bs| - 1];
    assert forall i :: 0 <= i < |front| ==> front[i] == bs[i];
  }

  /** Each batch's median, batch by batch. */
  function BatchMedians(bs: seq<seq<int>>): (r: seq<int>)
    requires NoEmptyBatch(bs)
    ensures |r| == |bs|
    decreases |bs|
  {
    if bs == [] then []
    else
      var b := bs[|bs| - 1];
      NoEmptyBatchSnoc(bs);
      BatchMedians(bs[..|bs| - 1]) + [MedianOf(b)]
  }

  /** `sorted(batch)[len(batch) // 2]` for a non-empty batch: the batch's
      value of rank `len // 2`. */
  function MedianOf(b: seq<int>): (r: int)
    requires b != []
    ensures r in b
    ensures HasRank(b, r, |b| / 2)
  {
    OrderStatistic(b, |b| / 2, Sort(b)[|b| / 2]);
    assert Sort(b)[|b| / 2] in multiset(Sort(b));
    Sort(b)[|b| / 2]
  }

  /** Reading the middle of the sorted batch is `MedianOf`. */
  lemma MedianIsMiddle(b: seq<int>)
    requires b != []
    ensures MiddleOf(multiset(b)) == Ok(MedianOf(b))
  {
  }

  /** Entry `i` is the median of batch `i`: its value of rank `len // 2`. */
  lemma {:induction false} BatchMediansRank(bs: seq<seq<int>>, i: int)
    requires NoEmptyBatch(bs)
    requires 0 <= i < |bs|
    ensures HasRank(bs[i], BatchMedians(bs)[i], |bs[i]| / 2)
    decreases |bs|
  {
    BatchMedianAt(bs, i);
  }

  lemma {:induction false} BatchMedianAt(bs: seq<seq<int>>, i: int)
    requires NoEmptyBatch(bs)
    requires 0 <= i < |bs|
    ensures |bs[i]| > 0 && BatchMedians(bs)[i] == MedianOf(bs[i])
    decreases |bs|
  {
    NoEmptyBatchSnoc(bs);
    if i < |bs| - 1 {
      BatchMediansPrefix(bs, i);
      BatchMedianAt(bs[..|bs| - 1], i);
    } else {
      BatchMediansLast(bs);
    }
  }

  lemma BatchMediansPrefix(bs: seq<seq<int>>, i: int)
    requires NoEmptyBatch(bs)
    requires 0 <= i < |bs| - 1
    ensures NoEmptyBatch(bs[..|bs| - 1])
    ensures bs[..|bs| - 1][i] == bs[i]
    ensures BatchMedians(bs)[i] == BatchMedians(bs[..|bs| - 1])[i]
  {
    NoEmptyBatchSnoc(bs);
  }

  lemma BatchMediansLast(bs: seq<seq<int>>)
    requires NoEmptyBatch(bs) && bs != []
    ensures |bs[|bs| - 1]| > 0
    ensures BatchMedians(bs)[|bs| - 1] == MedianOf(bs[|bs| - 1])
  {
    NoEmptyBatchSnoc(bs);
  }
}
