/** The frequency table every analyzer keeps: `frequency_counts`, a dict (or
    `defaultdict(int)`) from observed value to occurrence count. The
    reference meaning of a count is `multiset(s)[v]`, the number of times
    `v` occurs in `s`. */
module FreqTable {

  type Counts = map<int, nat>

  /** `defaultdict(int)` lookup: an absent key reads as 0. */
  function Get(m: Counts, v: int): nat {
    if v in m then m[v] else 0
  }

  /** The values that occur in `s`. */
  function Seen(s: seq<int>): set<int> {
    set x | x in s
  }

  /** The keys of a dict filled from `s`, in Python's dict order: first
      occurrence. Each value of `s` appears once. */
  function Distinct(s: seq<int>): (r: seq<int>)
    ensures forall v :: v in r <==> v in s
    ensures forall i, j :: 0 <= i < j < |r| ==> r[i] != r[j]
    decreases |s|
  {
    if s == [] then []
    else
      var d := Distinct(s[..|s| - 1]);
      var x := s[|s| - 1];
      assert s == s[..|s| - 1] + [x];
      if x in d then d else d + [x]
  }

  /** `frequency_counts[item] += 1` (or the `if … in … else … = 1` form). */
  function Record(m: Counts, v: int): (r: Counts)
    ensures Get(r, v) == Get(m, v) + 1
    ensures forall w :: w != v ==> Get(r, w) == Get(m, w)
    ensures r.Keys == m.Keys + {v}
  {
    m[v := Get(m, v) + 1]
  }

  /** Recording every item of `s`, in order, into `m`. */
  function CountAll(m: Counts, s: seq<int>): (r: Counts)
    ensures forall v :: Get(r, v) == Get(m, v) + multiset(s)[v]
    ensures r.Keys == m.Keys + Seen(s)
    decreases |s|
  {
    if s == [] then m
    else
      var front := s[..|s| - 1];
      assert s == front + [s[|s| - 1]];
      Record(CountAll(m, front), s[|s| - 1])
  }

  /** Recording the last item comes last. */
  lemma CountAllSnoc(m: Counts, s: seq<int>)
    requires s != []
    ensures CountAll(m, s) == Record(CountAll(m, s[..|s| - 1]), s[|s| - 1])
  {
  }

  /** A fresh table filled from `s`: DivConq.py's per-batch `batch_counts`. */
  function CountsOf(s: seq<int>): (r: Counts)
    ensures forall v :: Get(r, v) == multiset(s)[v]
    ensures r.Keys == Seen(s)
  {
    CountAll(map[], s)
  }

  /** Summing counts key by key: DivConq.py's
      `for item, count in batch_counts.items(): frequency_counts[item] += count`. */
  function MergeSum(a: Counts, b: Counts): (r: Counts)
    ensures r.Keys == a.Keys + b.Keys
  {
    map k | k in a.Keys + b.Keys :: Get(a, k) + Get(b, k)
  }

  /** `for item, count in c.items(): m[item] += count`, the items taken in
      the order `keys`. Only the keys visited are touched, and each becomes
      a key of the result. */
  function AddCounts(m: Counts, keys: seq<int>, c: Counts): (r: Counts)
    ensures r.Keys == m.Keys + Seen(keys)
    ensures forall v :: v !in keys ==> Get(r, v) == Get(m, v)
    decreases |keys|
  {
    if keys == [] then m
    else
      var front := keys[..|keys| - 1];
      var k := keys[|keys| - 1];
      assert keys == front + [k];
      var r0 := AddCounts(m, front, c);
      r0[k := Get(r0, k) + Get(c, k)]
  }

  /** Two tables with the same keys and the same counts are the same table. */
  lemma Extensional(a: Counts, b: Counts)
    requires a.Keys == b.Keys
    requires forall k :: Get(a, k) == Get(b, k)
    ensures a == b
  {
    forall k | k in a.Keys
      ensures a[k] == b[k]
    {
      assert Get(a, k) == Get(b, k);
    }
  }

  /** Merging by summation adds the counts of every key. */
  lemma MergeSumCounts(a: Counts, b: Counts)
    ensures forall k :: Get(MergeSum(a, b), k) == Get(a, k) + Get(b, k)
  {
  }

  /** Over a repeat-free list of keys, each visited key's count grows by its
      count in `c`, and no other count changes. */
  lemma {:induction false} AddCountsGet(m: Counts, keys: seq<int>, c: Counts)
    requires forall i, j :: 0 <= i < j < |keys| ==> keys[i] != keys[j]
    ensures forall v :: Get(AddCounts(m, keys, c), v) == Get(m, v) + (if v in keys then Get(c, v) else 0)
    decreases |keys|
  {
    if keys != [] {
      var front := keys[..|keys| - 1];
      var k := keys[|keys| - 1];
      assert keys == front + [k];
      assert k !in front by {
        forall i | 0 <= i < |front|
          ensures front[i] != k
        {
          assert front[i] == keys[i];
        }
      }
      AddCountsGet(m, front, c);
    }
  }

  /** Visiting every key of `c` once and adding its count is the merge by
      summation: the loop over `batch_counts.items()` does exactly that. */
  lemma AddCountsIsMerge(m: Counts, keys: seq<int>, c: Counts)
    requires forall i, j :: 0 <= i < j < |keys| ==> keys[i] != keys[j]
    requires forall v :: v in keys <==> v in c
    ensures AddCounts(m, keys, c) == MergeSum(m, c)
  {
    AddCountsGet(m, keys, c);
    MergeSumCounts(m, c);
    assert Seen(keys) == c.Keys by {
      forall v
        ensures v in Seen(keys) <==> v in c.Keys
      {
        assert v in Seen(keys) <==> v in keys;
      }
    }
    Extensional(AddCounts(m, keys, c), MergeSum(m, c));
  }

  /** Merge order does not matter. */
  lemma MergeCommutative(a: Counts, b: Counts)
    ensures MergeSum(a, b) == MergeSum(b, a)
  {
    MergeSumCounts(a, b);
    MergeSumCounts(b, a);
    Extensional(MergeSum(a, b), MergeSum(b, a));
  }

  /** Merge grouping does not matter. */
  lemma MergeAssociative(a: Counts, b: Counts, c: Counts)
    ensures MergeSum(MergeSum(a, b), c) == MergeSum(a, MergeSum(b, c))
  {
    MergeSumCounts(a, b);
    MergeSumCounts(b, c);
    MergeSumCounts(MergeSum(a, b), c);
    MergeSumCounts(a, MergeSum(b, c));
    Extensional(MergeSum(MergeSum(a, b), c), MergeSum(a, MergeSum(b, c)));
  }

  /** Merging a batch's own table into the running table is the same as
      recording the batch's items one by one. */
  lemma MergeIsRecording(m: Counts, batch: seq<int>)
    ensures MergeSum(m, CountsOf(batch)) == CountAll(m, batch)
  {
    MergeSumCounts(m, CountsOf(batch));
    Extensional(MergeSum(m, CountsOf(batch)), CountAll(m, batch));
  }

  /** A table that adds the counts of `b` to the counts of `front` is the
      table of `front + b`: counting in pieces counts the whole. */
  lemma CountsOfAppend(c0: Counts, front: seq<int>, b: seq<int>, c1: Counts)
    requires c0 == CountsOf(front)
    requires forall v :: Get(c1, v) == Get(c0, v) + multiset(b)[v]
    requires c1.Keys == c0.Keys + Seen(b)
    ensures c1 == CountsOf(front + b)
  {
    assert multiset(front + b) == multiset(front) + multiset(b);
    assert Seen(front + b) == Seen(front) + Seen(b);
    Extensional(c1, CountsOf(front + b));
  }

  /** The table depends only on how many times each value occurs, not on the
      order of the items. */
  lemma OrderIrrelevant(m: Counts, a: seq<int>, b: seq<int>)
    requires multiset(a) == multiset(b)
    ensures CountAll(m, a) == CountAll(m, b)
  {
    assert Seen(a) == Seen(b) by {
      forall x
        ensures x in a <==> x in b
      {
        assert x in a <==> x in multiset(a);
        assert x in b <==> x in multiset(b);
      }
    }
    Extensional(CountAll(m, a), CountAll(m, b));
  }
}
