/** Left folds over a stream and over a stream cut into batches. Every
    analyzer's `for item in batch:` loop is a `FoldL` of its per-item step,
    and every driver's `for batch in slices:` loop is a `FoldL` over the
    batches; the lemmas here say that cutting the stream does not matter. */
module Folding {

  /** The items of the stream in order, one step per item (the last item
      is applied last). */
  function FoldL<S>(f: (S, int) -> S, st: S, u: seq<int>): S
    decreases |u|
  {
    if u == [] then st else f(FoldL(f, st, u[..|u| - 1]), u[|u| - 1])
  }

  lemma SplitLast<T>(s: seq<T>)
    requires s != []
    ensures s == s[..|s| - 1] + [s[|s| - 1]]
  {
  }

  /** The batches glued back together: `a + b + ...`. */
  function Flatten(bs: seq<seq<int>>): (r: seq<int>)
    ensures bs == [] ==> r == []
    ensures |bs| == 1 ==> r == bs[0]
    decreases |bs|
  {
    if bs == [] then [] else bs[0] + Flatten(bs[1..])
  }

  lemma {:induction false} FlattenAppend(a: seq<seq<int>>, b: seq<seq<int>>)
    ensures Flatten(a + b) == Flatten(a) + Flatten(b)
    decreases |a|
  {
    if a == [] {
      assert a + b == b;
    } else {
      assert (a + b)[1..] == a[1..] + b;
      FlattenAppend(a[1..], b);
    }
  }

  /** Processing `a` and then `b` is processing `a + b`. */
  lemma {:induction false} FoldConcat<S>(f: (S, int) -> S, st: S, a: seq<int>, b: seq<int>)
    ensures FoldL(f, st, a + b) == FoldL(f, FoldL(f, st, a), b)
    decreases |b|
  {
    if b == [] {
      assert a + b == a;
    } else {
      var b' := b[..|b| - 1];
      assert (a + b)[..|a + b| - 1] == a + b';
      assert (a + b)[|a + b| - 1] == b[|b| - 1];
      FoldConcat(f, st, a, b');
    }
  }

  /** Feeding whole batches, one `FoldL` per batch, ends in the same state
      as feeding their concatenation item by item. */
  lemma {:induction false} FoldFlatten<S>(f: (S, int) -> S, st: S, bs: seq<seq<int>>)
    ensures FoldL(f, st, Flatten(bs)) == BatchFold(f, st, bs)
    decreases |bs|
  {
    if bs != [] {
      var front := bs[..|bs| - 1];
      var last := bs[|bs| - 1];
      assert bs == front + [last];
      FlattenAppend(front, [last]);
      FoldConcat(f, st, Flatten(front), last);
      FoldFlatten(f, st, front);
    }
  }

  /** One `FoldL` per batch, batches in order. */
  function BatchFold<S>(f: (S, int) -> S, st: S, bs: seq<seq<int>>): S
    decreases |bs|
  {
    if bs == [] then st else FoldL(f, BatchFold(f, st, bs[..|bs| - 1]), bs[|bs| - 1])
  }
}
