/** Python's `sorted(...)` and `list.sort()` over the values a buffer holds,
    and what the element at a given index of the sorted view means: an
    order statistic, characterised by rank. A `heapq` list is read only
    through `sorted`, so its contents matter only as a multiset. */
module Ordering {
  import opened Outcomes

  predicate Sorted(s: seq<int>) {
    forall i, j :: 0 <= i < j < |s| ==> s[i] <= s[j]
  }

  predicate IsMin(x: int, m: multiset<int>) {
    x in m && forall y :: y in m ==> x <= y
  }

  lemma {:induction false} MinExists(m: multiset<int>)
    requires m != multiset{}
    ensures exists x :: IsMin(x, m)
    decreases |m|
  {
    if forall v :: v !in m {
      assert false;
    }
    var y :| y in m;
    var rest := m - multiset{y};
    assert m == rest + multiset{y};
    if rest == multiset{} {
      forall w | w in m
        ensures y <= w
      {
        assert w in rest || w == y;
      }
      assert IsMin(y, m);
    } else {
      MinExists(rest);
      var z :| IsMin(z, rest);
      var least := if y <= z then y else z;
      forall w | w in m
        ensures least <= w
      {
        assert w in rest || w == y;
      }
      assert IsMin(least, m);
    }
  }

  /** The smallest value held: what `heapq.heappop` removes. */
  function MinOf(m: multiset<int>): (x: int)
    requires m != multiset{}
    ensures IsMin(x, m)
  {
    MinExists(m);
    var x :| x in m && IsMin(x, m);
    x
  }

  /** The values of `m` in ascending order: `sorted(buffer)`. */
  function SortedOf(m: multiset<int>): (r: seq<int>)
    ensures Sorted(r)
    ensures multiset(r) == m
    ensures |r| == |m|
    decreases |m|
  {
    if m == multiset{} then []
    else
      var x := MinOf(m);
      var tail := SortedOf(m - multiset{x});
      ConsMin(x, m, tail);
      [x] + tail
  }

  /** The least value put in front of a sorted arrangement of the rest is a
      sorted arrangement of the whole. */
  lemma ConsMin(x: int, m: multiset<int>, tail: seq<int>)
    requires IsMin(x, m)
    requires Sorted(tail) && multiset(tail) == m - multiset{x}
    ensures Sorted([x] + tail)
    ensures multiset([x] + tail) == m
    ensures |[x] + tail| == |m|
  {
    AllAbove(x, m, tail);
    assert m == (m - multiset{x}) + multiset{x};
    assert multiset([x] + tail) == multiset{x} + multiset(tail);
  }

  lemma AllAbove(x: int, m: multiset<int>, tail: seq<int>)
    requires IsMin(x, m)
    requires multiset(tail) == m - multiset{x}
    ensures forall j :: 0 <= j < |tail| ==> x <= tail[j]
  {
    forall j | 0 <= j < |tail|
      ensures x <= tail[j]
    {
      assert tail[j] in multiset(tail);
      assert tail[j] in m;
    }
  }

  /** `sorted(s)` for a list `s`. */
  function Sort(s: seq<int>): (r: seq<int>)
    ensures Sorted(r) && multiset(r) == multiset(s) && |r| == |s|
  {
    SortedOf(multiset(s))
  }

  /** A sorted arrangement of a multiset is unique: whatever sort routine
      produced it (`sorted`, `list.sort`, heap order then `sorted`), the
      result is `SortedOf` of its contents. */
  lemma {:induction false} SortedUnique(a: seq<int>, b: seq<int>)
    requires Sorted(a) && Sorted(b)
    requires multiset(a) == multiset(b)
    ensures a == b
    decreases |a|
  {
    assert |a| == |multiset(a)| == |multiset(b)| == |b|;
    if a != [] {
      HeadIsMin(a);
      HeadIsMin(b);
      assert a[0] == b[0];
      assert a == [a[0]] + a[1..];
      assert b == [b[0]] + b[1..];
      assert multiset(a[1..]) == multiset(a) - multiset{a[0]};
      assert multiset(b[1..]) == multiset(b) - multiset{b[0]};
      SortedUnique(a[1..], b[1..]);
    }
  }

  /** The head of a sorted sequence is its least value. */
  lemma HeadIsMin(a: seq<int>)
    requires Sorted(a) && a != []
    ensures IsMin(a[0], multiset(a))
  {
    forall y | y in multiset(a)
      ensures a[0] <= y
    {
      assert y in a;
    }
  }

  lemma SortedOfUnique(m: multiset<int>, s: seq<int>)
    requires Sorted(s) && multiset(s) == m
    ensures SortedOf(m) == s
  {
    SortedUnique(SortedOf(m), s);
  }

  // ---------------------------------------------------------------------
  // Counting items by a property, and rank.

  function CountIf(s: seq<int>, p: int -> bool): (c: nat)
    ensures c <= |s|
    decreases |s|
  {
    if s == [] then 0 else (if p(s[0]) then 1 else 0) + CountIf(s[1..], p)
  }

  lemma {:induction false} CountIfConcat(a: seq<int>, b: seq<int>, p: int -> bool)
    ensures CountIf(a + b, p) == CountIf(a, p) + CountIf(b, p)
    decreases |a|
  {
    if a == [] {
      assert a + b == b;
    } else {
      assert (a + b)[1..] == a[1..] + b;
      CountIfConcat(a[1..], b, p);
    }
  }

  /** Counting ignores order. */
  lemma {:induction false} CountIfPermutation(a: seq<int>, b: seq<int>, p: int -> bool)
    requires multiset(a) == multiset(b)
    ensures CountIf(a, p) == CountIf(b, p)
    decreases |a|
  {
    assert |a| == |multiset(a)| == |multiset(b)| == |b|;
    if a != [] {
      assert a[0] in multiset(b);
      var j :| 0 <= j < |b| && b[j] == a[0];
      var rest := b[..j] + b[j + 1..];
      CountIfRemove(b, j, p);
      MultisetRemove(b, j);
      assert a == [a[0]] + a[1..];
      assert multiset(a[1..]) == multiset(a) - multiset{a[0]};
      CountIfPermutation(a[1..], rest, p);
    }
  }

  /** Taking item `j` out of `b` takes it out of the count. */
  lemma CountIfRemove(b: seq<int>, j: int, p: int -> bool)
    requires 0 <= j < |b|
    ensures CountIf(b, p) == CountIf(b[..j] + b[j + 1..], p) + (if p(b[j]) then 1 else 0)
  {
    var pre, x, post := b[..j], b[j], b[j + 1..];
    assert b == pre + ([x] + post);
    CountIfConcat(pre, [x] + post, p);
    CountIfConcat([x], post, p);
    CountIfConcat(pre, post, p);
    CountIfSingle(x, p);
  }

  lemma CountIfSingle(x: int, p: int -> bool)
    ensures CountIf([x], p) == if p(x) then 1 else 0
  {
    assert [x][1..] == [];
  }

  lemma MultisetRemove(b: seq<int>, j: int)
    requires 0 <= j < |b|
    ensures multiset(b[..j] + b[j + 1..]) == multiset(b) - multiset{b[j]}
  {
    var pre, post := b[..j], b[j + 1..];
    assert b == pre + [b[j]] + post;
    assert multiset(b) == multiset(pre) + multiset{b[j]} + multiset(post);
  }

  lemma {:induction false} CountIfMono(s: seq<int>, p: int -> bool, q: int -> bool)
    requires forall i :: 0 <= i < |s| && p(s[i]) ==> q(s[i])
    ensures CountIf(s, p) <= CountIf(s, q)
    decreases |s|
  {
    if s != [] {
      assert forall i :: 0 <= i < |s[1..]| ==> s[1..][i] == s[i + 1];
      CountIfMono(s[1..], p, q);
    }
  }

  lemma {:induction false} CountIfAll(s: seq<int>, p: int -> bool)
    requires forall i :: 0 <= i < |s| ==> p(s[i])
    ensures CountIf(s, p) == |s|
    decreases |s|
  {
    if s != [] {
      assert forall i :: 0 <= i < |s[1..]| ==> s[1..][i] == s[i + 1];
      CountIfAll(s[1..], p);
    }
  }

  lemma {:induction false} CountIfNone(s: seq<int>, p: int -> bool)
    requires forall i :: 0 <= i < |s| ==> !p(s[i])
    ensures CountIf(s, p) == 0
    decreases |s|
  {
    if s != [] {
      assert forall i :: 0 <= i < |s[1..]| ==> s[1..][i] == s[i + 1];
      CountIfNone(s[1..], p);
    }
  }

  /** How many items of `s` are strictly smaller than `r`. */
  function CountBelow(s: seq<int>, r: int): nat {
    CountIf(s, x => x < r)
  }

  /** How many items of `s` are at most `r`. */
  function CountAtMost(s: seq<int>, r: int): nat {
    CountIf(s, x => x <= r)
  }

  /** `r` is the value at index `k` of any sorted arrangement of `s`: at most
      `k` items lie below it and more than `k` lie at or below it. */
  ghost predicate HasRank(s: seq<int>, r: int, k: int) {
    CountBelow(s, r) <= k < CountAtMost(s, r)
  }

  /** In a sorted list the element at index `k` has rank `k`. */
  lemma SortedIndexRank(t: seq<int>, k: int)
    requires Sorted(t) && 0 <= k < |t|
    ensures HasRank(t, t[k], k)
  {
    var r := t[k];
    assert t == t[..k] + t[k..];
    CountIfConcat(t[..k], t[k..], x => x < r);
    CountIfNone(t[k..], x => x < r);
    assert t == t[..k + 1] + t[k + 1..];
    CountIfConcat(t[..k + 1], t[k + 1..], x => x <= r);
    CountIfAll(t[..k + 1], x => x <= r);
  }

  /** The order statistic: `sorted(s)[k]` is exactly the value of rank `k`
      in `s`, in both directions. */
  lemma OrderStatistic(s: seq<int>, k: int, r: int)
    requires 0 <= k < |s|
    ensures r == Sort(s)[k] <==> HasRank(s, r, k)
  {
    var t := Sort(s);
    SortedIndexRank(t, k);
    CountIfPermutation(s, t, x => x < t[k]);
    CountIfPermutation(s, t, x => x <= t[k]);
    if HasRank(s, r, k) && r != t[k] {
      if r < t[k] {
        CountIfMono(s, x => x <= r, x => x < t[k]);
      } else {
        CountIfMono(s, x => x <= t[k], x => x < r);
      }
    }
  }

  /** `sorted(buffer)[len(buffer) // 2]`, the middle-index read every
      "median" query performs; an empty buffer raises `IndexError`. */
  function MiddleOf(m: multiset<int>): (r: Result<int>)
    ensures r.Ok? <==> m != multiset{}
    ensures r.Err? ==> r.error == IndexError
    ensures r.Ok? ==> r.value in m
  {
    var t := SortedOf(m);
    At(t, |t| / 2)
  }

  /** The middle read over the items of a stream is the value of rank
      `len // 2` among them. */
  lemma MiddleRank(s: seq<int>)
    ensures s == [] ==> MiddleOf(multiset(s)) == Err(IndexError)
    ensures s != [] ==> MiddleOf(multiset(s)).Ok?
                        && HasRank(s, MiddleOf(multiset(s)).value, |s| / 2)
  {
    if s != [] {
      OrderStatistic(s, |s| / 2, Sort(s)[|s| / 2]);
    }
  }
}
