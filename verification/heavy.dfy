/** Heavy-hitter detection: a threshold test on counts. Two shapes occur
    in the scripts: a final set of values whose count reaches the threshold,
    and a running log that records an item every time its running count,
    just incremented, is at or above the threshold (so values repeat). */
module Heavy {
  import opened FreqTable
  import opened Ordering

  function Max(a: int, b: int): int {
    if a >= b then a else b
  }

  /** The values whose count reaches `t`. */
  function HeavySet(m: Counts, t: int): (r: set<int>)
    ensures forall v :: v in r <==> v in m && m[v] >= t
  {
    set v | v in m.Keys && m[v] >= t
  }

  /** How many log entries a value gets while its running count climbs from
      0 to `c`: one for each count `k` in `1..c` with `k >= t`. */
  function Reports(c: nat, t: int): (r: nat)
    ensures r <= c
    ensures r > 0 <==> c >= 1 && c >= t
  {
    if c >= 1 && c >= t then c - Max(t, 1) + 1 else 0
  }

  /** One more occurrence adds a report exactly when the new count reaches
      the threshold: `Reports` is the running tally, step by step. */
  lemma ReportsStep(c: nat, t: int)
    ensures Reports(c + 1, t) == Reports(c, t) + (if c + 1 >= t then 1 else 0)
  {
  }

  /** The running log: starting from the counts `m`, record the items of `u`
      one by one, and log an item whenever its count, just incremented, is at
      or above `t`. */
  function HitLog(m: Counts, u: seq<int>, t: int): (r: seq<int>)
    ensures forall i :: 0 <= i < |r| ==> r[i] in u
    decreases |u|
  {
    if u == [] then []
    else
      var front := u[..|u| - 1];
      var x := u[|u| - 1];
      assert u == front + [x];
      HitLog(m, front, t) + (if Get(CountAll(m, u), x) >= t then [x] else [])
  }

  /** The log of one more item: the log so far, then the item if its
      count, just incremented, reaches `t`. */
  lemma HitLogSnoc(m: Counts, s: seq<int>, t: int)
    requires s != []
    ensures HitLog(m, s, t) == HitLog(m, s[..|s| - 1], t)
              + (if Get(CountAll(m, s), s[|s| - 1]) >= t then [s[|s| - 1]] else [])
  {
  }

  /** Each value appears in the log once per count it reached, from the
      threshold on. */
  lemma {:induction false} HitLogCounts(m: Counts, u: seq<int>, t: int)
    ensures forall v :: multiset(HitLog(m, u, t))[v]
                        == Reports(Get(m, v) + multiset(u)[v], t) - Reports(Get(m, v), t)
    decreases |u|
  {
    if u != [] {
      var front := u[..|u| - 1];
      HitLogCounts(m, front, t);
      assert u == front + [u[|u| - 1]];
      forall v
        ensures multiset(HitLog(m, u, t))[v]
                == Reports(Get(m, v) + multiset(u)[v], t) - Reports(Get(m, v), t)
      {
        HitLogCountStep(m, front, u[|u| - 1], t, v);
      }
    }
  }

  /** The count of `v` in the log, one item later. */
  lemma HitLogCountStep(m: Counts, front: seq<int>, x: int, t: int, v: int)
    requires multiset(HitLog(m, front, t))[v]
             == Reports(Get(m, v) + multiset(front)[v], t) - Reports(Get(m, v), t)
    ensures multiset(HitLog(m, front + [x], t))[v]
            == Reports(Get(m, v) + multiset(front + [x])[v], t) - Reports(Get(m, v), t)
  {
    var u := front + [x];
    assert u[..|u| - 1] == front;
    var c := Get(m, v) + multiset(front)[v];
    HitLogSnoc(m, u, t);
    var extra := if Get(CountAll(m, u), x) >= t then [x] else [];
    assert multiset(HitLog(m, u, t)) == multiset(HitLog(m, front, t)) + multiset(extra);
    if v == x {
      assert multiset(u)[v] == multiset(front)[v] + 1;
      assert Get(CountAll(m, u), x) == c + 1;
      ReportsStep(c, t);
    } else {
      assert multiset(u)[v] == multiset(front)[v];
      assert multiset(extra)[v] == 0;
    }
  }

  /** From empty counts a value appears `Reports(count, t)` times. */
  lemma FreshHitLogCounts(u: seq<int>, t: int)
    ensures forall v :: multiset(HitLog(map[], u, t))[v] == Reports(multiset(u)[v], t)
  {
    HitLogCounts(map[], u, t);
  }

  /** The log keeps the order of the items, so a sorted input gives sorted
      reports. */
  lemma {:induction false} HitLogSorted(m: Counts, u: seq<int>, t: int)
    requires Sorted(u)
    ensures Sorted(HitLog(m, u, t))
    decreases |u|
  {
    if u != [] {
      var front := u[..|u| - 1];
      var x := u[|u| - 1];
      HitLogSorted(m, front, t);
      var l := HitLog(m, front, t);
      forall i | 0 <= i < |l|
        ensures l[i] <= x
      {
        var j :| 0 <= j < |front| && front[j] == l[i];
      }
    }
  }

  /** The distinct values of the log are the values whose final count is at
      or above the threshold (`list(set(heavy_hitters))`). */
  lemma FreshHitLogValues(u: seq<int>, t: int)
    ensures (set x | x in HitLog(map[], u, t)) == HeavySet(CountsOf(u), t)
  {
    FreshHitLogCounts(u, t);
    var l := HitLog(map[], u, t);
    forall v
      ensures v in l <==> v in HeavySet(CountsOf(u), t)
    {
      assert v in l <==> multiset(l)[v] > 0;
      assert Get(CountsOf(u), v) == multiset(u)[v];
    }
  }
}
