/** The drivers' batching loop:
      for i in range(0, len(stream), size): analyzer.process_batch(stream[i:i + size])
    A slice that runs past the end is cut short, as Python slicing does. */
module Slicing {
  import opened Outcomes
  import opened Folding

  function Min(a: int, b: int): int {
    if a <= b then a else b
  }

  /** The slices for a positive step, front to back. */
  function Slices(s: seq<int>, size: int): (r: seq<seq<int>>)
    requires size > 0
    ensures Flatten(r) == s
    ensures forall i :: 0 <= i < |r| ==> 0 < |r[i]| <= size
    decreases |s|
  {
    if s == [] then []
    else if |s| <= size then [s]
    else [s[..size]] + Slices(s[size..], size)
  }

  lemma MulStep(i: int, size: int)
    ensures (i + 1) * size == i * size + size
  {
  }

  lemma MulNonNegative(i: int, size: int)
    requires i >= 0 && size >= 0
    ensures i * size >= 0
  {
  }

  lemma DropThenSlice(s: seq<int>, d: int, a: int, b: int)
    requires 0 <= d <= |s| && 0 <= a <= b <= |s| - d
    ensures s[d..][a..b] == s[a + d .. b + d]
  {
  }

  /** There is one slice per start index `0, size, 2 * size, …` below
      `len(stream)`. */
  lemma {:induction false} SliceCount(s: seq<int>, size: int)
    requires size > 0
    ensures |Slices(s, size)| * size >= |s| > (|Slices(s, size)| - 1) * size
    decreases |s|
  {
    if s != [] && |s| > size {
      SliceCount(s[size..], size);
      MulStep(|Slices(s[size..], size)|, size);
      MulStep(|Slices(s[size..], size)| - 1, size);
    }
  }

  /** Slice `i` is `stream[i * size : i * size + size]`. */
  lemma {:induction false} SliceWindow(s: seq<int>, size: int, i: int)
    requires size > 0 && 0 <= i < |Slices(s, size)|
    ensures i * size < |s|
    ensures Slices(s, size)[i] == s[i * size .. Min(i * size + size, |s|)]
    decreases |s|
  {
    if i == 0 {
      FirstSlice(s, size);
    } else {
      LaterSlice(s, size, i);
      SliceWindow(s[size..], size, i - 1);
      ShiftWindow(s, size, i);
    }
  }

  lemma FirstSlice(s: seq<int>, size: int)
    requires size > 0 && 0 < |Slices(s, size)|
    ensures 0 * size < |s|
    ensures Slices(s, size)[0] == s[0 * size .. Min(0 * size + size, |s|)]
  {
    assert 0 * size == 0;
  }

  lemma LaterSlice(s: seq<int>, size: int, i: int)
    requires size > 0 && 0 < i < |Slices(s, size)|
    ensures |s| > size && i - 1 < |Slices(s[size..], size)|
    ensures Slices(s, size)[i] == Slices(s[size..], size)[i - 1]
  {
  }

  /** Window `i - 1` of the stream after its first `size` items is window
      `i` of the stream. */
  lemma ShiftWindow(s: seq<int>, size: int, i: int)
    requires size > 0 && i > 0 && |s| > size
    requires (i - 1) * size < |s| - size
    ensures i * size < |s|
    ensures s[size..][(i - 1) * size .. Min((i - 1) * size + size, |s| - size)]
            == s[i * size .. Min(i * size + size, |s|)]
  {
    var k := (i - 1) * size;
    MulStep(i - 1, size);
    MulNonNegative(i - 1, size);
    DropThenSlice(s, size, k, Min(k + size, |s| - size));
  }

  /** The loop as a whole: a zero step raises `ValueError` (from `range`),
      a negative step yields no slices at all, a positive step yields the
      slices above. */
  function SliceStream(s: seq<int>, size: int): (r: Result<seq<seq<int>>>)
    ensures r.Err? <==> size == 0
    ensures r.Err? ==> r.error == ValueError
    ensures size < 0 ==> r == Ok([])
    ensures size > 0 ==> r.Ok? && Flatten(r.value) == s
    ensures r.Ok? ==> forall i :: 0 <= i < |r.value| ==> r.value[i] != []
  {
    if size == 0 then Err(ValueError)
    else if size < 0 then Ok([])
    else Ok(Slices(s, size))
  }

  /** A step at least as long as the stream gives the whole stream as one
      batch (the DivConq.py driver: 1000 items, step 10000). */
  lemma OneSliceWhenStepCoversStream(s: seq<int>, size: int)
    requires s != [] && size >= |s|
    ensures SliceStream(s, size) == Ok([s])
  {
  }
}
