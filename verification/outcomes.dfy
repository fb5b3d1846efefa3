/** The failure vocabulary of the analytics kernel: Python's `None`, the two
    exceptions the analyzers can raise, and Python's list indexing. */
module Outcomes {

  datatype Option<+T> = None | Some(value: T)

  /** `IndexError` comes from reading `sorted(...)[i]` out of range;
      `ValueError` from `range(0, n, 0)`. */
  datatype Error = IndexError | ValueError

  datatype Result<+T> = Ok(value: T) | Err(error: Error)

  /** Python's `s[i]`: a negative index counts from the end, anything else
      outside the list raises `IndexError`. */
  function At(s: seq<int>, i: int): (r: Result<int>)
    ensures r.Ok? <==> -|s| <= i < |s|
    ensures r.Ok? ==> r.value in s
    ensures r.Err? ==> r.error == IndexError
  {
    if 0 <= i < |s| then Ok(s[i])
    else if -|s| <= i < 0 then Ok(s[|s| + i])
    else Err(IndexError)
  }
}
