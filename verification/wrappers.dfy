/** Option and Result, the two shapes the Rust code returns from fallible calls. */
module Wrappers {

  datatype Option<+T> = None | Some(value: T)

  /** Rust's `Result<T, E>`; the constructors are named Success and Failure so
      that they do not clash with the protocol's `Response.Ok`. */
  datatype Result<+T, +E> = Success(value: T) | Failure(error: E)

  /** `slice.get(i)`: the element at `i`, or None past the end. */
  function Nth<T>(s: seq<T>, i: nat): (r: Option<T>)
    ensures r.Some? <==> i < |s|
    ensures r.Some? ==> r.value == s[i]
  {
    if i < |s| then Some(s[i]) else None
  }
}
