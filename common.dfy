/** Failure-carrying wrappers shared by every module of the planner model. */
module Common {

  /** A value that may be absent (JavaScript `undefined` or `null`). */
  datatype Option<+T> = None | Some(value: T)

  /** The outcome of an operation that can throw: a value, or the error it threw. */
  datatype Result<+T, +E> = Ok(value: T) | Err(error: E)

  /** The first `n` elements of `s`, or all of `s` when it is shorter (`Array.prototype.slice(0, n)`). */
  function Take<T>(s: seq<T>, n: nat): (r: seq<T>)
    ensures |r| == if |s| < n then |s| else n
    ensures r == s[..|r|]
  {
    if |s| <= n then s else s[..n]
  }
}
