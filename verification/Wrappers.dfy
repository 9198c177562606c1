/** The two result shapes every module shares. */
module Wrappers {
  datatype Option<+T> = None | Some(value: T)

  datatype Result<+T, +E> = Ok(value: T) | Err(error: E)

  /** An element before a list that was read, unless reading failed. */
  function Cons<T, E>(x: T, r: Result<seq<T>, E>): Result<seq<T>, E> {
    match r case Err(e) => Err(e) case Ok(xs) => Ok([x] + xs)
  }

  /** A list already read before the rest, unless reading failed. */
  function Append<T, E>(done: seq<T>, r: Result<seq<T>, E>): Result<seq<T>, E> {
    match r case Err(e) => Err(e) case Ok(xs) => Ok(done + xs)
  }

  lemma AppendNothing<T, E>(r: Result<seq<T>, E>)
    ensures Append([], r) == r
  {
    if r.Ok? { assert [] + r.value == r.value; }
  }

  lemma AppendCons<T, E>(done: seq<T>, x: T, r: Result<seq<T>, E>)
    ensures Append(done, Cons(x, r)) == Append(done + [x], r)
  {
    if r.Ok? { assert done + ([x] + r.value) == done + [x] + r.value; }
  }
}
