/** Optional values and results, shared by every module of the model. */
module Wrappers {

  datatype Option<+T> = None | Some(value: T)

  /** A thrown exception becomes `Err`; a returned value becomes `Ok`. */
  datatype Result<+T, +E> = Ok(value: T) | Err(error: E)

  /** The results of a list, computed front to back: the first error stops it. */
  function Cons<T, E>(first: Result<T, E>, rest: Result<seq<T>, E>): Result<seq<T>, E> {
    if first.Err? then Err(first.error) else if rest.Err? then Err(rest.error) else Ok([first.value] + rest.value)
  }

  /** A list of which the front is computed already. */
  function Prepend<T, E>(done: seq<T>, rest: Result<seq<T>, E>): Result<seq<T>, E> {
    match rest
    case Err(e) => Err(e)
    case Ok(parts) => Ok(done + parts)
  }

  lemma PrependStep<T, E>(done: seq<T>, first: Result<T, E>, rest: Result<seq<T>, E>)
    ensures first.Ok? ==> Prepend(done, Cons(first, rest)) == Prepend(done + [first.value], rest)
    ensures first.Err? ==> Prepend(done, Cons(first, rest)) == Err(first.error)
  {
    if first.Ok? && rest.Ok? {
      assert done + ([first.value] + rest.value) == done + [first.value] + rest.value;
    }
  }

  lemma PrependNothing<T, E>(done: seq<T>, rest: Result<seq<T>, E>)
    ensures Prepend([], rest) == rest && Prepend<T, E>(done, Ok([])) == Ok(done)
  {
    assert done + [] == done;
    if rest.Ok? { assert [] + rest.value == rest.value; }
  }
}
