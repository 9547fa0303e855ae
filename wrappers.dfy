/** Option and Result, the two failure-carrying datatypes used throughout the model. */
module Wrappers {

  datatype Option<+T> = None | Some(value: T)

  /** A computation that either produced a value or raised an error. */
  datatype Result<+T, +E> = Ok(value: T) | Err(error: E) {
    predicate IsFailure() {
      Err?
    }

    function PropagateFailure<U>(): Result<U, E>
      requires Err?
    {
      Err(error)
    }

    function Extract(): T
      requires Ok?
    {
      value
    }
  }

  /** A list built so far, followed by the outcome of building the rest; an error in the rest wins. */
  function Prepend<T, E>(done: seq<T>, tail: Result<seq<T>, E>): Result<seq<T>, E> {
    if tail.Ok? then Ok(done + tail.value) else tail
  }

  /** Nothing built so far leaves the outcome as it is. */
  lemma PrependNothing<T, E>(tail: Result<seq<T>, E>)
    ensures Prepend([], tail) == tail
  {
    if tail.Ok? {
      assert [] + tail.value == tail.value;
    }
  }

  /** Moving elements from the rest to the list built so far changes nothing. */
  lemma PrependConcat<T, E>(done: seq<T>, xs: seq<T>, tail: Result<seq<T>, E>)
    ensures Prepend(done, Prepend(xs, tail)) == Prepend(done + xs, tail)
  {
    if tail.Ok? {
      assert done + (xs + tail.value) == done + xs + tail.value;
    }
  }
}
