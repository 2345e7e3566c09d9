/** The optional value used wherever the game stores `null` or an absent key. */
module Wrappers {

  datatype Option<+T> = None | Some(value: T)

  /** The elements of an optional value, as a sequence of length 0 or 1. */
  function ToSeq<T>(o: Option<T>): seq<T>
  {
    if o.Some? then [o.value] else []
  }
}
