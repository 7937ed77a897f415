/** Option and Result: the values Python returns as `None` or raises as an exception. */
module Wrappers {

  datatype Option<+T> = None | Some(value: T) {
    function GetOr(default: T): T {
      match this
      case Some(v) => v
      case None => default
    }
  }

  /** The list a loop builds when it appends the value, if any. */
  function AsSeq<T>(o: Option<T>): seq<T> {
    match o
    case Some(v) => [v]
    case None => []
  }

  /** The values of the outcomes that are present, in order. */
  function Somes<T>(xs: seq<Option<T>>): seq<T> {
    if xs == [] then [] else Somes(xs[..|xs| - 1]) + AsSeq(xs[|xs| - 1])
  }

  lemma SomesSnoc<T>(xs: seq<Option<T>>, x: Option<T>)
    ensures Somes(xs + [x]) == Somes(xs) + AsSeq(x)
  {
    assert (xs + [x])[..|xs|] == xs;
  }

  /** An HTTP-style outcome: a value, or the status code the route raises. */
  datatype Result<+T> = Ok(value: T) | Err(status: int)
}
