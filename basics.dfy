/** Small shared definitions. */
module Basics {

  /** A value that may be absent: a search that found nothing, a parse that
      was rejected. */
  datatype Option<T> = None | Some(value: T)

  /** Concatenation of sequences is associative. */
  lemma ConcatAssoc<T>(x: seq<T>, y: seq<T>, z: seq<T>)
    ensures x + (y + z) == (x + y) + z
  {
  }
}
