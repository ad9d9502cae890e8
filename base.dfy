/** Failure-carrying wrappers shared by every stage of the pipeline. */
module Base {

  /** Python's `Optional[T]`: `None` or a value. */
  datatype Option<T> = None | Some(value: T)

  /** A raised exception (`Err`) or a normal return (`Ok`). */
  datatype Result<T, E> = Ok(value: T) | Err(error: E)

  /** Concatenation regroups freely. */
  lemma AppendAssoc<T>(a: seq<T>, b: seq<T>, c: seq<T>)
    ensures a + (b + c) == (a + b) + c
  {
  }
}
