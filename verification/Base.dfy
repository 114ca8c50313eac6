/** Failure-carrying values shared by every component model. */
module Base {
  datatype Option<+T> = None | Some(value: T)

  /** The result of an operation that may be refused; the reason text is not modelled. */
  datatype Result<+T> = Ok(value: T) | Err

  /** Two different byte strings with the same digest. */
  ghost predicate Collision(hash: string -> string, a: string, b: string)
  {
    a != b && hash(a) == hash(b)
  }
}
