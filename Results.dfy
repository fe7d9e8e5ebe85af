/** Optional values and error-carrying results, used for the exceptions and
    null returns of the modelled code. */
module Results {

  datatype Option<+T> = None | Some(value: T)

  /** A computation's outcome: a value, or the text of the exception that
      interrupted it. */
  datatype Result<+T> = Ok(value: T) | Err(error: string)

  /** The first of two alternatives that succeeds, as an ordered regular
      expression alternation tries them. */
  function FirstSome<T>(a: Option<T>, b: Option<T>): (r: Option<T>)
    ensures a.Some? ==> r == a
    ensures a.None? ==> r == b
  {
    if a.Some? then a else b
  }
}
