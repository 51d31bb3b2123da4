/** Option and Result values used for the nullable returns and the exceptions of the modelled code. */
module Results {

  /** A value that may be absent (Java `null`, JavaScript `null`/`undefined`, an empty `Optional`). */
  datatype Option<+T> = None | Some(value: T) {
    function GetOr(default: T): T {
      match this
      case Some(v) => v
      case None => default
    }
  }

  /** The outcome of an operation that either returns a value or throws an exception. */
  datatype Result<+T, +E> = Success(value: T) | Failure(error: E)

  /** `Optional.orElseThrow`: the present value, or the given exception. */
  function OrElseThrow<T, E>(o: Option<T>, error: E): (r: Result<T, E>)
    ensures r.Success? <==> o.Some?
    ensures r.Success? ==> r.value == o.value
    ensures r.Failure? ==> r.error == error
  {
    match o
    case Some(v) => Success(v)
    case None => Failure(error)
  }
}
