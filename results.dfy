/** The two-armed result type of the engine (src/types/Result.cs) and the
    optional value used wherever the source has a nullable reference. */
module Results {

  /** A value that may be absent: None stands for a C# null. */
  datatype Option<+T> = None | Some(value: T)

  /** Result<T, E>: a successful value or an error. The C# struct stores
      both fields and fills the unused one with `default!`; here the unused
      field does not exist. */
  datatype Result<+T, +E> = Success(value: T) | Failure(error: E) {

    predicate IsSuccessful() {
      Success?
    }

    /** Applies `successful` to the value of a successful result and `fail`
        to the error of an unsuccessful one. */
    function Match<R>(successful: T -> R, fail: E -> R): R {
      if IsSuccessful() then successful(value) else fail(error)
    }
  }

  /** The static factory `Result.Ok`. */
  function Ok<T, E>(v: T): (r: Result<T, E>)
    ensures r.IsSuccessful() && r.value == v
  {
    Success(v)
  }

  /** The static factory `Result.Err`. */
  function Err<T, E>(e: E): (r: Result<T, E>)
    ensures !r.IsSuccessful() && r.error == e
  {
    Failure(e)
  }

  /** The implicit conversion from a value. */
  function FromValue<T, E>(v: T): (r: Result<T, E>)
    ensures r == Ok(v)
  {
    Success(v)
  }

  /** The implicit conversion from an error. */
  function FromError<T, E>(e: E): (r: Result<T, E>)
    ensures r == Err(e)
  {
    Failure(e)
  }

  /** `Match` takes the successful branch exactly for results built by `Ok`
      (or the conversion from a value), and the failing branch exactly for
      results built by `Err` (or the conversion from an error). */
  lemma MatchFollowsConstruction<T, E, R>(v: T, e: E, successful: T -> R, fail: E -> R)
    ensures Ok<T, E>(v).Match(successful, fail) == successful(v)
    ensures FromValue<T, E>(v).Match(successful, fail) == successful(v)
    ensures Err<T, E>(e).Match(successful, fail) == fail(e)
    ensures FromError<T, E>(e).Match(successful, fail) == fail(e)
  {
  }

  /** Reading `.Error` of a result that the consumer loops hold in a variable
      initialised with `new()`: None stands for that default struct. The
      value read is the error of a failed result and null (None) otherwise. */
  function ErrorOrNull<T, E>(r: Option<Result<T, E>>): (e: Option<E>)
    ensures e.Some? <==> (r.Some? && !r.value.IsSuccessful())
    ensures e.Some? ==> e.value == r.value.error
  {
    match r
    case Some(Failure(err)) => Some(err)
    case _ => None
  }

  /** A held result is successful only if it was assigned and succeeded
      (the default struct is unsuccessful). */
  predicate SucceededHeld<T, E>(r: Option<Result<T, E>>) {
    r.Some? && r.value.IsSuccessful()
  }
}
