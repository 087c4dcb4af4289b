/** The failure the ranking core can raise, and a result type carrying it. */
module Results {

  /** A dict lookup `d[k]` on a key `k` that is not in `d`. */
  datatype Error = KeyError(word: string)

  datatype Result<T> = Success(value: T) | Failure(error: Error)
  {
    predicate IsFailure()
    {
      Failure?
    }

    function PropagateFailure<U>(): Result<U>
      requires Failure?
    {
      Failure(error)
    }

    function Extract(): T
      requires Success?
    {
      value
    }
  }
}
