/** Optional values (JavaScript `undefined`/`null` versus a value) and
    success-or-error results (a thrown `Response` versus a returned value). */
module Optional {

  /** `None` stands for both `undefined` and `null` wherever the source
      collapses the two with `??` or optional chaining. */
  datatype Option<+T> = None | Some(value: T) {

    /** The value, or `default` when absent: JavaScript's `x ?? default`. */
    function GetOr(default: T): T {
      match this
      case Some(v) => v
      case None => default
    }
  }

  datatype Result<+T, +E> = Success(value: T) | Failure(error: E)
}
