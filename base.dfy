/** Failure-compatible wrappers and the Python exceptions the modelled code can raise. */
module Base {

  datatype Option<+T> = None | Some(value: T) {
    function GetOr(default: T): T {
      match this
      case Some(v) => v
      case None => default
    }
  }

  /** The exceptions that escape from the modelled operations. */
  datatype Exc =
    | TypeError        // an operand of the wrong type (`None + 1`, iterating an int)
    | ValueError       // `int("abc")`, unpacking a sequence of the wrong length
    | NameError        // a name that is not defined in the module
    | AttributeError   // `x.id` on an object without an `id`
    | KeyError         // a missing dictionary key
    | AssertionError   // a failed `assert` statement
    | UnpicklingError  // bytes that `cPickle.loads` cannot decode
    | DataError        // redis-py refusing `hmset` with an empty mapping

  /** The outcome of a Python call that either returns a value or raises. */
  datatype Result<+T> = Success(value: T) | Failure(error: Exc)

  /** The outcome of a Python call whose return value is always None. */
  datatype Outcome = Done | Raised(error: Exc)
}
