/** Option, Result and Field helper datatypes shared by every module of the model. */
module Wrappers {

  /** An optional value: JavaScript's `undefined` (or an omitted argument) is `None`. */
  datatype Option<+T> = None | Some(value: T) {

    /** The value, or `default` when absent: a JavaScript default parameter. */
    function GetOr(default: T): T {
      match this
      case Some(v) => v
      case None => default
    }
  }

  /** Either a value or an error that the caller propagates. */
  datatype Result<+T, +E> = Success(value: T) | Failure(error: E)

  /** A field of an update payload: left out of the payload, or written with a value. */
  datatype Field<+T> = Keep | Set(value: T) {

    /** The stored value after the update. */
    function Apply(current: T): T {
      match this
      case Keep => current
      case Set(v) => v
    }
  }
}
