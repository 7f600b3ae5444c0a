/** The optional-value and outcome types shared by the rest of the model. */
module Wrappers {

  /**
    A value that may be absent. Each use says what absence means: a missing member, a
    `req.json()` that threw, a property read that threw, an `undefined` text.
  */
  datatype Option<+T> = None | Some(value: T) {

    /** The wrapped value, or `default` when absent (`x ?? default` for non-null values). */
    function GetOr(default: T): T {
      match this
      case Some(v) => v
      case None => default
    }
  }

  /** The outcome of a validation: the parsed value, or the issues that rejected it. */
  datatype Result<+R, +E> = Success(value: R) | Failure(error: E)
}
