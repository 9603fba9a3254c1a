/** Option and error-carrying outcome types used throughout the model. A Go
    function returning `(T, error)` becomes a function returning `Outcome<T>`. */
module Wrappers {

  datatype Option<+T> = None | Some(value: T)

  /** `Ok(v)` is a nil error with value `v`; `Fail(e)` is a non-nil error whose
      text is `e`. */
  datatype Outcome<+T> = Ok(value: T) | Fail(error: string)
}
