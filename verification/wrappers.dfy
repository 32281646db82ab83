/** Option and Result, the two failure-carrying datatypes the model uses
    for a factory that may return nil and for Go's `(value, error)` pair. */
module Wrappers {

  /** A value that may be absent: a factory's nil result, or a receive on an
      empty channel. */
  datatype Option<+T> = None | Some(value: T)

  /** Go's `(value, error)` return pair, with exactly one side meaningful. */
  datatype Result<+T, +E> = Ok(value: T) | Err(error: E)
}
