/** Option and Result values that stand for C#'s nullable results and thrown exceptions. */
module Wrappers {

  datatype Option<+T> = None | Some(value: T)

  /** Success carries a value; Failure carries what a C# method would have thrown. */
  datatype Result<+R, +E> = Success(value: R) | Failure(error: E)
}
