/** Option and Result: the null references and thrown exceptions of the C# program. */
module Wrappers {

  /** A nullable reference: `None` is C#'s null. */
  datatype Option<T> = None | Some(value: T)

  /** The outcome of an operation that either returns a value or throws. */
  datatype Result<T, E> = Ok(value: T) | Err(error: E)
}
