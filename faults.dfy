/** The run-time errors that the modelled Python code can raise, and the
    result types that carry them. */
module Faults {

  /** The two exceptions the modelled code can raise: indexing past the end of
      a list or array, and dividing by zero. */
  datatype Fault = IndexError | ZeroDivisionError

  /** The value an operation returns, or the exception it raises instead. */
  datatype Result<T> = Ok(value: T) | Err(fault: Fault)

  /** An optional argument (Python's `None` default). */
  datatype Option<T> = None | Some(value: T)
}
