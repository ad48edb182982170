// Small failure-carrying datatypes shared by the other modules.
module Wrappers {

  datatype Option<+T> = None | Some(value: T)

  /** The Python exceptions the modelled code can raise. */
  datatype Error =
    | KeyError(key: string)   // a dictionary lookup of a missing name
    | IndexError              // indexing a string past its end
    | OverflowError           // int() of float("inf")

  datatype Result<+T> = Success(value: T) | Failure(error: Error)
}
