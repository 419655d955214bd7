/** Small failure-carrying datatypes shared by the whole model. */
module Wrappers {

  /** A value that may be absent (Python's `None`). */
  datatype Option<+T> = None | Some(value: T)

  /** The answer of a call into a remote service: either the value it
      returned, or the fact that it raised an exception. The model does not
      distinguish exceptions from one another, because the program does not. */
  datatype Reply<+T> = Ok(value: T) | Raised
}
