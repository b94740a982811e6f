/** Option stands for Python's `None`, pandas' missing values and parse
    failures; Outcome for a call that either returns or raises an exception
    its caller does not catch. */
module Wrappers {

  datatype Option<+T> = None | Some(value: T)

  datatype Outcome<+T> = Returns(value: T) | Raises
}
