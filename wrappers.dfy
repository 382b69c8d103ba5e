/** The optional value used throughout the model; `None` stands for Python's
    `None` returned on a failure path or for an exception that ends the step. */
module Wrappers {
  datatype Option<+T> = None | Some(value: T)
}
