/** The optional-value wrapper used throughout the model (Python's `None`-or-value). */
module Wrappers {

  datatype Option<+T> = None | Some(value: T)
}
