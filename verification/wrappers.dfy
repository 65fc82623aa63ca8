/** The optional-value datatype the rest of the model uses for partial results. */
module Wrappers {

  datatype Option<+T> = None | Some(value: T)
}
