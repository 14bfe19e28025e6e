/** The usual optional-value datatype, used for the decoders of the model. */
module Wrappers {
  datatype Option<+T> = None | Some(value: T)
}
