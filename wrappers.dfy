/** The optional value used for the inverse (parsing) functions of the model. */
module Wrappers {

  datatype Option<+T> = None | Some(value: T)
}
