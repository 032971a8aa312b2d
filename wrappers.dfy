/** A value that may be absent: the model's rendering of a Java reference that may be null. */
module Wrappers {

  datatype Option<+T> = None | Some(value: T)
}
