/** The outcome of a lookup or a step that may have nothing to give. */
module Wrappers {

  datatype Option<T> = None | Some(value: T)
}
