// Optional values, for the source's null references and "not found" results.
module Wrappers {
  datatype Option<T> = None | Some(value: T)
}
