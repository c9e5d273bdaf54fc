/** An optional value, for lookups that can miss and inputs the renderer rejects. */
module Wrappers {
  datatype Option<T> = None | Some(value: T)
}
