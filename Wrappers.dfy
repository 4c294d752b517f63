/** An optional value: a parse that may fail, a message that may be shown. */
module Wrappers {

  datatype Option<T> = None | Some(value: T)
}
