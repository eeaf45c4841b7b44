/** Kotlin's and Java's nullable references, as a value that is present or not. */
module Wrappers {

  datatype Option<+T> = None | Some(value: T)
}
