/** Java's nullable references and `Optional`, and TypeScript's `null`, as a value. */
module Wrappers {

  datatype Option<+T> = None | Some(value: T)
}
