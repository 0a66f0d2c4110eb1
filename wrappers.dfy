/** The optional values the pages pass around (`T | null`, `T | undefined`). */
module Wrappers {

  datatype Option<+T> = None | Some(value: T)
}
