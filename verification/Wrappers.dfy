/** An optional value: JavaScript's `undefined` for an omitted argument or a missing key. */
module Wrappers {

  datatype Option<+T> = None | Some(value: T)

}
