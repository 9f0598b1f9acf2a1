/** The optional value used wherever the JavaScript source may yield `undefined` or `null`. */
module Wrappers {

  datatype Option<+T> = None | Some(value: T)
}
