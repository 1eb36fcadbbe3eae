/** The nullable value of the JavaScript source: `null`/`undefined` become `None`. */
module Wrappers {

  datatype Option<+T> = None | Some(value: T)
}
