/** An optional value: a JavaScript field that is present or `undefined`/`null`. */
module Wrappers {

  datatype Option<+T> = None | Some(value: T)

}
