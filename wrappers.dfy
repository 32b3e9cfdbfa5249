/** A nullable value: a database column that may hold NULL, a JavaScript
    argument that may be `undefined`. */
module Wrappers {

  datatype Option<+T> = None | Some(value: T)
}
