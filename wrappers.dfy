/** Optional values: a JavaScript value that may be `null`, or a Java
    string column that may be NULL. */
module Wrappers {

  datatype Option<+T> = None | Some(value: T)
}
