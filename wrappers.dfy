/** The optional value used wherever the application yields "absent" (null, undefined) rather than failing. */
module Wrappers {

  datatype Option<+T> = None | Some(value: T)
}
