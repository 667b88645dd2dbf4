/** The optional value used wherever the shell returns `Option<T>`. */
module Wrappers {

  datatype Option<+T> = None | Some(value: T)

}
