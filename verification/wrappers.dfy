/** The optional value used for nullable state and for absent prompt answers. */
module Wrappers {

  datatype Option<+T> = None | Some(value: T)
}
