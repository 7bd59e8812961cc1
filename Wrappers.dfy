/** Optional values: `None` stands for a Java `null` or an unset Thrift field. */
module Wrappers {

  datatype Option<+T> = None | Some(value: T)
}
