/** Optional values, standing in for the nullable strategy pointers of the firmware. */
module Wrappers {

  datatype Option<+T> = None | Some(value: T)
}
