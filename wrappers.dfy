/** Optional values. `None` stands for Java's `null` wherever the source stores a nullable reference. */
module Wrappers {

  datatype Option<+T> = None | Some(value: T)
}
