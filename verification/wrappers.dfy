/** Optional values: the model's stand-in for a nullable database column and
    for an ORM `.first()` that may find no row. */
module Wrappers {

  datatype Option<+T> = None | Some(value: T)
}
