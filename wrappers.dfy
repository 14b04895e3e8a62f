/** Optional values, used for the decoders that may reject their input. */
module Wrappers {

  datatype Option<+T> = None | Some(value: T)
}
