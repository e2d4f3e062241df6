/** Optional values, used where the application either has a value or falls
    back (an image that could not be loaded, text that is not an integer). */
module Wrappers {

  datatype Option<+T> = None | Some(value: T)
}
