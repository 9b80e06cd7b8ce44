/** Optional values: a C# string that may be null (a diagnostic line), or an
    error message that may be absent (the outcome of a batch). */
module Wrappers {

  datatype Option<+T> = None | Some(value: T)
}
