/** Optional values, used for lookups that may miss and for evaluation steps
    whose C++ counterpart would have undefined behaviour. */
module Wrappers {

  datatype Option<+T> = None | Some(value: T)

}
