/** Optional values, used wherever the library raises instead of returning. */
module Wrappers {

  /** None stands for "the Python code raises here"; Some carries the result. */
  datatype Option<+T> = None | Some(value: T)
}
