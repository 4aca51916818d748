/** Optional values, used wherever the program returns a success flag beside an out-parameter. */
module Wrappers {
  datatype Option<+T> = None | Some(value: T) {
    function Map<U>(f: T -> U): Option<U> {
      match this
      case None => None
      case Some(v) => Some(f(v))
    }
  }
}
