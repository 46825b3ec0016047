/** Optional values, for Swift's `T?`. */
module Wrappers {

  datatype Option<T> = None | Some(value: T)
  {
    /** The wrapped value, or `default` when there is none (Swift's `??`). */
    function GetOr(default: T): (r: T)
      ensures Some? ==> r == value
      ensures None? ==> r == default
    {
      match this
      case Some(v) => v
      case None => default
    }
  }
}
