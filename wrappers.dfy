/** Optional values: the model of Kotlin's nullable types and of C++ "-1 means none". */
module Wrappers {
  datatype Option<T> = None | Some(value: T)
  {
    /** Kotlin's `?:` operator. */
    function GetOr(default: T): (r: T)
      ensures Some? ==> r == value
      ensures None? ==> r == default
    {
      match this
      case Some(v) => v
      case None => default
    }
  }
}
