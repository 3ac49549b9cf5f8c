/** Optional values: JavaScript's `null`/`undefined` next to a present value. */
module Wrappers {
  datatype Option<T> = None | Some(value: T)
  {
    /** `x ?? d` */
    function GetOr(default: T): T
    {
      match this
      case None => default
      case Some(v) => v
    }
  }
}
