/** Optional values: Kotlin's nullable types and Swift's optionals. */
module Wrappers {

  datatype Option<T> = None | Some(value: T) {

    /** The wrapped value, or `default` when absent (the `?:` and `??` operators). */
    function GetOr(default: T): (v: T)
      ensures this.Some? ==> v == value
      ensures this.None? ==> v == default
    {
      match this
      case Some(x) => x
      case None => default
    }
  }
}
