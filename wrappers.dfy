/** Optional values, the model of Kotlin's nullable types and Swift's optionals. */
module Wrappers {
  datatype Option<T> = None | Some(value: T)
  {
    /** Kotlin's `?:` and Swift's `??`: the value if present, the fallback otherwise. */
    function GetOr(fallback: T): (r: T)
      ensures Some? ==> r == value
      ensures None? ==> r == fallback
    {
      match this
      case None => fallback
      case Some(v) => v
    }
  }

  /** Kotlin's `xs?.ifEmpty { null }`: no empty list survives, any other value does. */
  function NullIfEmpty<T>(xs: Option<seq<T>>): (r: Option<seq<T>>)
    ensures r.Some? <==> xs.Some? && xs.value != []
    ensures r.Some? ==> r == xs
  {
    if xs.Some? && xs.value != [] then xs else None
  }

  /** Swift's `if !xs.isEmpty { request.field = xs }`: an empty list or string is not sent. */
  function IfNotEmpty<T>(xs: seq<T>): (r: Option<seq<T>>)
    ensures r.Some? <==> xs != []
    ensures r.Some? ==> r.value == xs
  {
    if xs == [] then None else Some(xs)
  }
}
