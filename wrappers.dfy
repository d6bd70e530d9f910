/** Optional values: a JavaScript `undefined`/`null`, a Go zero value, or an
    operation (URL parsing, script injection, messaging) that threw. */
module Wrappers {

  datatype Option<+T> = None | Some(value: T) {

    /** The `x || fallback` idiom of the source: the value if present, else the fallback. */
    function GetOr(fallback: T): T {
      match this
      case Some(v) => v
      case None => fallback
    }
  }
}
