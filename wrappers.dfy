/** Optional values. `None` stands for JavaScript's `undefined` (and, in the
    header formatter, for the `false` produced by `|| false`). */
module Wrappers {

  datatype Option<+T> = None | Some(value: T) {

    /** The carried value, or `default` when there is none. */
    function GetOr(default: T): T
    {
      match this
      case Some(v) => v
      case None => default
    }
  }
}
