/** The optional value used across the model for JavaScript's `undefined` results. */
module Wrappers {
  datatype Option<+T> = None | Some(value: T)
  {
    /** The value, or `default` when there is none (`x == undefined ? default : x`). */
    function GetOr(default: T): T {
      if Some? then value else default
    }
  }
}
