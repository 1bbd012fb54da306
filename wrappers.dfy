/** The optional value used wherever the source has `undefined`, `null` or an absent field. */
module Wrappers {
  datatype Option<+T> = None | Some(value: T) {
    /** `value || fallback` for a present-or-absent field. */
    function GetOr(fallback: T): T {
      match this
      case Some(v) => v
      case None => fallback
    }
  }
}
