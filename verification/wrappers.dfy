/** The null-or-value results of the source, as an Option datatype. */
module Wrappers {

  /** `None` stands for the source's `null` / missing value. */
  datatype Option<+T> = None | Some(value: T) {

    /** An option that was passed is taken as given; a missing one falls back to `fallback`. */
    function GetOr(fallback: T): T {
      match this
      case Some(v) => v
      case None() => fallback
    }
  }
}
