/** The nullable references of the game's C# code, as values. */
module Wrappers {

  /** `None` stands for a C# `null`. */
  datatype Option<T> = None | Some(value: T) {

    /** The value, or `default` for `None` (C#'s `??`). */
    function GetOr(default: T): (r: T)
      ensures Some? ==> r == value
      ensures None? ==> r == default
    {
      match this
      case Some(v) => v
      case None => default
    }
  }
}
