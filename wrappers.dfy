/** Small value types shared by every module: an optional value (C# `null`,
    TypeScript `undefined`) and MediatR's `Unit`. */
module Wrappers {

  /** `None` stands for C# `null` / a default value, or TypeScript `undefined`. */
  datatype Option<+T> = None | Some(value: T) {

    /** C#'s `??` and TypeScript's `??`: this value, or `default` when there is none. */
    function GetOr(default: T): T {
      match this
      case Some(v) => v
      case None => default
    }

    /** C#'s `x ??= v` and TypeScript's `x ?? v`: this value, or `v` when there is none. */
    function OrSome(v: T): (r: Option<T>)
      ensures r.Some?
      ensures Some? ==> r == this
      ensures None? ==> r == Some(v)
    {
      match this
      case Some(_) => this
      case None => Some(v)
    }
  }

  /** MediatR's `Unit.Value`, the payload of a command that returns nothing. */
  datatype Unit = Unit
}
