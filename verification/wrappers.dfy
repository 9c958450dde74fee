/**
 * Optional values. The introspection pass meets Swift optionals in two
 * places: an entity's name, which may be missing, and a relationship's
 * destination name, which falls back to a placeholder.
 */
module Wrappers {

  datatype Option<+T> = None | Some(value: T) {

    /** Swift's `x ?? default`, as used for the destination name at chordata.swift:74. */
    function GetOr(default: T): T
    {
      match this
      case Some(v) => v
      case None => default
    }
  }
}
