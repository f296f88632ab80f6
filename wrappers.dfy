/** Failure-compatible wrappers shared by the whole model. */
module Wrappers {

  /** A value that may be absent: a missing document, an omitted request field. */
  datatype Option<+T> = None | Some(value: T) {
    predicate IsFailure() { None? }

    function PropagateFailure<U>(): Option<U>
      requires None?
    {
      None
    }

    function Extract(): T
      requires Some?
    {
      value
    }

    function GetOr(default: T): T {
      match this
      case Some(v) => v
      case None => default
    }
  }
}

/** Document references (MongoDB ObjectIds), modelled as opaque numbers. */
module Refs {
  type UserId = nat
  type QuizId = nat
}
