/** Small shared types: an optional value (Kotlin's nullable references), the
    outcome of a Kotlin call that either returns a value or throws, and the
    identity of a caller-supplied callback object. */
module Common {

  /** A nullable reference: `None` stands for Kotlin's `null`. */
  datatype Option<+T> = None | Some(value: T)

  /** What a Kotlin call does: it returns a value or throws an exception,
      never both and never neither. */
  datatype Outcome<+T, +X> = Returned(value: T) | Thrown(exception: X)

  /** The identity of an `NCMBCallback` object supplied by the application.
      Only its identity matters: the model records which callback is invoked. */
  datatype CallbackRef = CallbackRef(id: nat)
}
