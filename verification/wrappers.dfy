/** Small value wrappers shared by the model: an optional value and the
    outcome of one remote call. */
module Wrappers {

  /** A value that may be absent; stands for JavaScript's `null`. */
  datatype Option<+T> = None | Some(value: T)

  /** How one awaited call into the document store ended: it resolved with a
      value, or it rejected. The rejection's payload is only logged by the
      caller, so it carries nothing. */
  datatype Remote<+T> = Success(value: T) | Failure
}
