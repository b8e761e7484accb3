/** Small value wrappers shared by the whole model. */
module Wrappers {

  /** JavaScript's `null`/`undefined` versus a present value. */
  datatype Option<+T> = None | Some(value: T) {

    /** The value, or `default` when absent. */
    function GetOr(default: T): T
    {
      match this
      case Some(v) => v
      case None => default
    }
  }

  /** The two terminal states of a JavaScript promise, as `Promise.allSettled` reports them. */
  datatype Settled<+T> = Fulfilled(value: T) | Rejected(reason: string)
}
