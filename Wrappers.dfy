/** Option and exception-carrying results shared by the modules of the model. */
module Wrappers {

  /** A Java reference that may be null. */
  datatype Option<+T> = None | Some(value: T)

  /** The unchecked exceptions the modelled code throws. */
  datatype Exception = IllegalStateException | NullPointerException

  /** The outcome of a call that returns a value or throws. */
  datatype Try<+T> = Ok(value: T) | Throws(exception: Exception)

  /** The outcome of a call that returns nothing or throws. */
  datatype Status = Done | Threw(exception: Exception)
}
