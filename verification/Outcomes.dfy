/** Success/failure and presence datatypes shared by the other modules. */
module Outcomes {

  datatype Option<+T> = None | Some(value: T)

  /** The value-or-error pair that most of the program's functions return; error texts are not kept. */
  datatype Result<+T> = Success(value: T) | Failure
}
