/** The two sum types the cell is built from: Swift's `Optional` and `Result`. */
module Outcomes {

  /** An optional value, as Swift's `T?`. */
  datatype Option<+T> = None | Some(value: T)

  /** The outcome stored in a cell: a success value or an error, as Swift's `Result<Value, Error>`. */
  datatype Result<+V, +E> = Success(value: V) | Failure(error: E)
}
