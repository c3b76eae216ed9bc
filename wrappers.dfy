/** Option and Result, the two failure-carrying datatypes the rest of the model uses
    for Java's null returns and thrown exceptions. */
module Wrappers {

  datatype Option<+T> = None | Some(value: T)

  /** `Failure` stands for a thrown exception, its payload names which one. */
  datatype Result<+T, +E> = Success(value: T) | Failure(error: E)
}
