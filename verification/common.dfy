/** Small failure-carrying datatypes shared by the renderer model. */
module Common {

  /** Either a value or nothing (the renderer's possibly-null image pointer). */
  datatype Option<+T> = None | Some(value: T)

  /** Either a successful value or the fault that stopped the computation. */
  datatype Result<+T, +E> = Success(value: T) | Failure(error: E)
}
