/** Values shared by the scheduler and the NNAPI operator builders. */
module Common {

  /** A value that may be absent: a null pointer, an unset optional. */
  datatype Option<+T> = None | Some(value: T)

  /**
   * The error codes the scheduler itself produces: `Fail` for the terminate
   * flag, `RuntimeException` for an exception a step throws, which the step
   * oracle reports as its status.
   */
  datatype StatusCode = Fail | RuntimeException

  /** An onnxruntime `Status`: OK, or an error code with its message. */
  datatype Status = OK | Error(code: StatusCode, message: string)

  /** The outcome of an accessor guarded by `ORT_ENFORCE`: its value, or the exception it throws. */
  datatype Result<+T> = Success(value: T) | Failure(message: string)
}
