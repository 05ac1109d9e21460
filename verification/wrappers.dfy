/** Option and Result values shared by every module of the model. */
module Wrappers {

  /** An optional value: `None` stands for a null pointer, a missing JSON
      field or Python's `None`. */
  datatype Option<+T> = None | Some(value: T)

  /** A value or an error, for operations that return a status or raise. */
  datatype Result<+T, +E> = Ok(value: T) | Err(error: E)

  /** The status codes the firmware returns from its validators. */
  datatype StatusCode =
    | InvalidArgument
    | Unimplemented
    | DataLoss
    | Unavailable
    | NotFound
    | InvalidState

  /** An octet (uint8_t). */
  type Byte = x: int | 0 <= x < 256

  /** A firmware `Status`: OK, or an error code with its message. */
  datatype Status = StatusOk | StatusError(code: StatusCode, message: string)
  {
    predicate IsOk() { StatusOk? }
  }
}
