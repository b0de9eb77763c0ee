/** The error kinds of the wrapper (`RocmErr`) and the result type every
    query returns. */
module Error {

  /** The error kinds. Only `RsmiStatusInputOutOfBounds` and
      `RsmiStatusUnknownError` are named in the code modelled here; the rest
      of the list is assumed from the status names of ROCm SMI, since
      src/error.rs lies outside this model. Every kind other than those two
      is reached only through the status table `RocmErr::from_u16`, which
      this model keeps uninterpreted (see `Bindings.Ffi.fromU16`). */
  datatype RocmErr =
    | RsmiStatusInvalidArgs
    | RsmiStatusNotSupported
    | RsmiStatusFileError
    | RsmiStatusPermission
    | RsmiStatusOutOfResources
    | RsmiStatusInternalException
    | RsmiStatusInputOutOfBounds
    | RsmiStatusInitError
    | RsmiStatusNotYetImplemented
    | RsmiStatusNotFound
    | RsmiStatusInsufficientSize
    | RsmiStatusInterrupt
    | RsmiStatusUnexpectedSize
    | RsmiStatusNoData
    | RsmiStatusUnexpectedData
    | RsmiStatusBusy
    | RsmiStatusRefcountOverflow
    | RsmiStatusUnknownError

  /** `Result<T, RocmErr>`: exactly one of a value or an error, never both.
      The failure members let `:-` play the part of Rust's `?`. */
  datatype Result<+T> = Ok(value: T) | Err(error: RocmErr) {
    predicate IsFailure() { Err? }

    function PropagateFailure<U>(): Result<U>
      requires Err?
    {
      Err(error)
    }

    function Extract(): T
      requires Ok?
    {
      value
    }
  }

  /** The value-less outcome of `check_res(status)`, usable with `:-`. */
  datatype Checked = Pass | Fail(error: RocmErr) {
    predicate IsFailure() { Fail? }

    function PropagateFailure<U>(): Result<U>
      requires Fail?
    {
      Err(error)
    }
  }

  /** Optional values (used for decoding). */
  datatype Option<+T> = None | Some(value: T)
}
