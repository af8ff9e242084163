/** Absence and failure, as plain values. */
module Options {
  datatype Option<+T> = None | Some(value: T)

  /** The errors a caller of the pipeline can see. */
  datatype Error =
    | QuotaExceeded
    | MarshalFailed
    | WriteFailed
    | SyncFailed
    | BufferFull
    | ReadFailed
    | UnmarshalFailed

  datatype Result<+T> = Ok(value: T) | Err(error: Error)

  /** What the file system answers to a write followed by an fsync. */
  datatype IoOutcome = IoOk | IoWriteFailed | IoSyncFailed
}
