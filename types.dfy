/** Value types shared by the buffer pool and the frame-callback manager. */
module Types {

  /** The exception kinds the buffer managers raise. `InvalidValue` and `Error`
      are the hardware exception kinds; `AllocFailed` stands for the
      `std::bad_alloc` that `new char[]` throws and `allocBuffers` rethrows. */
  datatype ErrorKind = InvalidValue | Error | AllocFailed

  datatype Option<+T> = None | Some(value: T)

  /** A value or the exception that was thrown instead. */
  datatype Result<+T> = Ok(value: T) | Err(error: ErrorKind)

  /** Completion of an operation that returns nothing: it returns, or throws. */
  datatype Outcome = Pass | Fail(error: ErrorKind)

  /** A frame geometry. Only two things about it matter to the buffer
      managers: its byte size per frame and equality. `shape` stands for
      everything else (width, height, pixel type) and is only compared. */
  datatype FrameDim = FrameDim(shape: int, memSize: int)

  /** What `FrameDim()` default-constructs: an empty geometry of zero bytes. */
  const DefaultFrameDim: FrameDim := FrameDim(0, 0)

  /** A point in time, or the distinct "unset" state a default-constructed
      timestamp has. */
  datatype Timestamp = Unset | Set(t: int) {
    predicate IsSet() { Set? }
  }

  /** `stored - start` as the time of `stored` relative to the baseline `start`;
      an unset `stored` is passed through unchanged. */
  function RelativeTimestamp(stored: Timestamp, start: Timestamp): (r: Timestamp)
    ensures r.IsSet() <==> stored.IsSet()
    ensures stored.IsSet() && start.IsSet() ==> r.t + start.t == stored.t
    ensures stored.IsSet() && !start.IsSet() ==> r == stored
  {
    if !stored.IsSet() then stored
    else if start.IsSet() then Set(stored.t - start.t)
    else stored
  }
}
