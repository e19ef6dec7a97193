/** Values every service shares: optional values, results, Go's int64 and time.Time. */
module Base {

  /** A Go value that may be nil, or a lookup that may find nothing. */
  datatype Option<+T> = None | Some(value: T)

  /** A Go (value, error) pair where exactly one side is meaningful. */
  datatype Result<+T, +E> = Success(value: T) | Failure(error: E)

  /** Go's int64. Balances and prices are int64 minor currency units. */
  type Int64 = x: int | -0x8000_0000_0000_0000 <= x <= 0x7fff_ffff_ffff_ffff

  const NanosPerSecond: int := 1_000_000_000

  /** A time.Time, kept as its UnixNano reading. */
  datatype Time = Time(unixNano: Int64)

  /** time.Time.Unix: whole seconds since the epoch, rounded towards minus infinity. */
  function Unix(t: Time): (seconds: Int64)
    ensures seconds * NanosPerSecond <= t.unixNano < (seconds + 1) * NanosPerSecond
  {
    t.unixNano / NanosPerSecond
  }
}
