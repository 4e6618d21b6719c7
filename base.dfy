/** Shared vocabulary: optional values, error results, bytes and Go's time
    arithmetic on integer nanoseconds. */
module Base {

  datatype Option<+T> = None | Some(value: T)

  /** A Go `(T, error)` pair: either a value or the error's message. */
  datatype Result<+T> = Ok(value: T) | Err(error: string)

  newtype byte = x: int | 0 <= x < 256

  /** A symmetric key as raw bytes (what base64 decoding produced). */
  type Key = seq<byte>

  /** An instant, in nanoseconds since Go's zero time (January 1, year 1, UTC). */
  type Time = int

  /** Go's `time.Time{}`, which `IsZero` recognises and `time.Parse` returns on failure. */
  const ZeroTime: Time := 0

  const Second: int := 1_000_000_000
  const Minute: int := 60 * Second
  const Hour: int := 60 * Minute

  /** `time.Duration` is an int64 count of nanoseconds. */
  const MinDuration: int := -0x8000_0000_0000_0000
  const MaxDuration: int := 0x7FFF_FFFF_FFFF_FFFF

  /** Go's `t.Sub(u)`: the difference, saturated to the int64 range of a Duration. */
  function Sub(t: Time, u: Time): (d: int)
    ensures MinDuration <= d <= MaxDuration
    ensures MinDuration <= t - u <= MaxDuration ==> d == t - u
    ensures t - u > MaxDuration ==> d == MaxDuration
    ensures t - u < MinDuration ==> d == MinDuration
  {
    var diff := t - u;
    if diff > MaxDuration then MaxDuration
    else if diff < MinDuration then MinDuration
    else diff
  }

  /** Saturation never changes how a difference compares with a bound below the
      largest Duration (at the largest one it would: a saturated difference equals it). */
  lemma SubComparesLikeDifference(t: Time, u: Time, bound: int)
    requires MinDuration <= bound < MaxDuration
    ensures (Sub(t, u) <= bound) <==> (t - u <= bound)
  {
  }

  /** Go's `t.Truncate(time.Second)`: round down to a whole second since the zero time. */
  function TruncateToSecond(t: Time): (r: Time)
    ensures r <= t < r + Second
    ensures r == Second * (t / Second)
  {
    t - t % Second
  }
}
