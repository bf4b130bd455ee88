/** Go's `time` package as the model needs it: instants and durations are
    integers counting nanoseconds, instants from Go's zero `time.Time`. */
module GoTime {

  const Nanosecond: int := 1
  const Millisecond: int := 1_000_000
  const Second: int := 1_000_000_000
  const Minute: int := 60 * Second
  const Hour: int := 60 * Minute

  /** The zero `time.Time`, the value of a timestamp field never assigned. */
  const ZeroTime: int := 0

  const MinInt64: int := -0x8000_0000_0000_0000
  const MaxInt64: int := 0x7FFF_FFFF_FFFF_FFFF

  predicate IsInt64(x: int) {
    MinInt64 <= x <= MaxInt64
  }

  /** `time.Since(t)` read at instant `now`: `now.Sub(t)`, which saturates at
      the bounds of the 64-bit `time.Duration` instead of wrapping. */
  function Since(now: int, t: int): (d: int)
    ensures IsInt64(d)
    ensures IsInt64(now - t) ==> d == now - t
    ensures now - t > MaxInt64 ==> d == MaxInt64
    ensures now - t < MinInt64 ==> d == MinInt64
  {
    var diff := now - t;
    if diff > MaxInt64 then MaxInt64
    else if diff < MinInt64 then MinInt64
    else diff
  }

  /** Saturation never changes how an elapsed time compares with a bound that
      lies strictly between the extreme durations, so thresholds such as one
      hour can be read on the exact difference. */
  lemma SinceComparesAsDifference(now: int, t: int, bound: int)
    requires MinInt64 < bound < MaxInt64
    ensures Since(now, t) < bound <==> now - t < bound
    ensures Since(now, t) > bound <==> now - t > bound
  {
  }
}
