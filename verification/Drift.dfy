/** checkTimestampDrift: the client's Unix seconds against the server clock, in Go's 64-bit arithmetic. */
module Drift {
  import opened Basics

  const MIN_INT64: int := -0x8000_0000_0000_0000
  const MAX_INT64: int := 0x7FFF_FFFF_FFFF_FFFF

  type int64 = x: int | MIN_INT64 <= x <= MAX_INT64

  const MAX_DRIFT: int := 90 * SECOND

  /** Go keeps seconds since the year 1; this is the epoch on that scale. */
  const UNIX_TO_INTERNAL: int := 62135596800

  function Wrap64(x: int): int64 {
    (x - MIN_INT64) % 0x1_0000_0000_0000_0000 + MIN_INT64
  }

  /** The second that time.Unix(ts, 0) denotes: the change of scale may wrap around. */
  function ClientSecond(ts: int64): int {
    Wrap64(ts + UNIX_TO_INTERNAL) - UNIX_TO_INTERNAL
  }

  /** Time.Sub saturates at the ends of time.Duration. */
  function Saturate(d: int): int64 {
    if d < MIN_INT64 then MIN_INT64 else if d > MAX_INT64 then MAX_INT64 else d
  }

  /** Negating the smallest duration leaves it unchanged. */
  function Negate64(d: int64): int64 {
    var x: int := d;
    Wrap64(-x)
  }

  predicate Fresh(ts: int64, now: nat) {
    var drift := Saturate(now - ClientSecond(ts) * SECOND);
    var size := if drift < 0 then Negate64(drift) else drift;
    size <= MAX_DRIFT
  }

  lemma WrapLaws(x: int)
    ensures MIN_INT64 <= x <= MAX_INT64 ==> Wrap64(x) == x
    ensures MAX_INT64 < x <= 2 * MAX_INT64 + 1 ==> Wrap64(x) == x - 0x1_0000_0000_0000_0000
  {
    if MIN_INT64 <= x <= MAX_INT64 {
      assert 0 <= x - MIN_INT64 < 0x1_0000_0000_0000_0000;
    } else if MAX_INT64 < x <= 2 * MAX_INT64 + 1 {
      assert x - MIN_INT64 == 0x1_0000_0000_0000_0000 + (x - 0x1_0000_0000_0000_0000 - MIN_INT64);
    }
  }

  /**
   * Exactly what is accepted: a second on Go's scale that is at most 90 seconds from the clock, or
   * so far ahead of it that the difference saturates and its negation overflows.
   */
  lemma FreshExactly(ts: int64, now: nat)
    ensures Fresh(ts, now) <==>
            && ts <= MAX_INT64 - UNIX_TO_INTERNAL
            && (-90 * SECOND <= now - ts * SECOND <= 90 * SECOND || now - ts * SECOND <= MIN_INT64)
  {
    WrapLaws(ts + UNIX_TO_INTERNAL);
    var drift: int := Saturate(now - ClientSecond(ts) * SECOND);
    WrapLaws(-drift);
  }

  /** Just over 292 years, more seconds than a duration can hold. */
  const FAR_AHEAD: int := 9_223_372_038

  /** The 90-second promise does fail, at any clock, for every timestamp that far ahead on Go's scale; one
      such timestamp at a clock of the year 2023 is the year 2350. */
  lemma PromiseFails(ts: int64, now: nat)
    ensures ts - Unix(now) >= FAR_AHEAD && ts <= MAX_INT64 - UNIX_TO_INTERNAL ==> Fresh(ts, now)
    ensures Fresh(12_000_000_000, 1_700_000_000 * SECOND)
  {
    FreshExactly(ts, now);
    FreshExactly(12_000_000_000, 1_700_000_000 * SECOND);
  }
}
