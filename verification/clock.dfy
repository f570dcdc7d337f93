/**
 * Go's `time` arithmetic as the generate path uses it: a ttl in minutes
 * becomes a `time.Duration` (64-bit nanoseconds, wrapping on overflow) and is
 * added to the current time, which is passed in as Unix nanoseconds.
 */
module Clock {
  import opened Strconv

  const NanosPerSecond: int := 1_000_000_000
  const NanosPerMinute: int := 60 * NanosPerSecond

  /** The largest number of minutes whose duration in nanoseconds fits in 64 bits. */
  const MaxDurationMinutes: int := MaxInt64 / NanosPerMinute

  /** `time.Duration(m) * time.Minute`, with Go's 64-bit wrap-around. */
  function MinutesDuration(m: int): (d: int)
    ensures InInt64(d)
    ensures (d - m * NanosPerMinute) % 0x1_0000_0000_0000_0000 == 0
    ensures -MaxDurationMinutes <= m <= MaxDurationMinutes ==> d == m * NanosPerMinute
  {
    WrapInt64(m * NanosPerMinute)
  }

  /**
   * The Unix second of `now.Add(d)`, the part a layout without fractional
   * seconds prints. A Go time keeps its nanoseconds in [0, 1e9), so this is
   * the floor of the sum (Dafny's `/` on a positive divisor).
   */
  function SecondAfter(nowNs: int, d: int): int {
    (nowNs + d) / NanosPerSecond
  }

  /** The Unix second at which a ttl of `ttlMinutes` expires when issued at `nowNs`. */
  function ExpirySecond(nowNs: int, ttlMinutes: int): int {
    SecondAfter(nowNs, MinutesDuration(ttlMinutes))
  }

  /** Without wrap-around the expiry is exactly `ttlMinutes` whole minutes after the current second. */
  lemma ExpiryWithoutWrap(nowNs: int, ttlMinutes: int)
    requires -MaxDurationMinutes <= ttlMinutes <= MaxDurationMinutes
    ensures ExpirySecond(nowNs, ttlMinutes) == nowNs / NanosPerSecond + 60 * ttlMinutes
  {
    var q := nowNs / NanosPerSecond;
    var r := nowNs % NanosPerSecond;
    assert nowNs + ttlMinutes * NanosPerMinute == (q + 60 * ttlMinutes) * NanosPerSecond + r;
  }

  /**
   * One minute past the bound the duration wraps to about minus 292 years,
   * so the token would be requested with an expiry in the past.
   */
  lemma ExpiryWrapsPastBound(nowNs: int)
    ensures MaxDurationMinutes == 153722867
    ensures ExpirySecond(nowNs, MaxDurationMinutes + 1) < nowNs / NanosPerSecond - 9_000_000_000
  {
    assert MinutesDuration(153722868) == -9223371993709551616;
  }

  /** The literal zone text that the layout `2006-01-02T15:04:05+00:00` appends. */
  const UtcSuffix: string := "+00:00"

  /**
   * A Unix second written with the layout `2006-01-02T15:04:05+00:00` after
   * conversion to UTC; the calendar rendering itself is the `renderUtc` parameter.
   */
  function Timestamp(renderUtc: int -> string, second: int): (r: string)
    ensures |r| >= |UtcSuffix| && r[|r| - |UtcSuffix|..] == UtcSuffix
  {
    renderUtc(second) + UtcSuffix
  }
}
