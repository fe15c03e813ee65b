/** Vocabulary shared by every module: optional values, bytes and the clock. */
module Common {

  /** A value that may be absent (a PHP `null`, a missing row, a missing key). */
  datatype Option<+T> = None | Some(value: T)

  /** One byte of a PHP string. */
  type Byte = x: int | 0 <= x < 256

  /** Timestamps are whole seconds since the epoch; the current time is always a parameter. */
  const SecondsPerMinute: int := 60
  const SecondsPerHour: int := 3600
  const SecondsPerDay: int := 86400

  /**
   * MySQL `TIMESTAMPDIFF(MINUTE, start, end)`: the number of whole minutes from
   * `start` to `end`, truncated toward zero (so it is negative when `end` lies
   * before `start`).
   */
  function MinutesBetween(start: int, end: int): (m: int)
    ensures start <= end ==> 0 <= m && m * SecondsPerMinute <= end - start < (m + 1) * SecondsPerMinute
    ensures end < start ==> m <= 0 && -m * SecondsPerMinute <= start - end < (-m + 1) * SecondsPerMinute
  {
    if start <= end then (end - start) / SecondsPerMinute
    else -((start - end) / SecondsPerMinute)
  }

  /** A PHP byte string read as text: each byte becomes the character with that code. */
  function Chars(b: seq<Byte>): (s: string)
    ensures |s| == |b| && forall i :: 0 <= i < |b| ==> s[i] as int == b[i]
  {
    seq(|b|, i requires 0 <= i < |b| => b[i] as char)
  }
}
