/** JavaScript `Date` arithmetic on millisecond timestamps, read in UTC.
    An instant is an integer number of milliseconds since 1970-01-01T00:00:00Z
    (`Date.getTime()`); a calendar date is a day number counted from
    1970-01-01, which is what `toISOString().split("T")[0]` and a SQL `DATE`
    denote. */
module Time {

  const MsPerSecond: int := 1000
  const MsPerMinute: int := 60_000
  const MsPerHour: int := 3_600_000
  const MsPerDay: int := 86_400_000

  /** The UTC calendar day of instant `t` (`t.toISOString().split("T")[0]`). */
  function UtcDay(t: int): (d: int)
    ensures d * MsPerDay <= t < d * MsPerDay + MsPerDay
  {
    t / MsPerDay
  }

  /** `new Date(t).getUTCHours()` */
  function UtcHours(t: int): (h: int)
    ensures 0 <= h < 24
  {
    (t / MsPerHour) % 24
  }

  /** `new Date(t).getUTCMinutes()` */
  function UtcMinutes(t: int): (m: int)
    ensures 0 <= m < 60
  {
    (t / MsPerMinute) % 60
  }

  /** Dividing `q * n + r` by a positive `n` with `0 <= r < n` gives `q`. */
  lemma DivUnique(x: int, n: int, q: int)
    requires 0 < n
    requires q * n <= x < q * n + n
    ensures x / n == q
  {
    var q' := x / n;
    assert x == q' * n + x % n;
    if q' < q {
      MulMono(q', q - 1, n);
    } else if q' > q {
      MulMono(q + 1, q', n);
    }
  }

  lemma MulMono(a: int, b: int, n: int)
    requires a <= b && 0 < n
    ensures a * n <= b * n
  {
  }

  /** Hours and minutes of an instant depend only on the time since its UTC
      midnight: `h:m` is the clock reading of the `t - UtcDay(t) * MsPerDay`
      milliseconds elapsed that day. */
  lemma {:induction false} ClockReading(t: int)
    ensures var r := t - UtcDay(t) * MsPerDay;
            && UtcHours(t) == r / MsPerHour
            && UtcMinutes(t) == (r - (r / MsPerHour) * MsPerHour) / MsPerMinute
  {
    var d := UtcDay(t);
    var r := t - d * MsPerDay;
    var h := r / MsPerHour;
    var m := (r - h * MsPerHour) / MsPerMinute;
    assert 0 <= h < 24;
    assert 0 <= m < 60;
    DivUnique(t, MsPerHour, d * 24 + h);
    DivUnique(t / MsPerHour, 24, d);
    DivUnique(t, MsPerMinute, (d * 24 + h) * 60 + m);
    DivUnique(t / MsPerMinute, 60, d * 24 + h);
  }

  /** A day-aligned instant has no remainder modulo a day. */
  lemma MidnightIsAligned(d: int)
    ensures (d * MsPerDay) % MsPerDay == 0
  {
    DivUnique(d * MsPerDay, MsPerDay, d);
  }
}
