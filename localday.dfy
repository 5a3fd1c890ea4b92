/** The local-day window of the sync in src/jobs.ts: shifting a heartbeat's
    UTC time by the user's fixed offset and bounding that local calendar day
    by UTC instants. The `Date` constructor and getters that the source runs
    in the server's zone are read in UTC here. */
module LocalDay {
  import opened Time

  /** `[startOfDayUtc, endOfDayUtc]` */
  datatype Window = Window(startUtc: int, endUtc: int)

  /** The UTC instants of 00:00:00.000 and 23:59:59.999 of the local day that
      contains `hbTime` for a user `tzOffset` seconds ahead of UTC. */
  function LocalDayWindow(hbTime: int, tzOffset: int): (w: Window)
    ensures w.startUtc <= hbTime <= w.endUtc
    ensures w.endUtc - w.startUtc == MsPerDay - 1
    ensures (w.startUtc + tzOffset * MsPerSecond) % MsPerDay == 0
  {
    var userTzOffsetMs := tzOffset * MsPerSecond;
    var hbLocalTime := hbTime + userTzOffsetMs;
    var startOfDayLocal := UtcDay(hbLocalTime) * MsPerDay;
    var endOfDayLocal := startOfDayLocal + 23 * MsPerHour + 59 * MsPerMinute + 59 * MsPerSecond + 999;
    MidnightIsAligned(UtcDay(hbLocalTime));
    Window(startOfDayLocal - userTzOffsetMs, endOfDayLocal - userTzOffsetMs)
  }

  /** The window is the only one with those three properties: any instant
      that is a local midnight for the offset and starts a day containing
      `hbTime` is the window's start. */
  lemma WindowIsUnique(hbTime: int, tzOffset: int, s: int)
    requires (s + tzOffset * MsPerSecond) % MsPerDay == 0
    requires s <= hbTime < s + MsPerDay
    ensures LocalDayWindow(hbTime, tzOffset).startUtc == s
  {
    var local := hbTime + tzOffset * MsPerSecond;
    var q := (s + tzOffset * MsPerSecond) / MsPerDay;
    assert s + tzOffset * MsPerSecond == q * MsPerDay;
    DivUnique(local, MsPerDay, q);
  }

  /** The date under which the summary is stored: the UTC date of the
      window's start. */
  function SummaryDate(w: Window): int {
    UtcDay(w.startUtc)
  }

  /** For offsets at or behind UTC the stored date is the user's local date. */
  lemma SummaryDateBehindUtc(hbTime: int, tzOffset: int)
    requires -86_400 < tzOffset <= 0
    ensures SummaryDate(LocalDayWindow(hbTime, tzOffset)) == UtcDay(hbTime + tzOffset * MsPerSecond)
  {
    var w := LocalDayWindow(hbTime, tzOffset);
    var l := UtcDay(hbTime + tzOffset * MsPerSecond);
    assert w.startUtc == l * MsPerDay - tzOffset * MsPerSecond;
    DivUnique(w.startUtc, MsPerDay, l);
  }

  /** For offsets ahead of UTC the stored date is the day before the user's
      local date. */
  lemma SummaryDateAheadOfUtc(hbTime: int, tzOffset: int)
    requires 0 < tzOffset < 86_400
    ensures SummaryDate(LocalDayWindow(hbTime, tzOffset)) == UtcDay(hbTime + tzOffset * MsPerSecond) - 1
  {
    var w := LocalDayWindow(hbTime, tzOffset);
    var l := UtcDay(hbTime + tzOffset * MsPerSecond);
    assert w.startUtc == l * MsPerDay - tzOffset * MsPerSecond;
    DivUnique(w.startUtc, MsPerDay, l - 1);
  }
}
