/** The 6 pm reminder of src/jobs.ts: for every user row read once at
    registration, a direct message when the user's offset-shifted clock
    reads 18:00. The test reads only the clock; it consults no summary. */
module Reminders {
  import opened Time
  import opened Messages

  /** The Slack id, time zone label and offset columns of a `users` row. */
  datatype UserClock = UserClock(slackId: string, tzLabel: string, tzOffset: int)

  const ReminderHour: int := 18

  /** The reminder test: shifted by the user's offset, the UTC clock reads
      hour 18 and minute 0. */
  predicate IsSixPm(nowUtc: int, tzOffset: int) {
    var userTime := nowUtc + tzOffset * MsPerSecond;
    UtcHours(userTime) == ReminderHour && UtcMinutes(userTime) == 0
  }

  /** Milliseconds elapsed since the user's local midnight. */
  function LocalTimeOfDay(nowUtc: int, tzOffset: int): (r: int)
    ensures 0 <= r < MsPerDay
  {
    var userTime := nowUtc + tzOffset * MsPerSecond;
    userTime - UtcDay(userTime) * MsPerDay
  }

  /** The reminder fires during exactly one minute of each local day: from
      18:00:00.000 to 18:00:59.999. */
  lemma SixPmIsOneMinuteADay(nowUtc: int, tzOffset: int)
    ensures IsSixPm(nowUtc, tzOffset) <==>
              ReminderHour * MsPerHour <= LocalTimeOfDay(nowUtc, tzOffset) < ReminderHour * MsPerHour + MsPerMinute
  {
    var r := LocalTimeOfDay(nowUtc, tzOffset);
    ClockReading(nowUtc + tzOffset * MsPerSecond);
    if ReminderHour * MsPerHour <= r < ReminderHour * MsPerHour + MsPerMinute {
      DivUnique(r, MsPerHour, ReminderHour);
      DivUnique(r - ReminderHour * MsPerHour, MsPerMinute, 0);
    }
  }

  /** The reminders a pass over `rows` posts, in row order. */
  function Warnings(rows: seq<UserClock>, nowUtc: int): (notices: seq<Notice>)
    ensures |notices| <= |rows|
    decreases |rows|
  {
    if rows == [] then []
    else
      var u := rows[|rows| - 1];
      Warnings(rows[..|rows| - 1], nowUtc) + if IsSixPm(nowUtc, u.tzOffset) then [SixPmWarning(u.slackId, u.tzLabel)] else []
  }

  /** The `users.forEach` pass. */
  method SixPmWarnings(rows: seq<UserClock>, nowUtc: int) returns (notices: seq<Notice>)
    ensures notices == Warnings(rows, nowUtc)
  {
    notices := [];
    for i := 0 to |rows|
      invariant notices == Warnings(rows[..i], nowUtc)
    {
      var u := rows[i];
      if IsSixPm(nowUtc, u.tzOffset) {
        notices := notices + [SixPmWarning(u.slackId, u.tzLabel)];
      }
      assert rows[..i + 1][..i] == rows[..i];
    }
    assert rows[..|rows|] == rows;
  }

  /** A reminder goes exactly to the rows whose local clock reads 18:00, each
      to the user's own direct-message channel. */
  lemma {:induction false} WarningsGoToSixPmUsers(rows: seq<UserClock>, nowUtc: int, n: Notice)
    ensures n in Warnings(rows, nowUtc) <==>
              exists i :: 0 <= i < |rows| && IsSixPm(nowUtc, rows[i].tzOffset) && n == SixPmWarning(rows[i].slackId, rows[i].tzLabel)
    ensures n in Warnings(rows, nowUtc) ==> n.Target() == Direct(n.slackId)
  {
    if rows != [] {
      var init := rows[..|rows| - 1];
      WarningsGoToSixPmUsers(init, nowUtc, n);
      assert forall i :: 0 <= i < |init| ==> init[i] == rows[i];
      if n in Warnings(rows, nowUtc) && n !in Warnings(init, nowUtc) {
        assert IsSixPm(nowUtc, rows[|rows| - 1].tzOffset);
        assert n == SixPmWarning(rows[|rows| - 1].slackId, rows[|rows| - 1].tzLabel);
      }
    }
  }
}
