# Sockathon bot: a verified model of its core

Sockathon is a Slack bot for a ten-day coding event. Users register with
`/sock` and form teams of people who code together. A job runs every minute.
It reads coding heartbeats from a Hakatime (WakaTime-compatible) server and
stores each user's daily summary. It announces in the event channel anyone
who just passed 15 minutes of coding for the day. A separate pass sends a
direct reminder to users whose local clock reads 18:00.

This project models that core in Dafny:

| file | models |
|---|---|
| `time.dfy` | millisecond instants, UTC days, and the UTC hour and minute getters |
| `utils.dfy` | `capitaliseFirstLetter` |
| `db.dfy` | the three tables of `setUpDb` and their constraints, as a `Store` class; the summary upsert; the `getSecondsCoded` aggregate |
| `messages.dfy` | the Slack messages posted, and their channel |
| `heartbeats.dfy` | the heartbeat cursor, the page query, and the per-user reduction loop |
| `localday.dfy` | the local-day window of a heartbeat, and the date the summary is stored under |
| `sync.dfy` | the per-user loop of the sync job (upsert, before/after sums, the 15-minute notice), and the whole tick |
| `reminders.dfy` | the 18:00 test and the reminder pass |
| `bot.dfy` | team create and join, the registration insert, the left-joined team, the team block, the countdown split, and `/sock` |
| `ui.dfy` | `buildSockView`: the registration gate, the countdown target, the Starts/Ends word, and the view |

Conventions:
- Instants are integer milliseconds since the epoch.
- Calendar dates are day numbers since 1970-01-01.
- The job's `Date` getters are read in UTC.
- Slack and Hakatime answers are inputs:
  - the heartbeats table is a sequence, newest first;
  - the fetched summaries are a map from Slack id to payload (no entry means one of the external calls threw);
  - the payload's `projects` may be missing, an array, or some other JSON value, on which the SQL sum raises;
  - the Slack profile is an `Option`.
- Each message posted is a `Notice` value appended to the method's result.

What the code does, as opposed to what the bot tells its users:
- The 15-minute announcement compares strictly (`before < 900 && after > 900`) and does not check the event's dates, so it also fires before and after the event.
- The `/sock` view (src/ui.ts:236) tells users that a team has "Up to 6 people" and that everyone must code "at least 15 mins per day, or you're all out". Neither rule is enforced: joining checks no member count, and no code eliminates a team (`clans.failed_at` is never set).
- The code does not filter summaries by project category. The daily sum adds the totals of every project.

## Model

| member | source | states |
|---|---|---|
| Time.UtcDay | src/db.ts:55 | the ISO date of an instant is the unique day `d` with `d` days ≤ t < `d+1` days |
| Time.UtcHours | src/jobs.ts:141 | the UTC hour getter is in 0..23 |
| Time.UtcMinutes | src/jobs.ts:141 | the UTC minute getter is in 0..59 |
| Time.ClockReading | src/jobs.ts:137-141 | the hour and minute getters depend only on the time since UTC midnight: hours = that span divided by an hour, minutes = what is left divided by a minute |
| Utils.UpperCase | src/utils.ts:11 | `toUpperCase` of one character: lower-case ASCII letters go to the matching capital, everything else is unchanged |
| Utils.CapitaliseFirstLetter | src/utils.ts:10-12 | same length; empty stays empty; the first character is upper-cased and the rest is kept |
| Utils.CapitaliseIdempotent | src/utils.ts:10-12 | capitalising twice equals capitalising once |
| Utils.CapitaliseFixedPoints | src/utils.ts:10-12 | the string is unchanged iff it is empty or does not start with a lower-case letter |
| Db.Store.constructor | src/db.ts:25-51 | fresh tables are empty, satisfy every table constraint, and the SERIAL counter starts at 1 |
| Db.Store.UpsertSummary | src/jobs.ts:97 | the payload replaces whatever was stored under `(user_id, date)`; nothing else changes; the constraints still hold |
| Db.SumTotals | src/db.ts:57-61 | the SQL SUM over the project totals is NULL iff no element carries a total |
| Db.SumTotalsAppend | src/db.ts:57-61 | the SUM of a concatenation combines the two SUMs (NULL being the identity) |
| Db.PayloadSeconds | src/db.ts:57-61 | the aggregate over a payload raises iff `projects` is not an array, and is NULL iff `projects` is missing or none of its elements has a total |
| Db.SecondsCoded | src/db.ts:54-64 | a sum or an error comes only from a row stored under the user and the instant's UTC date |
| Db.SecondsCodedAbsent | src/db.ts:54-64 | the query raises iff that row exists and its `projects` is not an array; it is NULL iff there is no row, or the row has no `projects`, or no element has a total |
| Db.SecondsCodedSameDay | src/db.ts:55 | two instants on the same UTC date read the same value |
| Db.SecondsCodedReadsOnlyProjects | src/db.ts:59 | payloads with the same `projects` read the same value, whatever their other fields |
| Db.SecondsCodedAfterUpsert | src/jobs.ts:93-102 | after the upsert, the written key reads the new payload's sum and every other key reads what it read before |
| Heartbeats.SlackIdOf | src/jobs.ts:27 | `slice(-11)`: the last min(length, 11) characters of the heartbeat's user id |
| Heartbeats.IdsAbove | src/jobs.ts:22 | exactly the heartbeats whose id is above the cursor |
| Heartbeats.Page | src/jobs.ts:21-22 | at most 1000 rows, all from the table with an id above the cursor, and all such rows when there are at most 1000 |
| Heartbeats.MinOf | src/jobs.ts:17-19 | `Math.min` of a non-empty list is a member that no element undercuts |
| Heartbeats.MinIdToSearchFor | src/jobs.ts:14-19 | the cursor is 0 for an empty map, else the least heartbeat id stored in it |
| Heartbeats.FreshTrackingSearchesFromZero | src/jobs.ts:13-19 | the map is created empty each tick, so every tick queries from id 0 |
| Heartbeats.Step | src/jobs.ts:27-32 | one iteration of the reduction: afterwards the heartbeat's Slack id has an entry whose id is at least the heartbeat's and at least the previous entry's; no earlier key is lost and every other entry is unchanged |
| Heartbeats.Track | src/jobs.ts:26-33 | the reduction over a page has at most one key per row; its keys and entries are characterised by `TrackKeys` and `KeptIndex` |
| Heartbeats.ReduceHeartbeats | src/jobs.ts:26-33 | the loop builds exactly the map (entries and insertion order) of the reduction `Track` |
| Heartbeats.StepKeys | src/jobs.ts:30-31 | one iteration adds the heartbeat's Slack id to the keys and keeps the key order duplicate-free |
| Heartbeats.TrackKeys | src/jobs.ts:26-33 | the map's keys are exactly the Slack ids of the page, each listed once in insertion order |
| Heartbeats.KeptIndex | src/jobs.ts:26-33 | each entry is the id and time of the row with the greatest id among that user's rows, the first row to carry that id |
| Heartbeats.TrackKeepsGreatestId | src/jobs.ts:26-33 | each entry is the id and time of some row of that user whose id no other row of the user exceeds |
| Heartbeats.GreaterIdBeatsLaterTime | src/jobs.ts:30 | of two heartbeats of one user, the one with the greater id is kept even when the other is later in time |
| LocalDay.LocalDayWindow | src/jobs.ts:50-76 | the window holds the heartbeat, spans one day less 1 ms, and starts at a local midnight of the user's offset |
| LocalDay.WindowIsUnique | src/jobs.ts:50-76 | any local-midnight start whose day holds the heartbeat is the window's start |
| LocalDay.SummaryDate | src/jobs.ts:96 | defined as the UTC date of the window's start instant; characterised by `SummaryDateBehindUtc` and `SummaryDateAheadOfUtc` |
| LocalDay.SummaryDateBehindUtc | src/jobs.ts:96 | for offsets at or behind UTC, the stored date is the user's local date |
| LocalDay.SummaryDateAheadOfUtc | src/jobs.ts:96 | for offsets ahead of UTC, the stored date is the day before the user's local date |
| Sync.SyncOneUser | src/jobs.ts:40-116 | one iteration: skip users without a row or a fetched payload, or whose first read raises; else upsert under the local day's date, and post the notice iff the second read succeeds and the sum crosses 900 s |
| Sync.CrossesThreshold | src/jobs.ts:93-108 | a crossing needs the second read to give a value, and that value exceeds the first read coalesced to 0; defined as before < 900 s and after > 900 s, characterised by `SyncAnnouncesCrossings` and `MissedAtExactThreshold` |
| Sync.SyncUser | src/jobs.ts:40-116 | one iteration only appends to the notices, and appends at most one; its effect on the table is characterised by `SyncKeepsOtherUsers` and `SyncStoresFetched` |
| Sync.SyncAll | src/jobs.ts:36-117 | the loop only appends to the notices, at most one per visited Slack id; characterised by `SyncAnnouncesCrossings` and `SyncAnnouncesOnce` |
| Sync.SyncTick | src/jobs.ts:10-117 | an empty page changes nothing; otherwise the table and notices are those of the per-user loop over the reduced map, in insertion order; the constraints still hold |
| Sync.SyncKeepsOtherUsers | src/jobs.ts:36-117 | a row keeps its value unless its key is the local-day key of a visited user who got past the row check and the external calls: rows of unvisited users, of skipped users, and of visited users' other dates are unchanged |
| Sync.SyncStoresFetched | src/jobs.ts:93-97 | every visited user whose external calls succeed ends the tick with the fetched payload under the local day's date, unless the row already there has a non-array `projects`, which then stays as it was |
| Sync.SyncAnnouncesCrossings | src/jobs.ts:108-113 | a user is announced iff they were visited, their external calls and both reads succeeded, and their sum went from below 900 s (or none) to above 900 s |
| Sync.SyncAnnouncesOnce | src/jobs.ts:36-117 | a tick announces each user at most once |
| Sync.ResyncIsQuiet | src/jobs.ts:93-113 | when every row already holds the payload to be written, or one whose read raises, the loop changes nothing and posts nothing |
| Sync.TickTwiceIsQuiet | src/jobs.ts:10-117 | repeating a tick on the same heartbeats and payloads changes nothing and posts nothing |
| Sync.CrossingIsAnnounced | src/jobs.ts:108 | a day whose readings go from below 900 s to above it, never reading exactly 900, is announced on some tick |
| Sync.MissedAtExactThreshold | src/jobs.ts:108 | readings 600, 900, 1000 are never announced (strict comparisons on both sides) |
| Sync.AnnouncedAtMostOnce | src/jobs.ts:108 | while a day's sum never falls it is announced on at most one tick |
| Reminders.LocalTimeOfDay | src/jobs.ts:137 | the user's time since local midnight is within one day |
| Reminders.IsSixPm | src/jobs.ts:137-141 | defined as the local clock (UTC getters on the instant shifted by the offset) reading hour 18 and minute 0; characterised by `SixPmIsOneMinuteADay` |
| Reminders.SixPmIsOneMinuteADay | src/jobs.ts:137-141 | the 18:00 test holds iff the local time of day is in [18:00:00.000, 18:01:00.000) |
| Reminders.SixPmWarnings | src/jobs.ts:122-149 | the pass posts the reminders of `Warnings`, in row order |
| Reminders.Warnings | src/jobs.ts:122-149 | at most one reminder per row, in row order; characterised by `WarningsGoToSixPmUsers` |
| Reminders.WarningsGoToSixPmUsers | src/jobs.ts:141-146 | a reminder is posted iff the row's local clock reads 18:00; it carries the row's label and goes to that user by direct message |
| Bot.StoredClanName | src/db.ts:27 | `VARCHAR(50)` stores a name of at most 50 characters unchanged; a longer name whose excess is all spaces is cut to exactly 50 characters; any other longer name is rejected; a stored value is a prefix of the name |
| Bot.AssignClan | src/bot.ts:96 | the update sets the user's `clan_id` when they have a row; no other row changes |
| Bot.AssignClanMembers | src/bot.ts:96 | the user joins the target team's members and leaves every other team; no other membership changes |
| Bot.CreateClan | src/bot.ts:85-130 | missing or over-long names are rejected and taken names are reported; on success the new team gets the next SERIAL id and its founder, and both messages are posted; on error nothing changes |
| Bot.Teammates | src/bot.ts:159-165 | the members of the team other than the joiner |
| Bot.JoinAnnouncesPreviousMembers | src/bot.ts:159-165 | the teammates announced are the team's members before the join, the joiner left out |
| Bot.JoinClan | src/bot.ts:133-190 | "Invalid code" iff no code was given or no team has it; otherwise the joiner moves into a team with that code and both messages are posted |
| Bot.InsertUserIfAbsent | src/bot.ts:257-260 | a missing `tz_label` or `tz_offset` fails; otherwise the row is inserted only when absent |
| Bot.ClanOf | src/bot.ts:261 | the left join yields a team iff the user's `clan_id` names an existing team |
| Bot.TeamBlockFor | src/bot.ts:273-303 | the team's name and code are shown iff the user has a team with a non-empty name, else the create/join buttons |
| Bot.SplitSpan | src/bot.ts:266-271 | hours in 0..23, minutes in 0..59, and the countdown falls short of the span by less than a minute |
| Bot.SplitSpanUnique | src/bot.ts:266-271 | the split is the only countdown with those bounds |
| Bot.SplitSpanNonNegative | src/bot.ts:266-267 | before the start the day count is not negative |
| Bot.SockCommand | src/bot.ts:243-303 | no profile, or no label or offset, ends without a view; otherwise the user is registered if absent and sees the split to the event start and their team block |
| Ui.RegisteredUsersStayIn | src/ui.ts:38-41 | a user with a row is never turned away |
| Ui.OpenAtTheStart | src/ui.ts:38-40 | at the exact start instant registration is still open |
| Ui.MissingOffsetIsUtc | src/ui.ts:36 | a missing offset gates like offset 0 |
| Ui.AdjustedNow | src/ui.ts:36 | defined as the clock shifted by the offset in seconds, a missing offset counting as 0; characterised by `MissingOffsetIsUtc` |
| Ui.RegistrationClosed | src/ui.ts:38-41 | defined as the adjusted clock being past the start for a user without a row; characterised by `RegisteredUsersStayIn`, `OpenAtTheStart` and `ClosedStaysClosed` |
| Ui.ClosedStaysClosed | src/ui.ts:38-41 | once closed for a user without a row, registration stays closed |
| Ui.CountdownSpan | src/ui.ts:82-85 | before the start the span reaches the start and is positive; from then on it reaches the end |
| Ui.StartsOrEnds | src/ui.ts:223 | defined as "Starts" before the start on the unshifted clock, else "Ends"; characterised by `WordCanDisagreeWithTarget` and `WordCanLagTheCountdown` |
| Ui.WordCanDisagreeWithTarget | src/ui.ts:223 | ahead of UTC just before the start, the view says "Starts" while counting down to the end |
| Ui.WordCanLagTheCountdown | src/ui.ts:223 | at offset 0, a clock that passes the start between the gate and the word gives "Ends" while the countdown targets the start |
| Ui.BuildSockView | src/ui.ts:9-91 | no id or name, then no profile, are errors; the "started" view is shown iff the gate closes; once the gate is passed, a profile without a label or offset is a registration error, and otherwise the view is the welcome view: the user is registered if absent and sees the word from the later clock reading, the split of the span and their team block |

## Left out

- Slack, Hakatime, HTTP and cron plumbing are not modelled: `ack`, view payloads, logging and message text. Each message is a `Notice` naming its audience and the values it interpolates; the lower-cased `tz_label` and the interpolated text are not modelled.
- The Hakatime sign-up and the summary request (jobs.ts:78-91) are not modelled; the payload they return is the `fetched` input.
- The Slack `users.info` lookup is an input. In the sync its failure is merged into "no fetched payload".
- The sync uses the Slack id of the heartbeat for both the lookup and the upsert; the model assumes `users.info` returns that same id.
- Heartbeats.Page: the table is given already sorted newest first; the `ORDER BY time DESC` is not re-checked.
- Time zones other than UTC for the server itself are not modelled: the `Date` constructor and getters in jobs.ts:53-76 are read as UTC.
- ISO date strings are modelled as day numbers.
- The countdown divisions use JavaScript floats; they are modelled as integer floor division, which is exact for these spans.
- Utils.UpperCase: handles ASCII letters only; Unicode case mapping is not modelled.
- Bot.CreateClan: a failed insert that still consumes a SERIAL value is not modelled. The join code from `Math.random()` is a parameter, and its uniqueness is not enforced (neither is it in the schema).
- Bot.CreateClan: the `process.exit()` on a missing `EVENT_CHANNEL` is not modelled; the channel is taken to be configured.
- The `users` columns `real_name`, `first_name`, `last_name`, `email` and `tz` are not modelled, and neither are the NOT NULL failures they can cause; only those of `tz_label` and `tz_offset` are.
- Bot.StoredClanName: assumes `clans` was created by `setUpDb` (src/db.ts:25-30) with `name VARCHAR(50)`. src/bot.ts:5-9 creates the same table with `name TEXT` and no `failed_at`, and whichever runs first decides the schema; under `TEXT` no name is truncated or rejected for its length.
- A payload whose `total` is not an integer would make the SQL cast fail; payloads are assumed well-typed.
- The root `bot.ts` (an older entry point), `ago()`, and the Hakatime block of the `/sock` view (`createWakaUser`, `getLatestWakaData`) are not part of this model.
- Concurrency is not modelled: overlapping cron ticks, the unawaited reminder callbacks each reading their own `Date.now()`, and interleaved Slack handlers.
- The reminder pass reads the `users` table once, when jobs are registered; the model takes that snapshot as its input rows.
- No code eliminates teams, sets `failed_at`, caps team size, filters project categories, or limits the announcement to the event's dates, so none of this is modelled.
