/** The per-minute sync of src/jobs.ts (`registerJobs`' cron callback): read
    a page of heartbeats, keep the latest per Slack id, store each user's
    recomputed summary for the local day of that heartbeat, and announce the
    users who just passed 15 minutes of coding for that day.

    The external reads are inputs: `ledger` is the heartbeats table in
    `ORDER BY time DESC` order, and `fetched` maps a Slack id to the summary
    payload that the Slack lookup, the Hakatime sign-up and the summary
    request return for it; an id without an entry is one for which one of
    those calls throws, which the loop catches. */
module Sync {
  import opened Wrappers
  import opened Time
  import opened Db
  import opened Heartbeats
  import opened LocalDay
  import opened Messages

  const ThresholdSeconds: int := 15 * 60

  /** The test of jobs.ts:108, with `before` already coalesced to 0 when it
      has no value (jobs.ts:93-94) and `after` not: `null > 900` is false. */
  predicate CrossesThreshold(before: Option<int>, after: Option<int>)
    ensures CrossesThreshold(before, after) ==> after.Some? && before.GetOr(0) < after.value
  {
    before.GetOr(0) < ThresholdSeconds && after.Some? && after.value > ThresholdSeconds
  }

  /** The summary table and the messages posted so far in a tick. */
  datatype SyncState = SyncState(summaries: map<SummaryKey, Summary>, notices: seq<Notice>)

  /** The key the tick writes for a user: the user and the UTC date of the
      start of the local day of their latest heartbeat. */
  function KeyFor(users: map<string, User>, latest: map<string, Tracked>, slackId: string): SummaryKey
    requires slackId in users && slackId in latest
  {
    SummaryKey(slackId, SummaryDate(LocalDayWindow(latest[slackId].time, users[slackId].tzOffset)))
  }

  /** The UTC instant of the local midnight that starts the day of the
      user's latest heartbeat. */
  function WindowStart(users: map<string, User>, latest: map<string, Tracked>, slackId: string): int
    requires slackId in users && slackId in latest
  {
    LocalDayWindow(latest[slackId].time, users[slackId].tzOffset).startUtc
  }

  /** Whether the iteration for a Slack id gets as far as reading the sum
      before the upsert: the user has a `users` row (else `continue`) and the
      external calls succeed (else the exception is caught). */
  predicate Reaches(users: map<string, User>, fetched: map<string, Summary>, latest: map<string, Tracked>, slackId: string) {
    slackId in users && slackId in fetched && slackId in latest
  }

  /** One iteration of the second loop of the tick (jobs.ts:40-116). */
  function SyncUser(st: SyncState, users: map<string, User>, fetched: map<string, Summary>,
                    latest: map<string, Tracked>, slackId: string): (r: SyncState)
    ensures st.notices <= r.notices && |r.notices| <= |st.notices| + 1
  {
    if !Reaches(users, fetched, latest, slackId) then st
    else
      var w := LocalDayWindow(latest[slackId].time, users[slackId].tzOffset);
      var before := SecondsCoded(st.summaries, slackId, w.startUtc);
      if before.Err? then st
      else
        var summaries := st.summaries[SummaryKey(slackId, SummaryDate(w)) := fetched[slackId]];
        var after := SecondsCoded(summaries, slackId, w.startUtc);
        var crossed := after.Ok? && CrossesThreshold(before.value, after.value);
        SyncState(summaries, st.notices + if crossed then [FifteenMinutes(slackId)] else [])
  }

  /** The second loop over the Slack ids `order`, in that order. */
  function SyncAll(st: SyncState, users: map<string, User>, fetched: map<string, Summary>,
                   latest: map<string, Tracked>, order: seq<string>): (r: SyncState)
    ensures st.notices <= r.notices && |r.notices| <= |st.notices| + |order|
    decreases |order|
  {
    if order == [] then st
    else SyncUser(SyncAll(st, users, fetched, latest, order[..|order| - 1]), users, fetched, latest, order[|order| - 1])
  }

  /** The body of the second loop for one Slack id: read the sum, upsert the
      fetched payload, read the sum again and post the notice when it crosses
      the threshold. A read that raises ends the iteration (the exception is
      caught): before the upsert nothing is written, after it nothing is
      posted. */
  method SyncOneUser(store: Store, latest: map<string, Tracked>, fetched: map<string, Summary>,
                     slackId: string, notices: seq<Notice>) returns (notices': seq<Notice>)
    requires store.Valid()
    modifies store`summaries
    ensures store.Valid()
    ensures SyncState(store.summaries, notices') ==
              SyncUser(SyncState(old(store.summaries), notices), store.users, fetched, latest, slackId)
  {
    notices' := notices;
    if Reaches(store.users, fetched, latest, slackId) {
      var user := store.users[slackId];
      var w := LocalDayWindow(latest[slackId].time, user.tzOffset);
      var secondsBefore := SecondsCoded(store.summaries, slackId, w.startUtc);
      if secondsBefore.Err? {
        return;
      }
      var date := SummaryDate(w);
      store.UpsertSummary(SummaryKey(slackId, date), fetched[slackId]);
      var secondsAfter := SecondsCoded(store.summaries, slackId, w.startUtc);
      if secondsAfter.Err? {
        return;
      }
      if CrossesThreshold(secondsBefore.value, secondsAfter.value) {
        notices' := notices' + [FifteenMinutes(slackId)];
      }
    }
  }

  /** The loop over a prefix one longer: one more iteration. */
  lemma SyncAllStep(st: SyncState, users: map<string, User>, fetched: map<string, Summary>,
                    latest: map<string, Tracked>, order: seq<string>, i: int)
    requires 0 <= i < |order|
    ensures SyncAll(st, users, fetched, latest, order[..i + 1]) ==
              SyncUser(SyncAll(st, users, fetched, latest, order[..i]), users, fetched, latest, order[i])
  {
    assert order[..i + 1][..i] == order[..i];
  }

  /** One tick of the cron job. Only the summary table changes. */
  method SyncTick(store: Store, ledger: seq<Heartbeat>, fetched: map<string, Summary>) returns (notices: seq<Notice>)
    requires store.Valid()
    modifies store`summaries
    ensures store.Valid()
    ensures Page(ledger, 0) == [] ==> store.summaries == old(store.summaries) && notices == []
    ensures var t := Track(Page(ledger, 0));
            SyncState(store.summaries, notices) == SyncAll(SyncState(old(store.summaries), []), store.users, fetched, t.latest, t.order)
  {
    FreshTrackingSearchesFromZero();
    var minIdToSearchFor := MinIdToSearchFor(Tracking(map[], []));
    var recentHeartbeats := Page(ledger, minIdToSearchFor);
    if |recentHeartbeats| == 0 {
      return [];
    }
    var latest, order := ReduceHeartbeats(recentHeartbeats);
    notices := [];
    for i := 0 to |order|
      invariant store.Valid()
      invariant SyncState(store.summaries, notices) == SyncAll(SyncState(old(store.summaries), []), store.users, fetched, latest, order[..i])
    {
      SyncAllStep(SyncState(old(store.summaries), []), store.users, fetched, latest, order, i);
      notices := SyncOneUser(store, latest, fetched, order[i], notices);
    }
    assert order[..|order|] == order;
  }

  /** The tick writes no key other than the one of a visited user who gets
      as far as the upsert: the rows of users it does not visit, of users it
      skips (no `users` row, or an external call threw), and every other
      date of a visited user are left as they were. */
  lemma {:induction false} SyncKeepsOtherUsers(st: SyncState, users: map<string, User>, fetched: map<string, Summary>,
                                               latest: map<string, Tracked>, order: seq<string>, key: SummaryKey)
    requires forall u :: u in order && Reaches(users, fetched, latest, u) ==> KeyFor(users, latest, u) != key
    ensures var r := SyncAll(st, users, fetched, latest, order);
            && (key in r.summaries <==> key in st.summaries)
            && (key in st.summaries ==> r.summaries[key] == st.summaries[key])
  {
    if order != [] {
      var init := order[..|order| - 1];
      assert forall u :: u in init ==> u in order;
      SyncKeepsOtherUsers(st, users, fetched, latest, init, key);
    }
  }

  /** Every visited user whose external calls succeed ends the tick with the
      fetched payload stored under the date of their latest heartbeat's local
      day, whatever happens to the other users, unless the row already stored
      there has a `projects` that is not an array: the read before the upsert
      then raises and the row stays as it was. */
  lemma {:induction false} SyncStoresFetched(st: SyncState, users: map<string, User>, fetched: map<string, Summary>,
                                             latest: map<string, Tracked>, order: seq<string>, slackId: string)
    requires Distinct(order)
    requires slackId in order && Reaches(users, fetched, latest, slackId)
    ensures var r := SyncAll(st, users, fetched, latest, order);
            var key := KeyFor(users, latest, slackId);
            if SecondsCoded(st.summaries, slackId, WindowStart(users, latest, slackId)).Ok?
            then key in r.summaries && r.summaries[key] == fetched[slackId]
            else key in st.summaries && st.summaries[key].projects.NotAnArray? && key in r.summaries && r.summaries[key] == st.summaries[key]
  {
    var init := order[..|order| - 1];
    var last := order[|order| - 1];
    var key := KeyFor(users, latest, slackId);
    if last != slackId {
      var i :| 0 <= i < |order| && order[i] == slackId;
      assert init[i] == slackId;
      SyncStoresFetched(st, users, fetched, latest, init, slackId);
    } else {
      assert forall u :: u in init ==> u != slackId;
      SyncKeepsOtherUsers(st, users, fetched, latest, init, key);
    }
  }

  /** The tick announces a user exactly when they are visited, their
      external calls succeed, both reads of the sum succeed, and the sum read
      before the upsert (coalesced to 0) is below 900 while the new payload's
      sum is above 900. */
  lemma {:induction false} SyncAnnouncesCrossings(st: SyncState, users: map<string, User>, fetched: map<string, Summary>,
                                                  latest: map<string, Tracked>, order: seq<string>, slackId: string)
    requires Distinct(order)
    ensures var r := SyncAll(st, users, fetched, latest, order);
            FifteenMinutes(slackId) in r.notices <==>
              || FifteenMinutes(slackId) in st.notices
              || (&& slackId in order
                  && Reaches(users, fetched, latest, slackId)
                  && var before := SecondsCoded(st.summaries, slackId, WindowStart(users, latest, slackId));
                     var after := PayloadSeconds(fetched[slackId]);
                     before.Ok? && after.Ok? && CrossesThreshold(before.value, after.value))
  {
    if order != [] {
      var init := order[..|order| - 1];
      var last := order[|order| - 1];
      assert Distinct(init);
      SyncAnnouncesCrossings(st, users, fetched, latest, init, slackId);
      var prev := SyncAll(st, users, fetched, latest, init);
      assert slackId in order <==> slackId in init || slackId == last;
      if last == slackId {
        assert slackId !in init;
        if Reaches(users, fetched, latest, slackId) {
          var start := WindowStart(users, latest, slackId);
          var key := SummaryKey(slackId, UtcDay(start));
          assert forall u :: u in init ==> u != slackId;
          SyncKeepsOtherUsers(st, users, fetched, latest, init, key);
          assert SecondsCoded(prev.summaries, slackId, start) == SecondsCoded(st.summaries, slackId, start);
          SecondsCodedAfterUpsert(prev.summaries, key, fetched[slackId], slackId, start);
        }
      }
    }
  }

  /** A tick announces each user at most once. */
  lemma {:induction false} SyncAnnouncesOnce(st: SyncState, users: map<string, User>, fetched: map<string, Summary>,
                                             latest: map<string, Tracked>, order: seq<string>, slackId: string)
    requires Distinct(order)
    requires FifteenMinutes(slackId) !in st.notices
    ensures multiset(SyncAll(st, users, fetched, latest, order).notices)[FifteenMinutes(slackId)] <= 1
  {
    if order != [] {
      var init := order[..|order| - 1];
      var last := order[|order| - 1];
      assert Distinct(init);
      SyncAnnouncesOnce(st, users, fetched, latest, init, slackId);
      if last == slackId {
        assert slackId !in init;
        SyncAnnouncesCrossings(st, users, fetched, latest, init, slackId);
      }
    }
  }

  /** When every visited user's row already holds what the tick would write,
      or holds a payload whose read raises, the tick changes nothing and posts
      nothing. */
  lemma {:induction false} ResyncIsQuiet(st: SyncState, users: map<string, User>, fetched: map<string, Summary>,
                                         latest: map<string, Tracked>, order: seq<string>)
    requires forall id :: id in order && Reaches(users, fetched, latest, id) ==>
               && KeyFor(users, latest, id) in st.summaries
               && (st.summaries[KeyFor(users, latest, id)] == fetched[id] || st.summaries[KeyFor(users, latest, id)].projects.NotAnArray?)
    ensures SyncAll(st, users, fetched, latest, order) == st
  {
    if order != [] {
      var init := order[..|order| - 1];
      var last := order[|order| - 1];
      ResyncIsQuiet(st, users, fetched, latest, init);
      if Reaches(users, fetched, latest, last) && st.summaries[KeyFor(users, latest, last)] == fetched[last] {
        var key := KeyFor(users, latest, last);
        assert st.summaries[key := fetched[last]] == st.summaries;
      }
    }
  }

  /** Running the tick a second time on the same heartbeats and payloads
      leaves the summaries as the first run left them and posts no message:
      an identical upsert yields the same stored record and the same sum,
      and a row whose read raised before still raises. */
  lemma TickTwiceIsQuiet(summaries: map<SummaryKey, Summary>, users: map<string, User>,
                         ledger: seq<Heartbeat>, fetched: map<string, Summary>)
    ensures var t := Track(Page(ledger, 0));
            var first := SyncAll(SyncState(summaries, []), users, fetched, t.latest, t.order);
            SyncAll(SyncState(first.summaries, []), users, fetched, t.latest, t.order) == SyncState(first.summaries, [])
  {
    var t := Track(Page(ledger, 0));
    TrackKeys(Page(ledger, 0));
    var first := SyncAll(SyncState(summaries, []), users, fetched, t.latest, t.order);
    forall id | id in t.order && Reaches(users, fetched, t.latest, id)
      ensures && KeyFor(users, t.latest, id) in first.summaries
              && (|| first.summaries[KeyFor(users, t.latest, id)] == fetched[id]
                  || first.summaries[KeyFor(users, t.latest, id)].projects.NotAnArray?)
    {
      SyncStoresFetched(SyncState(summaries, []), users, fetched, t.latest, t.order, id);
    }
    ResyncIsQuiet(SyncState(first.summaries, []), users, fetched, t.latest, t.order);
  }

  /** Some consecutive pair of readings of one user's day triggers the notice. */
  ghost predicate AnnouncedSomewhere(readings: seq<Option<int>>) {
    exists i :: 0 <= i < |readings| - 1 && CrossesThreshold(readings[i], readings[i + 1])
  }

  /** A day whose readings go from below 900 to above 900 is announced on
      some tick, provided no reading is exactly 900. */
  lemma {:induction false} CrossingIsAnnounced(readings: seq<Option<int>>)
    requires |readings| > 0
    requires readings[0].GetOr(0) < ThresholdSeconds
    requires readings[|readings| - 1].GetOr(0) > ThresholdSeconds
    requires forall i :: 0 <= i < |readings| ==> readings[i] != Some(ThresholdSeconds)
    ensures AnnouncedSomewhere(readings)
  {
    if readings[1].GetOr(0) >= ThresholdSeconds {
      assert CrossesThreshold(readings[0], readings[1]);
    } else {
      var rest := readings[1..];
      CrossingIsAnnounced(rest);
      var i :| 0 <= i < |rest| - 1 && CrossesThreshold(rest[i], rest[i + 1]);
      assert CrossesThreshold(readings[i + 1], readings[i + 2]);
    }
  }

  /** A day whose sum is exactly 900 on one tick is never announced when it
      grows past 900 on the next: 600, 900 and then 1000 seconds post nothing. */
  lemma MissedAtExactThreshold()
    ensures !AnnouncedSomewhere([Some(600), Some(900), Some(1000)])
  {
    var r := [Some(600), Some(900), Some(1000)];
    forall i | 0 <= i < |r| - 1 ensures !CrossesThreshold(r[i], r[i + 1]) {
    }
  }

  /** Readings that never decrease (absent counting as 0). */
  ghost predicate Growing(readings: seq<Option<int>>) {
    forall i :: 0 <= i < |readings| - 1 ==> readings[i].GetOr(0) <= readings[i + 1].GetOr(0)
  }

  lemma {:induction false} GrowingSpan(readings: seq<Option<int>>, i: int, j: int)
    requires Growing(readings)
    requires 0 <= i <= j < |readings|
    ensures readings[i].GetOr(0) <= readings[j].GetOr(0)
  {
    if i < j {
      GrowingSpan(readings, i, j - 1);
    }
  }

  /** While a day's sum never decreases it is announced at most once. */
  lemma AnnouncedAtMostOnce(readings: seq<Option<int>>, i: int, j: int)
    requires Growing(readings)
    requires 0 <= i < j < |readings| - 1
    requires CrossesThreshold(readings[i], readings[i + 1])
    ensures !CrossesThreshold(readings[j], readings[j + 1])
  {
    GrowingSpan(readings, i + 1, j);
  }
}
