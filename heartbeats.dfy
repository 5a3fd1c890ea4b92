/** The first half of the per-minute sync in src/jobs.ts: reading a page of
    heartbeats and reducing it to the latest heartbeat per Slack id. */
module Heartbeats {

  /** A row of the external `heartbeats` table: its id, the composite
      `user_id` whose last 11 characters are a Slack id, and its UTC time. */
  datatype Heartbeat = Heartbeat(id: int, userId: string, time: int)

  /** The `[heartbeats.id, heartbeats.time]` pair kept per Slack id. */
  datatype Tracked = Tracked(id: int, time: int)

  /** The JS `Map` `lastTrackedHbIds`: its entries, and its keys in insertion
      order (the order in which `entries()` visits them). */
  datatype Tracking = Tracking(latest: map<string, Tracked>, order: seq<string>)

  const SlackIdLength: int := 11
  const PageSize: int := 1000

  /** `userId.slice(-11)`: the last 11 characters, or the whole string when
      it is shorter. */
  function SlackIdOf(userId: string): (k: string)
    ensures |k| == if |userId| < SlackIdLength then |userId| else SlackIdLength
    ensures k == userId[|userId| - |k|..]
  {
    if |userId| <= SlackIdLength then userId else userId[|userId| - SlackIdLength..]
  }

  /** The rows of `ledger` whose id is above `cursor`, in ledger order. */
  function IdsAbove(ledger: seq<Heartbeat>, cursor: int): (r: seq<Heartbeat>)
    ensures |r| <= |ledger|
    ensures forall h :: h in r <==> h in ledger && h.id > cursor
  {
    if ledger == [] then []
    else (if ledger[0].id > cursor then [ledger[0]] else []) + IdsAbove(ledger[1..], cursor)
  }

  /** The query of the tick: at most 1000 heartbeats with an id above the
      cursor, newest first, where `ledger` lists the table newest first. */
  function Page(ledger: seq<Heartbeat>, cursor: int): (page: seq<Heartbeat>)
    ensures |page| <= PageSize
    ensures forall h :: h in page ==> h in ledger && h.id > cursor
    ensures |IdsAbove(ledger, cursor)| <= PageSize ==>
              forall h :: h in ledger && h.id > cursor ==> h in page
  {
    var rows := IdsAbove(ledger, cursor);
    if |rows| <= PageSize then rows else rows[..PageSize]
  }

  /** `Math.min(...ids)` */
  function MinOf(ids: seq<int>): (m: int)
    requires |ids| > 0
    ensures m in ids
    ensures forall i :: 0 <= i < |ids| ==> m <= ids[i]
  {
    if |ids| == 1 then ids[0]
    else
      var rest := MinOf(ids[1..]);
      if ids[0] <= rest then ids[0] else rest
  }

  /** No Slack id is listed twice. */
  ghost predicate Distinct(order: seq<string>) {
    forall i, j :: 0 <= i < j < |order| ==> order[i] != order[j]
  }

  /** The map's keys are listed once each in `order`, and nothing else is. */
  ghost predicate WellFormed(t: Tracking) {
    && Distinct(t.order)
    && (forall k :: k in t.order <==> k in t.latest)
  }

  /** `minIdToSearchFor`: 0 for an empty map, else the least stored id. */
  function MinIdToSearchFor(t: Tracking): (cursor: int)
    requires WellFormed(t)
    ensures t.latest == map[] ==> cursor == 0
    ensures t.latest != map[] ==>
              && (exists k :: k in t.latest && cursor == t.latest[k].id)
              && (forall k :: k in t.latest ==> cursor <= t.latest[k].id)
  {
    if |t.order| == 0 then
      assert t.latest.Keys == {};
      0
    else
      var ids := seq(|t.order|, i requires 0 <= i < |t.order| => t.latest[t.order[i]].id);
      var m := MinOf(ids);
      assert t.order[0] in t.latest;
      forall k | k in t.latest ensures m <= t.latest[k].id {
        var i :| 0 <= i < |t.order| && t.order[i] == k;
        assert ids[i] == t.latest[k].id;
      }
      var i :| 0 <= i < |ids| && ids[i] == m;
      assert t.order[i] in t.latest && m == t.latest[t.order[i]].id;
      m
  }

  /** The map is created afresh every tick, so the query always starts at 0. */
  lemma FreshTrackingSearchesFromZero()
    ensures WellFormed(Tracking(map[], []))
    ensures MinIdToSearchFor(Tracking(map[], [])) == 0
  {
  }

  /** One iteration of the reduction loop: the heartbeat replaces the entry
      of its Slack id when there is none or its id is strictly greater. */
  function Step(t: Tracking, hb: Heartbeat): (t': Tracking)
    ensures SlackIdOf(hb.userId) in t'.latest
    ensures t.latest.Keys <= t'.latest.Keys
    ensures t'.latest[SlackIdOf(hb.userId)].id >= hb.id
    ensures SlackIdOf(hb.userId) in t.latest ==> t'.latest[SlackIdOf(hb.userId)].id >= t.latest[SlackIdOf(hb.userId)].id
    ensures forall k :: k in t.latest && k != SlackIdOf(hb.userId) ==> t'.latest[k] == t.latest[k]
  {
    var k := SlackIdOf(hb.userId);
    if k !in t.latest then Tracking(t.latest[k := Tracked(hb.id, hb.time)], t.order + [k])
    else if hb.id > t.latest[k].id then Tracking(t.latest[k := Tracked(hb.id, hb.time)], t.order)
    else t
  }

  /** The map after the reduction loop has visited `rows` in order. */
  function Track(rows: seq<Heartbeat>): (t: Tracking)
    ensures |t.order| <= |rows|
    decreases |rows|
  {
    if rows == [] then Tracking(map[], []) else Step(Track(rows[..|rows| - 1]), rows[|rows| - 1])
  }

  /** The reduction loop of the tick, run on a fresh map. */
  method ReduceHeartbeats(rows: seq<Heartbeat>) returns (latest: map<string, Tracked>, order: seq<string>)
    ensures Tracking(latest, order) == Track(rows)
  {
    latest, order := map[], [];
    for i := 0 to |rows|
      invariant Tracking(latest, order) == Track(rows[..i])
    {
      var hb := rows[i];
      assert rows[..i + 1][..i] == rows[..i];
      ghost var next := Step(Tracking(latest, order), hb);
      var slackId := SlackIdOf(hb.userId);
      if slackId !in latest || hb.id > latest[slackId].id {
        if slackId !in latest {
          order := order + [slackId];
        }
        latest := latest[slackId := Tracked(hb.id, hb.time)];
      }
      assert Tracking(latest, order) == next;
    }
    assert rows[..|rows|] == rows;
  }

  /** Row `i` is the one the reduction keeps for Slack id `k`: it carries `k`,
      no row of `k` has a greater id, and every earlier row of `k` has a
      smaller one (among equal ids the first row wins). */
  ghost predicate KeptFor(rows: seq<Heartbeat>, k: string, i: int) {
    && 0 <= i < |rows|
    && SlackIdOf(rows[i].userId) == k
    && (forall j :: 0 <= j < |rows| && SlackIdOf(rows[j].userId) == k ==> rows[j].id <= rows[i].id)
    && (forall j :: 0 <= j < i && SlackIdOf(rows[j].userId) == k ==> rows[j].id < rows[i].id)
  }

  /** The Slack ids of the rows. */
  ghost function SlackIds(rows: seq<Heartbeat>): set<string> {
    set i | 0 <= i < |rows| :: SlackIdOf(rows[i].userId)
  }

  lemma StepKeys(t: Tracking, hb: Heartbeat)
    requires WellFormed(t)
    ensures WellFormed(Step(t, hb))
    ensures Step(t, hb).latest.Keys == t.latest.Keys + {SlackIdOf(hb.userId)}
  {
    var k := SlackIdOf(hb.userId);
    if k !in t.latest {
      var order := t.order + [k];
      assert forall i :: 0 <= i < |t.order| ==> order[i] == t.order[i];
      assert forall x :: x in order <==> x in t.order || x == k;
    }
  }

  /** Appending a row adds its Slack id to those of the prefix. */
  lemma SlackIdsAppend(rows: seq<Heartbeat>)
    requires rows != []
    ensures SlackIds(rows) == SlackIds(rows[..|rows| - 1]) + {SlackIdOf(rows[|rows| - 1].userId)}
  {
    var init := rows[..|rows| - 1];
    forall k | k in SlackIds(rows) ensures k in SlackIds(init) + {SlackIdOf(rows[|rows| - 1].userId)} {
      var i :| 0 <= i < |rows| && SlackIdOf(rows[i].userId) == k;
      if i < |init| { assert init[i] == rows[i]; }
    }
    forall k | k in SlackIds(init) ensures k in SlackIds(rows) {
      var i :| 0 <= i < |init| && SlackIdOf(init[i].userId) == k;
      assert rows[i] == init[i];
    }
  }

  /** The keys are exactly the Slack ids present, each listed once in `order`. */
  lemma {:induction false} TrackKeys(rows: seq<Heartbeat>)
    ensures WellFormed(Track(rows))
    ensures Track(rows).latest.Keys == SlackIds(rows)
  {
    if rows != [] {
      var init := rows[..|rows| - 1];
      TrackKeys(init);
      StepKeys(Track(init), rows[|rows| - 1]);
      SlackIdsAppend(rows);
    }
  }

  /** A row kept for `k` in a prefix stays kept when a row that does not
      beat it is appended. */
  lemma KeptForExtend(rows: seq<Heartbeat>, k: string, i: int)
    requires |rows| > 0
    requires KeptFor(rows[..|rows| - 1], k, i)
    requires SlackIdOf(rows[|rows| - 1].userId) == k ==> rows[|rows| - 1].id <= rows[i].id
    ensures KeptFor(rows, k, i)
  {
    var init := rows[..|rows| - 1];
    assert forall j :: 0 <= j < |init| ==> rows[j] == init[j];
  }

  /** The appended row is kept for its own Slack id when every earlier row
      of that id has a smaller id. */
  lemma KeptForLast(rows: seq<Heartbeat>, k: string)
    requires |rows| > 0 && SlackIdOf(rows[|rows| - 1].userId) == k
    requires forall j :: 0 <= j < |rows| - 1 && SlackIdOf(rows[j].userId) == k ==> rows[j].id < rows[|rows| - 1].id
    ensures KeptFor(rows, k, |rows| - 1)
  {
  }

  /** The index of the row the reduction keeps for `k`. */
  lemma {:induction false} KeptIndex(rows: seq<Heartbeat>, k: string) returns (i: int)
    requires k in Track(rows).latest
    ensures KeptFor(rows, k, i) && Track(rows).latest[k] == Tracked(rows[i].id, rows[i].time)
  {
    assert rows != [];
    var n := |rows|;
    var init := rows[..n - 1];
    var hb := rows[n - 1];
    var prev := Track(init);
    assert Track(rows) == Step(prev, hb);
    if k != SlackIdOf(hb.userId) || (k in prev.latest && hb.id <= prev.latest[k].id) {
      i := KeptIndex(init, k);
      KeptForExtend(rows, k, i);
    } else {
      if k in prev.latest {
        var p := KeptIndex(init, k);
        KeptBeaten(rows, k, p);
      } else {
        TrackKeys(init);
        KeptFresh(rows, k);
      }
      i := n - 1;
    }
  }

  /** A Slack id absent from the prefix is kept at its first row. */
  lemma KeptFresh(rows: seq<Heartbeat>, k: string)
    requires |rows| > 0 && SlackIdOf(rows[|rows| - 1].userId) == k
    requires k !in SlackIds(rows[..|rows| - 1])
    ensures KeptFor(rows, k, |rows| - 1)
  {
    var init := rows[..|rows| - 1];
    forall j | 0 <= j < |rows| - 1 ensures SlackIdOf(rows[j].userId) != k {
      assert init[j] == rows[j];
      assert SlackIdOf(init[j].userId) in SlackIds(init);
    }
    KeptForLast(rows, k);
  }

  /** A row whose id beats the prefix's kept row is kept. */
  lemma KeptBeaten(rows: seq<Heartbeat>, k: string, p: int)
    requires |rows| > 0 && SlackIdOf(rows[|rows| - 1].userId) == k
    requires KeptFor(rows[..|rows| - 1], k, p)
    requires rows[|rows| - 1].id > rows[p].id
    ensures KeptFor(rows, k, |rows| - 1)
  {
    var init := rows[..|rows| - 1];
    forall j | 0 <= j < |rows| - 1 && SlackIdOf(rows[j].userId) == k ensures rows[j].id < rows[|rows| - 1].id {
      assert init[j] == rows[j];
    }
    KeptForLast(rows, k);
  }

  /** Each kept entry is the heartbeat with the greatest id among the rows
      of its Slack id (not the one with the latest time). */
  lemma TrackKeepsGreatestId(rows: seq<Heartbeat>, k: string)
    requires k in Track(rows).latest
    ensures exists i :: KeptFor(rows, k, i) && Track(rows).latest[k] == Tracked(rows[i].id, rows[i].time)
  {
    var i := KeptIndex(rows, k);
  }

  /** Two heartbeats of one user, the later one in time carrying the smaller
      id: the reduction keeps the one with the greater id. */
  lemma GreaterIdBeatsLaterTime()
    ensures var rows := [Heartbeat(7, "waka-U0123456789", 100), Heartbeat(5, "waka-U0123456789", 200)];
            Track(rows).latest == map["U0123456789" := Tracked(7, 100)]
  {
    var rows := [Heartbeat(7, "waka-U0123456789", 100), Heartbeat(5, "waka-U0123456789", 200)];
    assert SlackIdOf(rows[0].userId) == "U0123456789";
    assert rows[..1][..0] == [];
    assert rows[..|rows| - 1] == rows[..1];
  }
}
