/** The three tables declared by `setUpDb` in src/db.ts and the read-only
    aggregate `getSecondsCoded`. */
module Db {
  import opened Wrappers
  import opened Time

  /** A row of `clans`, keyed by its SERIAL `id`. `failedAt` is the nullable
      `failed_at DATE` column; nothing in the modelled code sets it. */
  datatype Clan = Clan(name: string, joinCode: string, failedAt: Option<int>)

  /** The columns of a `users` row that the modelled code reads or writes;
      the row is keyed by `slack_id`. */
  datatype User = User(username: string, tzLabel: string, tzOffset: int, clanId: Option<int>)

  /** The primary key `(user_id, date)` of `user_hakatime_daily_summary`. */
  datatype SummaryKey = SummaryKey(userId: string, date: int)

  /** One element of the summary's `projects` array; `total` is the value of
      `project->>'total'`, absent or null when the element has none. */
  datatype Project = Project(name: string, total: Option<int>)

  /** The `projects` member of a payload: missing (the SQL path `summary->'projects'`
      is then NULL), present but not an array (JSON `null`, a number, a string
      or an object), or an array of projects. */
  datatype ProjectsField = Missing | NotAnArray | Elements(items: seq<Project>)

  /** The `summary` JSONB payload: its `projects` member and its other
      top-level lists. */
  datatype Summary = Summary(projects: ProjectsField, otherFields: map<string, seq<Project>>)

  /** `jsonb_array_elements` raises "cannot extract elements" on a value
      that is not an array, and the query fails with it. */
  datatype QueryError = CannotExtractElements

  /** `name VARCHAR(50)` */
  const MaxClanNameLength: int := 50

  /** `name` is UNIQUE among clans. */
  ghost predicate UniqueClanNames(clans: map<int, Clan>) {
    forall a, b :: a in clans && b in clans && clans[a].name == clans[b].name ==> a == b
  }

  /** `users.clan_id REFERENCES clans(id)` */
  ghost predicate ClanRefsExist(users: map<string, User>, clans: map<int, Clan>) {
    forall u :: u in users && users[u].clanId.Some? ==> users[u].clanId.value in clans
  }

  /** `user_hakatime_daily_summary.user_id REFERENCES users(slack_id)` */
  ghost predicate SummaryRefsExist(summaries: map<SummaryKey, Summary>, users: map<string, User>) {
    forall k :: k in summaries ==> k.userId in users
  }

  /** The database: one map per table, plus the `clans.id` SERIAL counter. */
  class Store {
    var clans: map<int, Clan>
    var users: map<string, User>
    var summaries: map<SummaryKey, Summary>
    var nextClanId: int

    /** The table constraints of `setUpDb`. */
    ghost predicate Valid()
      reads this
    {
      && 0 < nextClanId
      && (forall id :: id in clans ==> 0 < id < nextClanId)
      && (forall id :: id in clans ==> |clans[id].name| <= MaxClanNameLength)
      && UniqueClanNames(clans)
      && ClanRefsExist(users, clans)
      && SummaryRefsExist(summaries, users)
    }

    /** Freshly created tables. */
    constructor ()
      ensures Valid()
      ensures clans == map[] && users == map[] && summaries == map[] && nextClanId == 1
    {
      clans, users, summaries, nextClanId := map[], map[], map[], 1;
    }

    /** The summary upsert: on a conflict on `(user_id, date)` the new payload fully
        replaces any stored one. The foreign key demands that the user exists. */
    method UpsertSummary(key: SummaryKey, s: Summary)
      requires Valid()
      requires key.userId in users
      modifies this`summaries
      ensures Valid()
      ensures summaries == old(summaries)[key := s]
    {
      summaries := summaries[key := s];
    }
  }

  /** SQL `SUM((project->>'total')::int)` over the elements of a `projects`
      array: NULL totals are skipped, and the sum of no non-NULL value is NULL. */
  function SumTotals(ps: seq<Project>): (r: Option<int>)
    ensures r.None? <==> forall i :: 0 <= i < |ps| ==> ps[i].total.None?
  {
    if ps == [] then None
    else
      var rest := SumTotals(ps[1..]);
      match ps[0].total
      case None => rest
      case Some(x) => Some(x + rest.GetOr(0))
  }

  /** Combining two partial SQL sums. */
  function AddSums(a: Option<int>, b: Option<int>): Option<int> {
    if a.None? then b else if b.None? then a else Some(a.value + b.value)
  }

  /** The aggregate distributes over concatenation: summing the elements of
      `a + b` equals combining the sums of `a` and of `b`. */
  lemma {:induction false} SumTotalsAppend(a: seq<Project>, b: seq<Project>)
    ensures SumTotals(a + b) == AddSums(SumTotals(a), SumTotals(b))
  {
    if a == [] {
      assert a + b == b;
    } else {
      assert (a + b)[0] == a[0] && (a + b)[1..] == a[1..] + b;
      SumTotalsAppend(a[1..], b);
      var rest := SumTotals(a[1..] + b);
      assert SumTotals(a + b) == if a[0].total.None? then rest else Some(a[0].total.value + rest.GetOr(0));
    }
  }

  /** What the aggregate yields for the row holding payload `s`: an error
      when `projects` is not an array, NULL when it is missing or carries no
      total, and the sum of the totals otherwise. */
  function PayloadSeconds(s: Summary): (r: Result<Option<int>, QueryError>)
    ensures r.Err? <==> s.projects.NotAnArray?
    ensures r.Ok? ==>
              (r.value.None? <==> s.projects.Missing? || forall i :: 0 <= i < |s.projects.items| ==> s.projects.items[i].total.None?)
  {
    match s.projects
    case Missing => Ok(None)
    case NotAnArray => Err(CannotExtractElements)
    case Elements(items) => Ok(SumTotals(items))
  }

  /** `getSecondsCoded(slackId, date)`: the sum of the project totals of the
      summary stored under `(slackId, UTC date of t)`; NULL when there is no
      such row or no project total to add; an error when the row's
      `projects` is not an array. */
  function SecondsCoded(table: map<SummaryKey, Summary>, slackId: string, t: int): (r: Result<Option<int>, QueryError>)
    ensures r != Ok(None) ==> SummaryKey(slackId, UtcDay(t)) in table
  {
    var key := SummaryKey(slackId, UtcDay(t));
    if key in table then PayloadSeconds(table[key]) else Ok(None)
  }

  /** The query fails exactly when the row exists and its `projects` is not
      an array. It yields NULL exactly when there is no row for the key, the
      row has no `projects`, or none of its elements carries a total (in
      particular when the array is empty). */
  lemma SecondsCodedAbsent(table: map<SummaryKey, Summary>, slackId: string, t: int)
    ensures var key := SummaryKey(slackId, UtcDay(t));
            SecondsCoded(table, slackId, t).Err? <==> key in table && table[key].projects.NotAnArray?
    ensures var key := SummaryKey(slackId, UtcDay(t));
            SecondsCoded(table, slackId, t) == Ok(None) <==>
              || key !in table
              || table[key].projects.Missing?
              || (&& table[key].projects.Elements?
                  && forall i :: 0 <= i < |table[key].projects.items| ==> table[key].projects.items[i].total.None?)
  {
  }

  /** Two instants on the same UTC date read the same row. */
  lemma SecondsCodedSameDay(table: map<SummaryKey, Summary>, slackId: string, t1: int, t2: int)
    requires UtcDay(t1) == UtcDay(t2)
    ensures SecondsCoded(table, slackId, t1) == SecondsCoded(table, slackId, t2)
  {
  }

  /** Only `summary.projects` is read: payloads that differ in other fields,
      or tables that differ under other keys, give the same result. */
  lemma SecondsCodedReadsOnlyProjects(t1: map<SummaryKey, Summary>, t2: map<SummaryKey, Summary>, slackId: string, t: int)
    requires var key := SummaryKey(slackId, UtcDay(t));
             && (key in t1 <==> key in t2)
             && (key in t1 ==> t1[key].projects == t2[key].projects)
    ensures SecondsCoded(t1, slackId, t) == SecondsCoded(t2, slackId, t)
  {
  }

  /** Reading after an upsert: the key written yields the new payload's sum,
      every other key what it yielded before. */
  lemma SecondsCodedAfterUpsert(table: map<SummaryKey, Summary>, key: SummaryKey, s: Summary, slackId: string, t: int)
    ensures SecondsCoded(table[key := s], slackId, t) ==
      if key == SummaryKey(slackId, UtcDay(t))
      then PayloadSeconds(s)
      else SecondsCoded(table, slackId, t)
  {
  }
}
