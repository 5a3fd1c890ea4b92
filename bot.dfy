/** The team transactions and the `/sock` command of src/bot.ts: creating a
    team (`modal-clan-create`), joining one by its code (`modal-clan-join`),
    registering the user on `/sock`, and the days/hours/minutes countdown.
    Join codes come from `Math.random()` and are a parameter here. */
module Bot {
  import opened Wrappers
  import opened Time
  import opened Db
  import opened Messages

  /** The fields of Slack's `users.info` profile that are written to `users`;
      either may be missing from the answer. */
  datatype Profile = Profile(tzLabel: Option<string>, tzOffset: Option<int>)

  /** The profile supplies the `NOT NULL` columns `tz_label` and `tz_offset`. */
  predicate FillsRequiredColumns(p: Profile) {
    p.tzLabel.Some? && p.tzOffset.Some?
  }

  /** The error the create form shows: "This team name is already taken!"
      for a unique violation (`23505`), the error's own text otherwise. */
  datatype CreateError = NameTaken | CreateRejected
  /** "Invalid code!" */
  datatype JoinError = InvalidCode
  /** `/sock` ends without a view: the profile lookup failed (logged), or the
      insert threw. */
  datatype SockError = ProfileUnavailable | InsertRejected

  /** 2025-02-10T00:00:00Z */
  const EventStart: int := 1_739_145_600_000

  /** The value a `VARCHAR(50)` column stores for `name`: the name itself when
      it fits, the name cut to 50 characters when all the excess is spaces,
      and an error otherwise. */
  function StoredClanName(name: string): (stored: Option<string>)
    ensures stored.Some? ==> |stored.value| <= MaxClanNameLength && |stored.value| <= |name| && stored.value == name[..|stored.value|]
    ensures stored.Some? ==> |stored.value| == if |name| <= MaxClanNameLength then |name| else MaxClanNameLength
    ensures stored.Some? <==> |name| <= MaxClanNameLength || forall i :: MaxClanNameLength <= i < |name| ==> name[i] == ' '
  {
    if |name| <= MaxClanNameLength then Some(name)
    else if forall i :: MaxClanNameLength <= i < |name| ==> name[i] == ' ' then Some(name[..MaxClanNameLength])
    else None
  }

  ghost predicate NameInUse(clans: map<int, Clan>, name: string) {
    exists id :: id in clans && clans[id].name == name
  }

  ghost predicate CodeInUse(clans: map<int, Clan>, joinCode: string) {
    exists id :: id in clans && clans[id].joinCode == joinCode
  }

  /** Setting the user's `clan_id`: no row changes when the user has none. */
  function AssignClan(users: map<string, User>, slackId: string, clanId: int): (r: map<string, User>)
    ensures r.Keys == users.Keys
    ensures forall u :: u in users && u != slackId ==> r[u] == users[u]
    ensures slackId in users ==> r[slackId] == users[slackId].(clanId := Some(clanId))
  {
    if slackId in users then users[slackId := users[slackId].(clanId := Some(clanId))] else users
  }

  /** The Slack ids whose `clan_id` is `clanId`. */
  function Members(users: map<string, User>, clanId: int): set<string> {
    set u | u in users && users[u].clanId == Some(clanId)
  }

  /** Assigning a user to a team adds that user to its members, removes them
      from every other team, and changes no other membership. */
  lemma AssignClanMembers(users: map<string, User>, slackId: string, clanId: int, other: int)
    requires other != clanId
    ensures Members(AssignClan(users, slackId, clanId), clanId) ==
              Members(users, clanId) + (if slackId in users then {slackId} else {})
    ensures Members(AssignClan(users, slackId, clanId), other) == Members(users, other) - {slackId}
  {
  }

  /** `modal-clan-create`: in one transaction, insert the team and put its
      creator in it; on any error neither happens. */
  method CreateClan(store: Store, creator: string, newClanName: Option<string>, joinCode: string)
    returns (r: Result<int, CreateError>, notices: seq<Notice>)
    requires store.Valid()
    modifies store`clans, store`users, store`nextClanId
    ensures store.Valid()
    ensures r.Err? ==> && store.clans == old(store.clans) && store.users == old(store.users)
                       && store.nextClanId == old(store.nextClanId) && notices == []
    ensures r == Err(CreateRejected) <==> newClanName.None? || StoredClanName(newClanName.value).None?
    ensures r == Err(NameTaken) <==>
              && newClanName.Some? && StoredClanName(newClanName.value).Some?
              && NameInUse(old(store.clans), StoredClanName(newClanName.value).value)
    ensures r.Ok? ==>
              && newClanName.Some? && StoredClanName(newClanName.value).Some?
              && r.value == old(store.nextClanId) && r.value !in old(store.clans)
              && store.clans == old(store.clans)[r.value := Clan(StoredClanName(newClanName.value).value, joinCode, None)]
              && store.users == AssignClan(old(store.users), creator, r.value)
              && notices == [TeamFounded(creator, newClanName.value), TeamCreated(creator, newClanName.value, joinCode)]
  {
    if newClanName.None? {
      return Err(CreateRejected), [];
    }
    var stored := StoredClanName(newClanName.value);
    if stored.None? {
      return Err(CreateRejected), [];
    }
    if exists id :: id in store.clans && store.clans[id].name == stored.value {
      return Err(NameTaken), [];
    }
    var id := store.nextClanId;
    store.clans := store.clans[id := Clan(stored.value, joinCode, None)];
    store.nextClanId := store.nextClanId + 1;
    store.users := AssignClan(store.users, creator, id);
    r := Ok(id);
    notices := [TeamFounded(creator, newClanName.value), TeamCreated(creator, newClanName.value, joinCode)];
  }

  /** The teammates announced on a join: the team's members other than the
      joiner. */
  function Teammates(users: map<string, User>, clanId: int, joiner: string): (others: set<string>)
    ensures joiner !in others
    ensures forall u :: u in others <==> u in Members(users, clanId) && u != joiner
  {
    Members(users, clanId) - {joiner}
  }

  /** The teammates announced are exactly the members the team had before
      the joiner arrived. */
  lemma JoinAnnouncesPreviousMembers(users: map<string, User>, clanId: int, joiner: string)
    ensures Teammates(AssignClan(users, joiner, clanId), clanId, joiner) == Members(users, clanId) - {joiner}
  {
    if joiner in users {
      assert Members(AssignClan(users, joiner, clanId), clanId) == Members(users, clanId) + {joiner};
    }
  }

  /** `modal-clan-join`: find a team with the code (the first row of an
      unordered select, so any one of them) and move the joiner into it. No
      member count is checked and a previous team is left silently. */
  method JoinClan(store: Store, joiner: string, joinCode: Option<string>)
    returns (r: Result<int, JoinError>, notices: seq<Notice>)
    requires store.Valid()
    modifies store`users
    ensures store.Valid()
    ensures r.Err? <==> joinCode.None? || !CodeInUse(store.clans, joinCode.value)
    ensures r.Err? ==> store.users == old(store.users) && notices == []
    ensures r.Ok? ==>
              && joinCode.Some? && r.value in store.clans && store.clans[r.value].joinCode == joinCode.value
              && store.users == AssignClan(old(store.users), joiner, r.value)
              && notices == [TeamJoined(joiner, store.clans[r.value].name, Teammates(store.users, r.value, joiner)),
                             TeamWelcome(joiner, store.clans[r.value].name, store.clans[r.value].joinCode)]
  {
    if joinCode.None? || !(exists id :: id in store.clans && store.clans[id].joinCode == joinCode.value) {
      return Err(InvalidCode), [];
    }
    var id :| id in store.clans && store.clans[id].joinCode == joinCode.value;
    store.users := AssignClan(store.users, joiner, id);
    var clan := store.clans[id];
    var others := Teammates(store.users, id, joiner);
    r := Ok(id);
    notices := [TeamJoined(joiner, clan.name, others), TeamWelcome(joiner, clan.name, clan.joinCode)];
  }

  /** Inserting the user's row unless one exists (ON CONFLICT DO NOTHING). A missing
      `tz_label` or `tz_offset` violates `NOT NULL`, which is checked before
      the conflict, so the insert then throws even for a user who already has
      a row. */
  method InsertUserIfAbsent(store: Store, slackId: string, username: string, profile: Profile) returns (ok: bool)
    requires store.Valid()
    modifies store`users
    ensures store.Valid()
    ensures ok <==> FillsRequiredColumns(profile)
    ensures ok && slackId !in old(store.users) ==>
              store.users == old(store.users)[slackId := User(username, profile.tzLabel.value, profile.tzOffset.value, None)]
    ensures !ok || slackId in old(store.users) ==> store.users == old(store.users)
  {
    if profile.tzLabel.None? || profile.tzOffset.None? {
      return false;
    }
    if slackId !in store.users {
      store.users := store.users[slackId := User(username, profile.tzLabel.value, profile.tzOffset.value, None)];
    }
    ok := true;
  }

  /** The team of a user row through a left join of `clans` on `clan_id`. */
  function ClanOf(users: map<string, User>, clans: map<int, Clan>, slackId: string): (c: Option<Clan>)
    requires slackId in users
    ensures c.Some? <==> users[slackId].clanId.Some? && users[slackId].clanId.value in clans
  {
    var id := users[slackId].clanId;
    if id.Some? && id.value in clans then Some(clans[id.value]) else None
  }

  /** `teamInfoBlock`: the team's name and join code, or the create/join buttons. */
  datatype TeamBlock = InTeam(clanName: string, joinCode: string) | CreateOrJoinButtons

  /** The team block is chosen on the truthiness of the name: an empty name is falsy in
      JavaScript, so a team named "" shows the buttons. */
  function TeamBlockFor(clan: Option<Clan>): (b: TeamBlock)
    ensures b.InTeam? <==> clan.Some? && clan.value.name != ""
    ensures b.InTeam? ==> b.clanName == clan.value.name && b.joinCode == clan.value.joinCode
  {
    if clan.Some? && clan.value.name != "" then InTeam(clan.value.name, clan.value.joinCode) else CreateOrJoinButtons
  }

  datatype Countdown = Countdown(days: int, hours: int, minutes: int)

  /** The milliseconds a countdown stands for. */
  function Span(c: Countdown): int {
    c.days * MsPerDay + c.hours * MsPerHour + c.minutes * MsPerMinute
  }

  /** The `Math.floor` split of a span `rn` into days, hours and minutes,
      with `rn -=` after each unit: a whole number of days, hours in 0..23
      and minutes in 0..59 that fall short of `rn` by less than a minute. */
  function SplitSpan(rn: int): (c: Countdown)
    ensures 0 <= c.hours < 24 && 0 <= c.minutes < 60
    ensures Span(c) <= rn < Span(c) + MsPerMinute
  {
    var days := rn / MsPerDay;
    var rest := rn - days * MsPerDay;
    var hours := rest / MsPerHour;
    var rest' := rest - hours * MsPerHour;
    Countdown(days, hours, rest' / MsPerMinute)
  }

  /** The split is the only countdown with those bounds. */
  lemma SplitSpanUnique(rn: int, c: Countdown)
    requires 0 <= c.hours < 24 && 0 <= c.minutes < 60
    requires Span(c) <= rn < Span(c) + MsPerMinute
    ensures c == SplitSpan(rn)
  {
    var inDay := c.hours * MsPerHour + c.minutes * MsPerMinute;
    MulMono(c.hours, 23, MsPerHour);
    MulMono(c.minutes, 59, MsPerMinute);
    DivUnique(rn, MsPerDay, c.days);
    var rest := rn - c.days * MsPerDay;
    DivUnique(rest, MsPerHour, c.hours);
    DivUnique(rest - c.hours * MsPerHour, MsPerMinute, c.minutes);
  }

  /** A span that is not negative splits into a number of days that is not
      negative either. */
  lemma SplitSpanNonNegative(rn: int)
    requires rn >= 0
    ensures SplitSpan(rn).days >= 0
  {
  }

  /** The `/sock` command: look the user up, register them if absent, and
      show the countdown to the event's start and their team block. */
  method SockCommand(store: Store, slackId: string, username: string, profile: Option<Profile>, nowUtc: int)
    returns (r: Result<(Countdown, TeamBlock), SockError>)
    requires store.Valid()
    modifies store`users
    ensures store.Valid()
    ensures profile.None? ==> r == Err(ProfileUnavailable) && store.users == old(store.users)
    ensures profile.Some? && !FillsRequiredColumns(profile.value) ==> r == Err(InsertRejected) && store.users == old(store.users)
    ensures profile.Some? && FillsRequiredColumns(profile.value) ==>
              && r.Ok?
              && store.users == (if slackId in old(store.users) then old(store.users)
                                 else old(store.users)[slackId := User(username, profile.value.tzLabel.value, profile.value.tzOffset.value, None)])
              && slackId in store.users
              && r.value == (SplitSpan(EventStart - nowUtc), TeamBlockFor(ClanOf(store.users, store.clans, slackId)))
  {
    if profile.None? {
      return Err(ProfileUnavailable);
    }
    var ok := InsertUserIfAbsent(store, slackId, username, profile.value);
    if !ok {
      return Err(InsertRejected);
    }
    var clan := ClanOf(store.users, store.clans, slackId);
    var rn := EventStart - nowUtc;
    r := Ok((SplitSpan(rn), TeamBlockFor(clan)));
  }
}
